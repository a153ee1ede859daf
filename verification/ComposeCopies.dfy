/**
 What a download leaves behind: the local file of every item that counts as transferred holds the
 packets received for it, to the end of the operation and after it.
*/
module ComposeCopies {
  import opened Options
  import opened Trees
  import opened ScanSpec
  import opened ScanShape
  import opened Compose
  import opened ComposeRuns
  import opened ComposeEngine
  import opened ComposeContents
  import opened ComposeSessions
  import opened ComposeMoves
  import Conserve = ScanConserve
  import Copying = ScanCopies
  import Deleting = ScanDeletes
  import X = FileXferSpec
  import XRuns = FileXferRuns

  // --- Different items have different local files -------------------------------------

  /** No name on the path contains a separator. */
  ghost predicate Plain(p: Path) { forall i | 0 <= i < |p| :: '\\' !in p[i] }

  lemma {:induction false} AmongPlain(base: Path, ts: seq<Tree>, it: Item)
    requires Plain(base) && Forest(ts) && Among(base, ts, it)
    ensures Plain(it.At())
    decreases ts
  {
    assert ts[0] in ts && forall t | t in ts[1..] :: t in ts;
    if Among(base, ts[1..], it) {
      AmongPlain(base, ts[1..], it);
    } else if it != Item(base, ts[0]) {
      AmongPlain(base + [ts[0].name], ts[0].kids, it);
    }
  }

  /** The text of a path with a separator behind every name. */
  function Ended(p: Path): string {
    if p == [] then "" else p[0] + ("\\" + Ended(p[1..]))
  }

  lemma {:induction false} TextEnded(p: Path)
    requires p != []
    ensures Text(p) + "\\" == Ended(p)
  {
    if |p| == 1 {
      assert Ended(p) == p[0] + ("\\" + "");
    } else {
      TextEnded(p[1..]);
      assert p[0] + "\\" + Text(p[1..]) + "\\" == p[0] + ("\\" + (Text(p[1..]) + "\\"));
    }
  }

  lemma AtName(a: string, s: string, i: nat)
    requires i <= |a|
    ensures (a + ("\\" + s))[i] == if i < |a| then a[i] else '\\'
  {
  }

  /** The first separator ends the first name. */
  lemma FirstName(a: string, b: string, s: string, t: string)
    requires '\\' !in a && '\\' !in b && a + ("\\" + s) == b + ("\\" + t)
    ensures a == b && s == t
  {
    var n := if |a| < |b| then |a| else |b|;
    AtName(a, s, n);
    AtName(b, t, n);
    assert |a| == |b|;
    var u := a + ("\\" + s);
    assert a == u[..|a|] && b == u[..|b|];
    assert s == u[|a| + 1..] && t == u[|b| + 1..];
  }

  lemma {:induction false} EndedInjective(p: Path, q: Path)
    requires Plain(p) && Plain(q) && Ended(p) == Ended(q)
    ensures p == q
    decreases |p|
  {
    if p != [] && q != [] {
      FirstName(p[0], q[0], Ended(p[1..]), Ended(q[1..]));
      EndedInjective(p[1..], q[1..]);
      assert p == [p[0]] + p[1..] && q == [q[0]] + q[1..];
    }
  }

  lemma NamesInjective(n: Paths, a: Item, b: Item)
    requires Plain(a.At()) && Plain(b.At()) && LocalName(n, a) == LocalName(n, b)
    ensures a.At() == b.At()
  {
    var s, t := Text(a.At()), Text(b.At());
    assert s == (n.local + s)[|n.local|..] && t == (n.local + t)[|n.local|..];
    TextEnded(a.At());
    TextEnded(b.At());
    EndedInjective(a.At(), b.At());
  }

  /** The head of a run is no item that was transferred before. */
  lemma HeadIsNew(b: JointEvent, s: Scan, it: Item)
    requires b.Begin? && IsRunOf(b, s) && Eof(it) in s.log && s.todo != []
    ensures LocalName(b.setup.paths, s.todo[0]) != LocalName(b.setup.paths, it)
  {
    var es :| Runs(Start(b.op, b.sel, b.setup, b.env), es) && s == After(Start(b.op, b.sel, b.setup, b.env), es);
    Copying.AlwaysChosen(b.op, b.sel, b.setup, b.env, es);
    Copying.CopiedOnce(b.op, b.sel, b.setup, b.env, es, it.At());
    Copying.CopiedCounts(s.log, Eof(it));
    assert s.todo[0] in s.todo;
    AmongPlain([], b.sel, s.todo[0]);
    AmongPlain([], b.sel, it);
    if LocalName(b.setup.paths, s.todo[0]) == LocalName(b.setup.paths, it) {
      NamesInjective(b.setup.paths, s.todo[0], it);
    }
  }

  // --- A file stays -------------------------------------------------------------------

  /** The file has the contents c, and the transfer in the slot is about another file. */
  ghost predicate Safe(x: X.Xfer, name: string, c: X.Bytes) {
    && name in x.files && x.files[name] == c
    && (x.slot.Some? ==> x.slot.value.fname != name)
  }

  lemma MessageSafe(x: X.Xfer, m: X.Event, name: string, c: X.Bytes)
    requires Safe(x, name, c) && FromServer(m)
    ensures Safe(X.Step(x, m), name, c)
  {
  }

  lemma TurnSafe(x: X.Xfer, t: X.Tick, name: string, c: X.Bytes)
    requires Safe(x, name, c)
    ensures Safe(LoopTurn(x, t), name, c)
  {
  }

  lemma {:induction false} CallsSafe(n: Paths, x: X.Xfer, log: seq<Action>, name: string, c: X.Bytes)
    requires Safe(x, name, c) && forall a | a in log && Begins(a) :: a.Recv? && LocalName(n, a.it) != name
    ensures Safe(Calls(n, x, log), name, c)
  {
    if log != [] {
      assert log[|log| - 1] in log && forall a | a in log[..|log| - 1] :: a in log;
      CallsSafe(n, x, log[..|log| - 1], name, c);
    }
  }

  /** What the engine begins in an event is what it waits for then: the head. */
  lemma BegunIsHead(n: nat, s: Scan, done: Option<Item>, a: Action)
    requires Calm(n, s, done) && Shape(s) && a in News(n, s.log) && Begins(a)
    ensures s.todo != [] && a.it == s.todo[0] && s.pending == [AwaitOf(a)]
  {
    var news := News(n, s.log);
    var k :| 0 <= k < |news| && news[k] == a;
    assert news[k] == s.log[n + k];
    assert s.pending == [AwaitOf(a)];
  }

  lemma BegunInReaction(s: Scan, e: Event, t: Scan, a: Action)
    requires Reacts(s, e, t) && a in News(|s.log|, t.log) && Begins(a)
    ensures t.todo != [] && a.it == t.todo[0] && t.pending == [AwaitOf(a)]
  {
    if !e.ChunkEvent? && !e.CancelEvent? {
      BegunIsHead(|s.log|, t, if e.EofEvent? then Some(e.p.it) else None, a);
    }
  }

  lemma BegunInEvent(j: Joint, e: JointEvent, a: Action)
    requires Obeys(SCAN) && Inv(j) && Possible(SCAN, j, e) && !e.Begin?
    requires a in NewsIn(SCAN, j, e) && Begins(a)
    ensures var t := Then(SCAN, j, e).scan; t.todo != [] && a.it == t.todo[0] && t.pending == [AwaitOf(a)]
  {
    if e.Other? {
      BegunInReaction(j.scan, e.e, SCAN.step(j.scan, e.e), a);
    } else {
      Goes(SCAN, j, e);
      var x := Moved(j.xfer, e);
      if ToldMore(j.xfer, x) {
        var h := Hears(SCAN, j, x, Noted(j.trace, x, e), e);
        BegunInReaction(j.scan, h, SCAN.step(j.scan, h), a);
      }
    }
  }

  /** The transfer after the event is what the calls made of it. */
  lemma ThenCalls(j: Joint, e: JointEvent)
    requires !e.Begin?
    ensures Then(SCAN, j, e).xfer == Calls(Then(SCAN, j, e).scan.setup.paths, Moved(j.xfer, e), NewsIn(SCAN, j, e))
  {
  }

  lemma RunReceives(b: JointEvent, s: Scan)
    requires b.Begin? && IsRunOf(b, s) && Downloads(b.op) && Transferring(s)
    ensures Receives(s)
  {
    RunShape(b, s);
    assert s.pending[0] in s.pending;
  }

  /** An event of the operation keeps the file of an item that was transferred. */
  lemma EventSafe(b: JointEvent, j: Joint, e: JointEvent, it: Item, c: X.Bytes)
    requires Obeys(SCAN) && Inv(j) && Possible(SCAN, j, e) && !e.Begin?
    requires b.Begin? && Downloads(b.op) && IsRunOf(b, Then(SCAN, j, e).scan) && Eof(it) in Then(SCAN, j, e).scan.log
    requires Safe(Moved(j.xfer, e), LocalName(b.setup.paths, it), c)
    ensures Safe(Then(SCAN, j, e).xfer, LocalName(b.setup.paths, it), c)
  {
    var t := Then(SCAN, j, e).scan;
    RunShape(b, t);
    forall a | a in NewsIn(SCAN, j, e) && Begins(a)
      ensures a.Recv? && LocalName(b.setup.paths, a.it) != LocalName(b.setup.paths, it)
    {
      BegunInEvent(j, e, a);
      RunReceives(b, t);
      HeadIsNew(b, t, it);
    }
    ThenCalls(j, e);
    CallsSafe(b.setup.paths, Moved(j.xfer, e), NewsIn(SCAN, j, e), LocalName(b.setup.paths, it), c);
  }

  lemma MovedSafe(j: Joint, e: JointEvent, name: string, c: X.Bytes)
    requires Possible(SCAN, j, e) && Safe(j.xfer, name, c)
    ensures Safe(Moved(j.xfer, e), name, c)
  {
    match e
    case Server(m, _) => MessageSafe(j.xfer, m, name, c);
    case Turn(t, _) => TurnSafe(j.xfer, t, name, c);
    case _ =>
  }

  // --- Whole sessions -----------------------------------------------------------------

  /** The name of the local file of the item in the latest operation. */
  function LocalFile(es: seq<JointEvent>, it: Item): string
    requires Latest(es).Some?
  {
    LocalName(Latest(es).value.setup.paths, it)
  }

  /** The packets that were received for the file that the i-th event finished. */
  function Received(files: map<string, X.Bytes>, es: seq<JointEvent>, i: nat): Option<X.Bytes>
    requires i < |es|
  {
    XRuns.Payload(Later(SCAN, Connected(files), es[..i]).trace.msgs)
  }

  /** The event finished the download of it, for which c was received. */
  ghost predicate Downloaded(j: Joint, e: JointEvent, it: Item, c: X.Bytes) {
    Finishes(SCAN, j, e, it) && Receives(j.scan) && XRuns.Payload(j.trace.msgs) == Some(c)
  }

  /** The i-th event, of the latest operation, did so. */
  ghost predicate DownloadedAt(files: map<string, X.Bytes>, es: seq<JointEvent>, i: nat, it: Item, c: X.Bytes) {
    i < |es| && Downloaded(Later(SCAN, Connected(files), es[..i]), es[i], it, c) && NoBegin(es, i)
  }

  /** After that event the slot is free and the file holds c. */
  lemma JustDownloaded(j: Joint, e: JointEvent, it: Item, c: X.Bytes)
    requires Reachable(SCAN, j) && Possible(SCAN, j, e) && Downloaded(j, e, it, c)
    ensures Safe(Moved(j.xfer, e), LocalName(j.scan.setup.paths, it), c)
  {
    ScanObeys();
    Reached(SCAN, j);
    FinishedByNotice(SCAN, j, e, it);
    FinishedDownloads(SCAN, j, e, it);
  }

  /** A session that goes on within the operation. */
  lemma NextSafe(files: map<string, X.Bytes>, es: seq<JointEvent>, it: Item, c: X.Bytes)
    requires Session(SCAN, Connected(files), es) && es != [] && !es[|es| - 1].Begin?
    requires Latest(es).Some? && Downloads(Latest(es).value.op) && Eof(it) in Later(SCAN, Connected(files), es).scan.log
    requires var n := |es| - 1;
             Safe(Moved(Later(SCAN, Connected(files), es[..n]).xfer, es[n]), LocalFile(es, it), c)
    ensures Safe(Later(SCAN, Connected(files), es).xfer, LocalFile(es, it), c)
  {
    var n := |es| - 1;
    ScanObeys();
    Front(SCAN, Connected(files), es);
    SessionKeeps(SCAN, files, es[..n]);
    SessionsAreRuns(files, es);
    EventSafe(Latest(es).value, Later(SCAN, Connected(files), es[..n]), es[n], it, c);
  }

  lemma LatestStays(es: seq<JointEvent>, i: nat)
    requires i <= |es| && NoBegin(es, i)
    ensures Latest(es[..i]) == Latest(es)
    decreases |es|
  {
    if i == |es| {
      assert es[..i] == es;
    } else {
      var front := es[..|es| - 1];
      assert forall k | 0 <= k < |front| :: front[k] == es[k];
      LatestStays(front, i);
      assert front[..i] == es[..i];
    }
  }

  lemma LogStays(files: map<string, X.Bytes>, es: seq<JointEvent>, a: Action)
    requires Session(SCAN, Connected(files), es) && es != [] && !es[|es| - 1].Begin?
    requires var n := |es| - 1; var j := Later(SCAN, Connected(files), es[..n]);
             a in j.scan.log || a in NewsIn(SCAN, j, es[n])
    ensures a in Later(SCAN, Connected(files), es).scan.log
  {
    var n := |es| - 1;
    ScanObeys();
    Front(SCAN, Connected(files), es);
    SessionKeeps(SCAN, files, es[..n]);
    LogAfter(SCAN, Later(SCAN, Connected(files), es[..n]), es[n]);
  }

  lemma NoBeginInFront(es: seq<JointEvent>, i: nat)
    requires es != [] && NoBegin(es, i)
    ensures NoBegin(es[..|es| - 1], i)
  {
    assert forall k | 0 <= k < |es| - 1 :: es[..|es| - 1][k] == es[k];
  }

  lemma DownloadedAsWell(files: map<string, X.Bytes>, es: seq<JointEvent>, fs: seq<JointEvent>, i: nat, it: Item, c: X.Bytes)
    requires DownloadedAt(files, es, i, it, c)
    requires i < |fs| && fs[..i] == es[..i] && fs[i] == es[i] && NoBegin(fs, i)
    ensures DownloadedAt(files, fs, i, it, c)
  {
  }

  lemma DownloadedBefore(files: map<string, X.Bytes>, es: seq<JointEvent>, i: nat, it: Item, c: X.Bytes)
    requires DownloadedAt(files, es, i, it, c) && i < |es| - 1
    ensures DownloadedAt(files, es[..|es| - 1], i, it, c)
  {
    var front := es[..|es| - 1];
    assert front[..i] == es[..i] && front[i] == es[i] && NoBegin(front, i) by {
      Prefixes(es, |es| - 1, i);
      NoBeginInFront(es, i);
    }
    DownloadedAsWell(files, es, front, i, it, c);
  }

  /** From the end of its download to the next operation a file is not touched any more. */
  lemma {:induction false} StaysDownloaded(files: map<string, X.Bytes>, es: seq<JointEvent>, i: nat, it: Item, c: X.Bytes)
    requires Session(SCAN, Connected(files), es) && DownloadedAt(files, es, i, it, c)
    requires Latest(es).Some? && Downloads(Latest(es).value.op)
    ensures Safe(Later(SCAN, Connected(files), es).xfer, LocalFile(es, it), c)
    ensures Eof(it) in Later(SCAN, Connected(files), es).scan.log
    decreases |es|
  {
    var n := |es| - 1;
    Front(SCAN, Connected(files), es);
    LatestStays(es, n);
    if i == n {
      PrefixReachable(SCAN, files, es, n);
      SessionSetup(files, es[..n]);
      JustDownloaded(Later(SCAN, Connected(files), es[..n]), es[n], it, c);
    } else {
      DownloadedBefore(files, es, i, it, c);
      StaysDownloaded(files, es[..n], i, it, c);
      MovedSafe(Later(SCAN, Connected(files), es[..n]), es[n], LocalFile(es, it), c);
    }
    LogStays(files, es, Eof(it));
    NextSafe(files, es, it, c);
  }

  /** The i-th event finished the transfer of it; and if the server did not end it early, the local
      file holds the packets received for it at the end of the session, too. */
  ghost predicate ArrivedAt(files: map<string, X.Bytes>, es: seq<JointEvent>, i: nat, it: Item)
    requires Latest(es).Some?
  {
    && FinishedAt(SCAN, Connected(files), es, i, it)
    && (!EndsEarly(Later(SCAN, Connected(files), es[..i]), es[i]) ==>
          && Received(files, es, i).Some?
          && var x := Later(SCAN, Connected(files), es).xfer;
             LocalFile(es, it) in x.files && x.files[LocalFile(es, it)] == Received(files, es, i).value)
  }

  lemma FinishReceives(b: JointEvent, j: Joint, e: JointEvent, it: Item)
    requires b.Begin? && IsRunOf(b, j.scan) && Downloads(b.op)
    requires Reachable(SCAN, j) && Possible(SCAN, j, e) && Finishes(SCAN, j, e, it)
    ensures Receives(j.scan)
  {
    assert Transferring(j.scan) by {
      ScanObeys();
      Reached(SCAN, j);
      FinishedByNotice(SCAN, j, e, it);
    }
    RunReceives(b, j.scan);
  }

  lemma FinishIsDownload(b: JointEvent, j: Joint, e: JointEvent, it: Item)
    requires b.Begin? && IsRunOf(b, j.scan) && Downloads(b.op)
    requires Reachable(SCAN, j) && Possible(SCAN, j, e) && Finishes(SCAN, j, e, it)
    ensures Receives(j.scan)
    ensures !EndsEarly(j, e) ==> XRuns.Payload(j.trace.msgs).Some?
  {
    FinishReceives(b, j, e, it);
    ScanObeys();
    FinishedDownloads(SCAN, j, e, it);
  }

  lemma FinishedArrived(files: map<string, X.Bytes>, es: seq<JointEvent>, i: nat, it: Item)
    requires Session(SCAN, Connected(files), es) && FinishedAt(SCAN, Connected(files), es, i, it)
    requires Latest(es).Some? && Downloads(Latest(es).value.op)
    ensures ArrivedAt(files, es, i, it)
  {
    PrefixReachable(SCAN, files, es, i);
    SessionFront(SCAN, Connected(files), es, i);
    LatestStays(es, i);
    SessionsAreRuns(files, es[..i]);
    var j := Later(SCAN, Connected(files), es[..i]);
    FinishIsDownload(Latest(es).value, j, es[i], it);
    if !EndsEarly(j, es[i]) {
      StaysDownloaded(files, es, i, it, Received(files, es, i).value);
    }
  }

  /** In every session, whatever is skipped, refused, cancelled or failing: for every file that the
      latest operation, a download, recorded as transferred, the local file holds exactly the
      packets that were received for it, unless the server ended its transfer early. */
  lemma DownloadsStay(files: map<string, X.Bytes>, es: seq<JointEvent>, it: Item)
    requires Session(SCAN, Connected(files), es)
    requires Latest(es).Some? && Downloads(Latest(es).value.op)
    requires Eof(it) in Later(SCAN, Connected(files), es).scan.log
    ensures exists i :: ArrivedAt(files, es, i, it)
  {
    ScanObeys();
    FinishedAtSomeEvent(SCAN, files, es, it);
    var i :| FinishedAt(SCAN, Connected(files), es, i, it);
    FinishedArrived(files, es, i, it);
  }

  lemma RunCopies(b: JointEvent, s: Scan, it: Item)
    requires b.Begin? && IsRunOf(b, s) && Copies(b.op) && s.op == NoOp && Deleting.Undisturbed(s.log)
    requires Among([], b.sel, it)
    ensures (if it.node.dir then DirDone(it) else Eof(it)) in s.log
  {
    var es :| Runs(Start(b.op, b.sel, b.setup, b.env), es) && s == After(Start(b.op, b.sel, b.setup, b.env), es);
    Copying.CopiesEveryEntry(b.op, b.sel, b.setup, b.env, es, it);
  }

  /** So when a download copy ended without a skip, an error or a cancellation, every directory of
      the selection was made, and every file of it is there with the packets received for it, unless
      the server ended its transfer early. */
  lemma UndisturbedDownloadsArrive(files: map<string, X.Bytes>, es: seq<JointEvent>, it: Item)
    requires Session(SCAN, Connected(files), es)
    requires Latest(es).Some? && Latest(es).value.op == RLCopy && Among([], Latest(es).value.sel, it)
    requires var s := Later(SCAN, Connected(files), es).scan; s.op == NoOp && Deleting.Undisturbed(s.log)
    ensures if it.node.dir then DirDone(it) in Later(SCAN, Connected(files), es).scan.log
            else exists i :: ArrivedAt(files, es, i, it)
  {
    SessionsAreRuns(files, es);
    RunCopies(Latest(es).value, Later(SCAN, Connected(files), es).scan, it);
    if !it.node.dir { DownloadsStay(files, es, it); }
  }
}
