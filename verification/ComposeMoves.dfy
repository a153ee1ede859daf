/** What happened to a file that counts as transferred, and what a move had transferred of a file
 when it deletes the file. */
module ComposeMoves {
  import opened Options
  import opened Trees
  import opened ScanSpec
  import opened ScanShape
  import opened Compose
  import opened ComposeRuns
  import opened ComposeEngine
  import opened ComposeContents
  import opened ComposeSessions
  import Deleting = ScanDeletes
  import History = ScanHistory
  import Order = ScanOrder
  import X = FileXferSpec

  /** Events add to the history of the operation, and a start begins a new one. */
  lemma LogAfter(g: Engine, j: Joint, e: JointEvent)
    requires Obeys(g) && Inv(j) && Possible(g, j, e)
    ensures Then(g, j, e).scan.log == (if e.Begin? then [] else j.scan.log) + NewsIn(g, j, e)
  {
    if e.Other? {
      assert Reacts(j.scan, e.e, g.step(j.scan, e.e));
    } else if !e.Begin? {
      Goes(g, j, e);
      var x := Moved(j.xfer, e);
      if ToldMore(j.xfer, x) {
        var h := Hears(g, j, x, Noted(j.trace, x, e), e);
        assert Reacts(j.scan, h, g.step(j.scan, h));
      }
    }
  }

  predicate NoBegin(es: seq<JointEvent>, i: nat) { forall k | i <= k < |es| :: !es[k].Begin? }

  /** The i-th event finished the transfer of it, in the operation that is the latest one at the end. */
  ghost predicate FinishedAt(g: Engine, j: Joint, es: seq<JointEvent>, i: nat, it: Item) {
    i < |es| && Finishes(g, Later(g, j, es[..i]), es[i], it) && NoBegin(es, i)
  }

  lemma FinishedNow(g: Engine, files: map<string, X.Bytes>, es: seq<JointEvent>, it: Item)
    requires Obeys(g) && Session(g, Connected(files), es) && es != []
    requires Finishes(g, Later(g, Connected(files), es[..|es| - 1]), es[|es| - 1], it)
    ensures FinishedAt(g, Connected(files), es, |es| - 1, it)
  {
    var n := |es| - 1;
    Front(g, Connected(files), es);
    SessionKeeps(g, files, es[..n]);
    FinishedByNotice(g, Later(g, Connected(files), es[..n]), es[n], it);
  }

  lemma FinishedBefore(g: Engine, j: Joint, es: seq<JointEvent>, i: nat, it: Item)
    requires es != [] && !es[|es| - 1].Begin? && FinishedAt(g, j, es[..|es| - 1], i, it)
    ensures FinishedAt(g, j, es, i, it)
  {
    Prefixes(es, |es| - 1, i);
    NoBeginYet(es, i);
  }

  lemma NoBeginYet(es: seq<JointEvent>, i: nat)
    requires es != [] && !es[|es| - 1].Begin? && NoBegin(es[..|es| - 1], i)
    ensures NoBegin(es, i)
  {
    assert forall k | 0 <= k < |es| - 1 :: es[..|es| - 1][k] == es[k];
  }

  /** What is recorded as transferred was finished by an event of the same operation. */
  lemma {:induction false} FinishedAtSomeEvent(g: Engine, files: map<string, X.Bytes>, es: seq<JointEvent>, it: Item)
    requires Obeys(g) && Session(g, Connected(files), es)
    requires Eof(it) in Later(g, Connected(files), es).scan.log
    ensures exists i :: FinishedAt(g, Connected(files), es, i, it)
    decreases |es|
  {
    if es != [] {
      var j, n := Connected(files), |es| - 1;
      var k := Later(g, j, es[..n]);
      Front(g, j, es);
      SessionKeeps(g, files, es[..n]);
      LogAfter(g, k, es[n]);
      if Finishes(g, k, es[n], it) {
        FinishedNow(g, files, es, it);
      } else {
        FinishedAtSomeEvent(g, files, es[..n], it);
        var i :| FinishedAt(g, j, es[..n], i, it);
        FinishedBefore(g, j, es, i, it);
      }
    }
  }

  lemma Prefixes(es: seq<JointEvent>, n: nat, i: nat)
    requires i < n <= |es|
    ensures es[..n][..i] == es[..i] && es[..n][i] == es[i]
  {
  }

  lemma {:induction false} SessionTake(g: Engine, j: Joint, es: seq<JointEvent>, m: nat)
    requires Session(g, j, es) && m <= |es|
    ensures Session(g, j, es[..m])
    decreases |es|
  {
    if m == |es| {
      assert es[..m] == es;
    } else {
      var front := es[..|es| - 1];
      Front(g, j, es);
      SessionTake(g, j, front, m);
      assert front[..m] == es[..m];
    }
  }

  lemma SessionFront(g: Engine, j: Joint, es: seq<JointEvent>, i: nat)
    requires Session(g, j, es) && i < |es|
    ensures Session(g, j, es[..i]) && Possible(g, Later(g, j, es[..i]), es[i])
  {
    SessionTake(g, j, es, i + 1);
    Prefixes(es, i + 1, i);
    Front(g, j, es[..i + 1]);
  }

  /** The event finished the transfer of it, which had been asked for by its names, and all of the
      file came or went if and only if the server did not end the transfer early. */
  ghost predicate Transferred(j: Joint, e: JointEvent, it: Item) {
    && Finishes(SCAN, j, e, it) && (Whole(j, e) <==> !EndsEarly(j, e))
    && j.trace.remote == RemoteName(j.scan.setup.paths, it) && j.trace.local == LocalName(j.scan.setup.paths, it)
  }

  lemma FinishIsTransfer(j: Joint, e: JointEvent, it: Item)
    requires Reachable(SCAN, j) && Possible(SCAN, j, e) && Finishes(SCAN, j, e, it)
    ensures Transferred(j, e, it)
  {
    ScanObeys();
    Reached(SCAN, j);
    FinishedByNotice(SCAN, j, e, it);
    if Sends(j.scan) { FinishedUploads(SCAN, j, e, it); } else { FinishedDownloads(SCAN, j, e, it); }
  }

  lemma PrefixReachable(g: Engine, files: map<string, X.Bytes>, es: seq<JointEvent>, i: nat)
    requires Session(g, Connected(files), es) && i < |es|
    ensures Reachable(g, Later(g, Connected(files), es[..i])) && Possible(g, Later(g, Connected(files), es[..i]), es[i])
  {
    SessionFront(g, Connected(files), es, i);
  }

  /** The i-th event, of the latest operation, is the transfer of it. */
  ghost predicate TransferredAt(j: Joint, es: seq<JointEvent>, i: nat, it: Item) {
    i < |es| && Transferred(Later(SCAN, j, es[..i]), es[i], it) && NoBegin(es, i)
  }

  lemma FinishedIsTransferred(files: map<string, X.Bytes>, es: seq<JointEvent>, i: nat, it: Item)
    requires Session(SCAN, Connected(files), es) && FinishedAt(SCAN, Connected(files), es, i, it)
    ensures TransferredAt(Connected(files), es, i, it)
  {
    PrefixReachable(SCAN, files, es, i);
    FinishIsTransfer(Later(SCAN, Connected(files), es[..i]), es[i], it);
  }

  /** In every session: when a move deletes a file, an event of that very move had finished its
      transfer; and all of the file was sent or received then if and only if the server did not end
      the transfer early. */
  lemma MovesDeleteWhatWasTransferred(files: map<string, X.Bytes>, es: seq<JointEvent>, a: Action)
    requires Session(SCAN, Connected(files), es)
    requires var s := Later(SCAN, Connected(files), es).scan;
             Moves(s.job) && a in s.log && Order.IsDelete(a) && !a.it.node.dir
    ensures exists i :: TransferredAt(Connected(files), es, i, a.it)
  {
    var s := Later(SCAN, Connected(files), es).scan;
    SessionsAreRuns(files, es);
    DeletedHadEof(s, Latest(es), a);
    ScanObeys();
    FinishedAtSomeEvent(SCAN, files, es, a.it);
    var i :| FinishedAt(SCAN, Connected(files), es, i, a.it);
    FinishedIsTransferred(files, es, i, a.it);
  }

  lemma DeletedHadEof(s: Scan, b: Option<JointEvent>, a: Action)
    requires (b.Some? ==> b.value.Begin?) && Follows(s, b)
    requires Moves(s.job) && a in s.log && Order.IsDelete(a) && !a.it.node.dir
    ensures Eof(a.it) in s.log
  {
    var c := b.value;
    var es :| Runs(Start(c.op, c.sel, c.setup, c.env), es) && s == After(Start(c.op, c.sel, c.setup, c.env), es);
    Deleting.JobStays(c.op, c.sel, c.setup, c.env, es);
    History.MoveKeepsUntransferred(c.op, c.sel, c.setup, c.env, es);
    var k :| 0 <= k < |s.log| && s.log[k] == a;
    assert Eof(a.it) in s.log[..k];
  }
}
