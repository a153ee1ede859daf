/**
 Uploads go on when the server cannot make a directory: when the directory a file is
 sent into exists, and a run in which it does not.
*/
module ScanUploads {
  import opened Options
  import opened Trees
  import opened ScanSpec
  import opened ScanShape
  import opened ScanRuns
  import opened ScanConserve
  import opened ScanDeletes
  import opened ScanHistory
  import opened ScanCopies

  predicate IsDirDone(a: Action) { a.DirDone? }

  predicate IsReply(a: Action) { a.MkDirReply? }

  /** A directory leaves lsScan at most once, and each departure is answered at most once. */
  ghost predicate OneReply(s: Scan, p: Path) {
    && Count(s.log, IsDirDone, p) + RestOf(s.todo, s.given, p) <= 1
    && Count(s.log, IsReply, p) + Making(s, p) <= Count(s.log, IsDirDone, p)
  }

  ghost function Making(s: Scan, p: Path): nat {
    if Now(s).Some? && Now(s).value.AwaitMkDir? then Self(Now(s).value.it, p) else 0
  }

  lemma MakingAfter(s: Scan, a: Action, p: Path)
    requires Shape(s) && Can(s, a)
    ensures a.MkDirReply? ==> Making(s, p) == Self(a.it, p) && Making(Do(s, a), p) == 0
    ensures !a.MkDirReply? ==> Making(Do(s, a), p) <= if a.DirDone? then Self(a.it, p) else 0
  {
    NextWait(s, a);
  }

  lemma OneReplyAfter(s: Scan, a: Action, t: Scan, p: Path)
    requires OneReply(s, p) && t.log == s.log + [a]
    requires RestOf(t.todo, t.given, p) + (if a.DirDone? then Self(a.it, p) else 0)
          <= RestOf(s.todo, s.given, p)
    requires a.MkDirReply? ==> Making(s, p) == Self(a.it, p) && Making(t, p) == 0
    requires !a.MkDirReply? ==> Making(t, p) <= if a.DirDone? then Self(a.it, p) else 0
    ensures OneReply(t, p)
  {
    CountSnoc(s.log, a, IsDirDone, p);
    CountSnoc(s.log, a, IsReply, p);
  }

  lemma OneReplyClosed(p: Path)
    ensures Closed(s => OneReply(s, p))
  {
    forall s: Scan, a: Action | Shape(s) && OneReply(s, p) && Can(s, a)
      ensures OneReply(Do(s, a), p)
    {
      Shifts(s, a);
      CopiedLeaves(s, a, Do(s, a), p);
      MakingAfter(s, a, p);
      OneReplyAfter(s, a, Do(s, a), p);
    }
    forall s: Scan, q: Pending | Shape(s) && OneReply(s, p) && q in s.pending
      ensures OneReply(Take(s, q), p)
    {
      TakeShape(s, q);
    }
  }

  lemma OneReplyAlways(op: Op, sel: seq<Tree>, setup: Setup, env: Env, es: seq<Event>, p: Path)
    requires op != NoOp && sel != [] && Forest(sel)
    requires Runs(Start(op, sel, setup, env), es)
    ensures OneReply(After(Start(op, sel, setup, env), es), p)
  {
    var s := Fresh(op, setup);
    SelectionShare(s, sel, p);
    SelectionRest(s, sel);
    LoadSome(op, sel, setup);
    HeadFresh(Load(op, sel, setup).todo[0], p);
    UnderAllOnce([], sel, p);
    OneReplyClosed(p);
    Always(s => OneReply(s, p), op, sel, setup, env, es);
  }

  /** The making of p was answered with ok. */
  ghost predicate Replied(log: seq<Action>, p: Path, ok: bool) {
    exists it: Item :: MkDirReply(it, ok) in log && it.At() == p
  }

  lemma {:induction false} CountTwo(log: seq<Action>, i: nat, j: nat, p: Path)
    requires i < j < |log| && IsReply(log[i]) && IsReply(log[j])
    requires log[i].it.At() == p && log[j].it.At() == p
    ensures Count(log, IsReply, p) >= 2
    decreases |log|
  {
    var front := log[..|log| - 1];
    if j == |log| - 1 {
      CountOne(front, i, p);
    } else {
      CountTwo(front, i, j, p);
    }
  }

  lemma {:induction false} CountOne(log: seq<Action>, i: nat, p: Path)
    requires i < |log| && IsReply(log[i]) && log[i].it.At() == p
    ensures Count(log, IsReply, p) >= 1
    decreases |log|
  {
    if i < |log| - 1 { CountOne(log[..|log| - 1], i, p); }
  }

  /** When a file is sent, the directory it goes into was made for this operation if and only
      if its making was not refused: the code asks for the directory, waits for the answer,
      and sends the file either way. */
  lemma SendsIntoMadeDirectory(op: Op, sel: seq<Tree>, setup: Setup, env: Env, es: seq<Event>, j: nat)
    requires Uploads(op) && sel != [] && Forest(sel)
    requires Runs(Start(op, sel, setup, env), es)
    requires var log := After(Start(op, sel, setup, env), es).log;
             j < |log| && log[j].Send? && log[j].it.base != []
    ensures var log := After(Start(op, sel, setup, env), es).log; var p := log[j].it.base;
            Replied(log[..j], p, true) <==> !Replied(log[..j], p, false)
  {
    var log := After(Start(op, sel, setup, env), es).log;
    var p := log[j].it.base;
    DirectoriesTopDown(op, sel, setup, env, es);
    var a :| a in log[..j] && Makes(op, a, p);
    assert MkDirReply(a.it, a.ok) in log[..j];
    OneReplyAlways(op, sel, setup, env, es, p);
    if Replied(log[..j], p, true) && Replied(log[..j], p, false) {
      var x: Item :| MkDirReply(x, true) in log[..j] && x.At() == p;
      var y: Item :| MkDirReply(y, false) in log[..j] && y.At() == p;
      var i :| 0 <= i < j && log[i] == MkDirReply(x, true);
      var k :| 0 <= k < j && log[k] == MkDirReply(y, false);
      CountTwo(log, if i < k then i else k, if i < k then k else i, p);
    }
  }

  // --- A run in which the directory is missing --------------------------------------

  const FILE := Tree("f", false, 1, [])
  const DIR := Tree("d", true, 0, [FILE])

  const D := Item([], DIR)
  const F := Item(["d"], FILE)
  const SETUP := Setup(250, map[], Paths("C:\\", "D:\\"))

  lemma NamedPaths()
    ensures D.At() == ["d"] && F.At() == ["d", "f"]
    ensures PathLen(D.At()) == 1 && PathLen(F.At()) == 3
    ensures Forest([DIR]) && FILE in DIR.kids
  {
    assert WellFormed(FILE) && WellFormed(DIR);
    assert F.At()[1..] == ["f"];
  }

  /** The directory is listed. */
  lemma Listing() returns (s: Scan)
    ensures s == Start(LRCopy, [DIR], SETUP, Fine())
    ensures s.op == LRCopy && s.todo == [D, F] && s.pending == [AwaitLocalEnd(D)] && s.busy == None
    ensures s.given == 1 && !s.cancel && s.setup == SETUP && s.del == []
  {
    NamedPaths();
    var s0 := Fresh(LRCopy, SETUP).(todo := [D]);
    assert Add(Fresh(LRCopy, SETUP), D).todo == [D];
    assert AddSelected(Fresh(LRCopy, SETUP), [DIR]) == s0;
    var s1 := Do(s0, Queue(F));
    assert s1.todo == [D, F];
    s := Do(s1, LocalListed(D));
    assert ListLocal(s1, Fine()) == s;
    assert s0.(given := 0) == s0 && ListLocal(s0, Fine()) == s;
    assert NextStep(s0, Fine()) == s;
  }

  /** Its making is requested, refused, and the file is sent. */
  lemma Refusal(s: Scan) returns (t: Scan, u: Scan)
    requires s.op == LRCopy && s.todo == [D, F] && s.pending == [AwaitLocalEnd(D)] && s.busy == None
    requires s.given == 1 && !s.cancel && s.setup == SETUP && s.del == []
    ensures t == Step(s, LocalEndEvent(D, Fine())) && t.pending == [AwaitMkDir(D)]
    ensures u == Step(t, MkDirEvent(D, false, Fine()))
    ensures MkDirReply(D, false) in u.log && Send(F, false) in u.log
  {
    NamedPaths();
    t := Do(Take(s, AwaitLocalEnd(D)), DirDone(D));
    assert t.todo == [F];
    var t1 := Do(Take(t, AwaitMkDir(D)), MkDirReply(D, false));
    u := Do(t1, Send(F, false));
    assert CheckPanel(t1, F) == Proceed(false);
    assert LocalRequest(t1, Fine()) == (u, false);
  }

  /** The server refuses to make d, and d\f is sent all the same. */
  lemma RefusedDirectoryIsIgnored()
    ensures var s := Start(LRCopy, [DIR], SETUP, Fine());
            var es := [LocalEndEvent(D, Fine()), MkDirEvent(D, false, Fine())];
            && Forest([DIR]) && Runs(s, es)
            && MkDirReply(D, false) in After(s, es).log && Send(F, false) in After(s, es).log
  {
    NamedPaths();
    var s := Listing();
    var t, u := Refusal(s);
    var e, f := LocalEndEvent(D, Fine()), MkDirEvent(D, false, Fine());
    assert Enabled(s, e) && Enabled(t, f);
    assert Runs(t, [f]) && After(t, [f]) == u by {
      assert [f][1..] == [];
    }
    assert [e, f][1..] == [f];
  }
}
