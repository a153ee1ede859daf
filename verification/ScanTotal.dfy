/**
 The total shown by the progress window against the bytes done and the bytes queued.
*/
module ScanTotal {
  import opened Trees
  import opened ScanSpec
  import opened ScanShape
  import opened ScanRuns
  import opened ScanConserve
  import opened ScanHistory
  import opened ScanDeletes

  /** Bytes of the files still queued. */
  function Queued(todo: seq<Item>): nat {
    if todo == [] then 0 else Bytes(todo[0]) + Queued(todo[1..])
  }

  function Bytes(it: Item): nat { if it.node.dir then 0 else it.node.size }

  /** Bytes a recorded update completes: transferred files, and in a delete the files deleted. */
  function DoneBy(job: Op, a: Action): nat {
    match a
    case Eof(it) => Bytes(it)
    case DeleteReply(it, ok) => if Deletes(job) && ok then Bytes(it) else 0
    case LocalDelete(it) => if Deletes(job) then Bytes(it) else 0
    case _ => 0
  }

  /** By how much a recorded update moves the total away from the bytes done and queued. */
  function DriftBy(job: Op, a: Action): int {
    match a
    case TooLong(it) => Bytes(it)                             // left the queue, stayed in the total
    case DeleteReply(it, ok) => if Deletes(job) && !ok then Bytes(it) else 0
    case Pressed(_, it, b, late) =>
      if b != SkipButton then 0
      else if late then 0 - it.node.size                     // was done, is subtracted again
      else if it.node.dir then 0 - it.node.size                // was never added
      else 0
    case _ => 0
  }

  function Done(job: Op, log: seq<Action>): nat {
    if log == [] then 0 else Done(job, log[..|log| - 1]) + DoneBy(job, log[|log| - 1])
  }

  function Drift(job: Op, log: seq<Action>): int {
    if log == [] then 0 else Drift(job, log[..|log| - 1]) + DriftBy(job, log[|log| - 1])
  }

  lemma LogSnoc(job: Op, log: seq<Action>, a: Action)
    ensures Done(job, log + [a]) == Done(job, log) + DoneBy(job, a)
    ensures Drift(job, log + [a]) == Drift(job, log) + DriftBy(job, a)
  {
    assert (log + [a])[..|log|] == log;
  }

  ghost predicate TotalTells(s: Scan) {
    s.op != NoOp ==> s.total == Wrap(Done(s.job, s.log) + Queued(s.todo) + Drift(s.job, s.log))
  }

  // --- Arithmetic modulo 2^64 -------------------------------------------------------

  lemma WrapAdd(x: int, k: int)
    ensures Wrap(Wrap(x) + k) == Wrap(x + k)
  {
    var q := x / TWO_64;
    assert x == q * TWO_64 + Wrap(x);
    WrapShift(Wrap(x) + k, q);
  }

  lemma WrapShift(y: int, q: int)
    ensures Wrap(y + q * TWO_64) == Wrap(y)
  {
    var r := y / TWO_64;
    assert y + q * TWO_64 == (r + q) * TWO_64 + Wrap(y);
    WrapUnique(y + q * TWO_64, r + q, Wrap(y));
  }

  lemma WrapUnique(x: int, q: int, r: int)
    requires x == q * TWO_64 + r && 0 <= r < TWO_64
    ensures Wrap(x) == r
  {
    assert (x / TWO_64 - q) * TWO_64 == r - Wrap(x);
  }

  // --- The total is kept ------------------------------------------------------------

  function NewTotal(s: Scan, a: Action): nat {
    match a
    case Queue(it) => if it.node.dir then s.total else Wrap(s.total + it.node.size)
    case Pass(it) => Wrap(s.total - it.node.size)
    case Pressed(_, it, b, _) => if b == SkipButton then Wrap(s.total - it.node.size) else s.total
    case _ => s.total
  }

  lemma TotalPressed(s: Scan, a: Action)
    requires Shape(s) && Can(s, a) && a.Pressed?
    ensures Do(s, a).total == NewTotal(s, a)
  {
    assert Fits(s, AwaitButton(a.box, a.it));
  }

  lemma TotalOther(s: Scan, a: Action)
    requires Shape(s) && Can(s, a) && !a.Pressed? && !a.Finish?
    ensures Do(s, a).total == NewTotal(s, a)
  {
    if a.Queue? { QueueShape(s, a.it); }
  }

  lemma {:induction false} QueuedAppend(a: seq<Item>, b: seq<Item>)
    ensures Queued(a + b) == Queued(a) + Queued(b)
  {
    if a == [] {
      assert a + b == b;
    } else {
      assert (a + b)[0] == a[0] && (a + b)[1..] == a[1..] + b;
      QueuedAppend(a[1..], b);
    }
  }

  /** How the queued bytes change. */
  lemma QueuedAfter(s: Scan, a: Action, t: Scan)
    requires Shifted(s, a, t) && !a.Finish?
    ensures Queued(t.todo) - Queued(s.todo) ==
              match ShiftOf(s, a)
              case Added => Bytes(a.it)
              case Kept => 0 - Bytes(s.todo[0])
              case Left => 0 - Bytes(s.todo[0])
              case _ => 0
  {
    if ShiftOf(s, a).Added? {
      if a.it.node.dir {
        assert t.todo[1..] == [a.it] + s.todo[1..] && t.todo[1..][1..] == s.todo[1..];
      } else {
        QueuedAppend(s.todo, [a.it]);
        assert [a.it][1..] == [];
      }
    }
  }

  /** The total moves by exactly what is queued, done or drifts. */
  lemma TotalMoves(s: Scan, a: Action, t: Scan)
    requires Shape(s) && Can(s, a) && Shifted(s, a, t) && !a.Finish? && t.total == NewTotal(s, a)
    ensures var k := Queued(t.todo) - Queued(s.todo) + DoneBy(s.job, a) + DriftBy(s.job, a);
            t.total == Wrap(s.total + k) || (t.total == s.total && k == 0)
  {
    QueuedAfter(s, a, t);
    if a.Pressed? { PressedMoves(s, a, t); }
  }

  lemma PressedMoves(s: Scan, a: Action, t: Scan)
    requires Shape(s) && Can(s, a) && Shifted(s, a, t) && a.Pressed? && t.total == NewTotal(s, a)
    requires Queued(t.todo) - Queued(s.todo) == if ShiftOf(s, a) == Left then 0 - Bytes(s.todo[0]) else 0
    ensures var k := Queued(t.todo) - Queued(s.todo) + DoneBy(s.job, a) + DriftBy(s.job, a);
            t.total == Wrap(s.total + k) || (t.total == s.total && k == 0)
  {
    assert Fits(s, AwaitButton(a.box, a.it));
  }

  lemma TotalAfter(s: Scan, a: Action, t: Scan)
    requires Shape(s) && Can(s, a) && Shifted(s, a, t) && t.total == NewTotal(s, a)
    requires TotalTells(s) && !a.Finish? && s.op != NoOp
    ensures TotalTells(t)
  {
    LogSnoc(s.job, s.log, a);
    TotalMoves(s, a, t);
    var x := Done(s.job, s.log) + Queued(s.todo) + Drift(s.job, s.log);
    var k := Queued(t.todo) - Queued(s.todo) + DoneBy(s.job, a) + DriftBy(s.job, a);
    WrapAdd(x, k);
  }

  lemma TotalClosed()
    ensures Closed(TotalTells)
  {
    forall s: Scan, a: Action | Shape(s) && TotalTells(s) && Can(s, a)
      ensures TotalTells(Do(s, a))
    {
      FlagsAfter(s, a);
      if !a.Finish? {
        Shifts(s, a);
        OnlyWhileRunning(s, a);
        if a.Pressed? { TotalPressed(s, a); } else { TotalOther(s, a); }
        TotalAfter(s, a, Do(s, a));
      }
    }
  }

  lemma LoadedTotal(op: Op, sel: seq<Tree>, setup: Setup)
    requires Forest(sel)
    ensures TotalTells(Load(op, sel, setup))
  {
    SelectedTotal(Fresh(op, setup), sel);
    SelectionRest(Fresh(op, setup), sel);
  }

  lemma TotalAlways(op: Op, sel: seq<Tree>, setup: Setup, env: Env, es: seq<Event>)
    requires op != NoOp && sel != [] && Forest(sel)
    requires Runs(Start(op, sel, setup, env), es)
    ensures TotalTells(After(Start(op, sel, setup, env), es))
  {
    TotalClosed();
    LoadedTotal(op, sel, setup);
    Always(TotalTells, op, sel, setup, env, es);
  }

  /** The total is the bytes done plus the bytes queued. */
  ghost predicate TotalRight(s: Scan) {
    s.total == Wrap(Done(s.job, s.log) + Queued(s.todo))
  }

  ghost predicate NilDrift(s: Scan) { Wrap(Drift(s.job, s.log)) == 0 }

  lemma DriftDecides(s: Scan)
    requires TotalTells(s) && s.op != NoOp
    ensures TotalRight(s) <==> NilDrift(s)
  {
    WrapSame(Done(s.job, s.log) + Queued(s.todo), Drift(s.job, s.log));
  }

  /** While an operation runs the total differs from the bytes done and queued by exactly
      the recorded drift, modulo 2^64; it is right if and only if the drift is nil. */
  lemma TotalIsDoneAndQueued(op: Op, sel: seq<Tree>, setup: Setup, env: Env, es: seq<Event>)
    requires op != NoOp && sel != [] && Forest(sel)
    requires Runs(Start(op, sel, setup, env), es)
    requires After(Start(op, sel, setup, env), es).op != NoOp
    ensures var s := After(Start(op, sel, setup, env), es);
            TotalTells(s) && (TotalRight(s) <==> NilDrift(s))
  {
    TotalAlways(op, sel, setup, env, es);
    DriftDecides(After(Start(op, sel, setup, env), es));
  }

  lemma WrapSame(x: int, d: int)
    ensures Wrap(x + d) == Wrap(x) <==> Wrap(d) == 0
  {
    WrapAdd(x, d);
    WrapAdd(d, x);
  }

  lemma {:induction false} SelectedTotal(s: Scan, sel: seq<Tree>)
    requires s.total == Wrap(Queued(s.todo)) && forall t | t in sel :: WellFormed(t)
    ensures AddSelected(s, sel).total == Wrap(Queued(AddSelected(s, sel).todo))
    ensures AddSelected(s, sel).log == s.log
    decreases sel
  {
    if sel != [] {
      var it := Item([], sel[0]);
      assert sel[0] in sel;
      if !it.node.dir {
        QueuedAppend(s.todo, [it]);
        assert [it][1..] == [];
        WrapAdd(Queued(s.todo), it.node.size);
      } else if s.todo != [] && s.todo[0].node.dir {
        assert ([s.todo[0], it] + s.todo[1..])[1..] == [it] + s.todo[1..];
        assert ([it] + s.todo[1..])[1..] == s.todo[1..];
      } else {
        assert ([it] + s.todo)[1..] == s.todo;
      }
      SelectedTotal(Add(s, it), sel[1..]);
    }
  }

  /** The drift is nil as long as nothing is skipped or dropped but queued files, and
      directories are skipped only when they carry no size. */
  predicate Harmless(job: Op, a: Action) {
    && (a.TooLong? ==> Bytes(a.it) == 0)
    && (a.DeleteReply? ==> a.ok || !Deletes(job) || Bytes(a.it) == 0)
    && (a.Pressed? && a.b == SkipButton && (a.late || a.it.node.dir) ==> a.it.node.size == 0)
  }

  lemma {:induction false} NoDrift(job: Op, log: seq<Action>)
    requires forall a | a in log :: Harmless(job, a)
    ensures Drift(job, log) == 0
  {
    if log != [] {
      assert log[|log| - 1] in log && forall a | a in log[..|log| - 1] :: a in log;
      NoDrift(job, log[..|log| - 1]);
    }
  }

  // --- A drift ------------------------------------------------------------------------

  const LONG := Tree("aa", false, 1, [])
  const SHORT := Tree("b", false, 1, [])
  const NARROW := Setup(5, map[], Paths("C:\\", "D:\\"))

  lemma Loaded(a: Item, b: Item) returns (s: Scan)
    requires a == Item([], LONG) && b == Item([], SHORT)
    ensures s == Load(LRCopy, [LONG, SHORT], NARROW)
    ensures s == Fresh(LRCopy, NARROW).(todo := [a, b], total := 2)
  {
    var s0 := Fresh(LRCopy, NARROW);
    var s1 := Add(s0, a);
    assert s1 == s0.(todo := [a], total := 1);
    s := Add(s1, b);
    assert [a] + [b] == [a, b];
    assert s == s0.(todo := [a, b], total := 2);
    assert [LONG, SHORT][1..] == [SHORT] && [SHORT][1..] == [];
    assert AddSelected(s1, [SHORT]) == AddSelected(s, []);
  }

  lemma Uploading(a: Item, b: Item) returns (s: Scan)
    requires a == Item([], LONG) && b == Item([], SHORT)
    ensures s == Start(LRCopy, [LONG, SHORT], NARROW, Fine()) && Forest([LONG, SHORT])
    ensures s.op == LRCopy && s.job == LRCopy && s.total == 2
    ensures s.todo == [b] && s.pending == [AwaitSend(b)] && s.log == [] + [TooLong(a)] + [Send(b, false)]
  {
    assert WellFormed(LONG) && WellFormed(SHORT);
    assert a.At() == ["aa"] && PathLen(a.At()) == 2;
    var s0 := Loaded(a, b);
    s := FirstDropped(s0, a, b);
  }

  /** An upload of two files of one byte, of which the first has a name that does not fit: the
      second is on its way, and the total still counts two bytes. */
  lemma TooLongNameDrifts()
    ensures
      var s := Start(LRCopy, [LONG, SHORT], NARROW, Fine());
      && Forest([LONG, SHORT]) && s.op == LRCopy && s.pending == [AwaitSend(Item([], SHORT))]
      && s.total == 2 && Queued(s.todo) == 1 && Done(s.job, s.log) == 0 && !TotalRight(s)
  {
    var a, b := Item([], LONG), Item([], SHORT);
    var s := Uploading(a, b);
    NothingDone(a, b);
    assert [b][1..] == [];
  }

  /** The first file is dropped and the second one is sent. */
  lemma FirstDropped(s: Scan, a: Item, b: Item) returns (t: Scan)
    requires a == Item([], LONG) && b == Item([], SHORT) && a.At() == ["aa"] && PathLen(a.At()) == 2
    requires s == Fresh(LRCopy, NARROW).(todo := [a, b], total := 2)
    ensures t == NextStep(s, Fine()) && t.op == LRCopy && t.job == LRCopy && t.total == 2
    ensures t.todo == [b] && t.pending == [AwaitSend(b)] && t.log == [] + [TooLong(a)] + [Send(b, false)]
  {
    var s1 := Do(s, TooLong(a));
    assert s1.todo == [b];
    t := Do(s1, Send(b, false));
    SecondSent(s1, b);
    assert LocalRequest(s, Fine()) == (t, false);
  }

  lemma SecondSent(s: Scan, b: Item)
    requires s.op == LRCopy && s.todo == [b] && b == Item([], SHORT) && s.setup == NARROW
    ensures LocalRequest(s, Fine()) == (Do(s, Send(b, false)), false)
  {
    assert b.At() == ["b"] && PathLen(b.At()) == 1;
    assert CheckPanel(s, b) == Proceed(false);
  }

  lemma NothingDone(a: Item, b: Item)
    ensures Done(LRCopy, [] + [TooLong(a)] + [Send(b, false)]) == 0
  {
    LogSnoc(LRCopy, [], TooLong(a));
    LogSnoc(LRCopy, [] + [TooLong(a)], Send(b, false));
  }
}
