/**
 Operations end: a bound on the events of any run, and the absence of dead states but for one.
 ScanHangs says exactly when that one is reached, and ComposeHangs how an operation can also be
 kept waiting for a transfer that is gone.
*/
module ScanTermination {
  import opened Options
  import opened Trees
  import opened ScanSpec
  import opened ScanShape
  import opened ScanRuns
  import opened ScanConserve
  import opened ScanDeletes
  import opened ScanProgress

  /** All events but clicks on Cancel, chunks that change nothing and the entries "." and "..". */
  predicate Counts(s: Scan, e: Event) {
    !e.CancelEvent? && !(e.ChunkEvent? && !s.cancel) && !DotEntry(e)
  }

  ghost function Steps(s: Scan, es: seq<Event>): nat
    decreases es
  {
    if es == [] then 0 else (if Counts(s, es[0]) then 1 else 0) + Steps(Step(s, es[0]), es[1..])
  }

  // --- Every counted event records something ----------------------------------------

  ghost predicate Recorded(s: Scan, n: nat) { |s.log| >= n }

  lemma RecordedClosed(n: nat)
    ensures Closed(s => Recorded(s, n))
  {
    forall s: Scan, a: Action | Shape(s) && Recorded(s, n) && Can(s, a)
      ensures Recorded(Do(s, a), n)
    {
      Shifts(s, a);
    }
  }

  lemma NextRecords(s: Scan, env: Env)
    requires Shape(s) && Idle(s) && (s.cancel || Ready(s))
    ensures |NextStep(s, env).log| >= |s.log|
  {
    var n := |s.log|;
    RecordedClosed(n);
    NextKeeps(s => Recorded(s, n), s, env);
  }

  lemma FirstThenNext(t: Scan, a: Action, env: Env)
    requires Shape(t) && Can(t, a) && Idle(Do(t, a)) && (Do(t, a).cancel || Ready(Do(t, a)))
    ensures |NextStep(Do(t, a), env).log| > |t.log|
  {
    ShapeKept(t, a);
    Shifts(t, a);
    NextRecords(Do(t, a), env);
  }

  lemma EndOfListRecords(t: Scan, it: Item, env: Env)
    requires Shape(t) && Told(t, AwaitList(it)) && t.given == |it.node.kids|
    ensures |EndOfList(t, env).log| > |t.log|
  {
    if t.op == RDelete || env.mkDirOk { FirstThenNext(t, DirDone(it), env); }
  }

  lemma LocalEndRecords(t: Scan, it: Item, env: Env)
    requires Shape(t) && Told(t, AwaitLocalEnd(it))
    ensures |EndOfLocalList(t, env).log| > |t.log|
  {
    if t.op == LDelete { FirstThenNext(t, DirDone(it), env); }
  }

  lemma DeleteRecords(t: Scan, it: Item, ok: bool, env: Env)
    requires Shape(t) && Told(t, AwaitDelete(it))
    ensures |DeleteResult(t, it, ok, env).log| > |t.log|
  {
    if ok { FirstThenNext(t, DeleteReply(it, ok), env); }
  }

  lemma TransferRecords(t: Scan, p: Pending, env: Env)
    requires Shape(t) && Told(t, p) && Transfer(p)
    ensures |EndOfFile(t, env).log| > |t.log| && |TransferFailed(t).log| > |t.log|
    ensures t.cancel ==> |FileChunk(t, p.it, env).log| > |t.log|
  {
    FirstThenNext(t, Eof(p.it), env);
    if t.cancel { FirstThenNext(t, Abort(p.it), env); }
  }

  lemma DismissRecords(t: Scan, box: Box, it: Item, b: Button, env: Env)
    requires Shape(t) && Told(t, AwaitButton(box, it)) && Offers(box, b)
    ensures |MsgBoxDismiss(t, box, it, b, env).log| > |t.log|
  {
    FirstThenNext(t, Pressed(box, it, b, t.todo == []), env);
  }

  lemma MkDirRecords(t: Scan, it: Item, ok: bool, env: Env)
    requires Shape(t) && Told(t, AwaitMkDir(it))
    ensures |MkDirResult(t, it, ok, env).log| > |t.log|
  {
    FirstThenNext(t, MkDirReply(it, ok), env);
  }

  lemma EntryRecords(s: Scan, it: Item, node: Tree)
    requires Shape(s) && Enabled(s, EntryEvent(it, node))
    ensures |FindData(s, node).log| == |s.log| + if node.name in {".", ".."} then 0 else 1
  {
    TakeShape(s, AwaitList(it));
    if node.name in {".", ".."} && s.given < |it.node.kids| { assert it in s.todo; }
  }

  lemma StepRecords(s: Scan, e: Event)
    requires Shape(s) && Enabled(s, e)
    ensures |Step(s, e).log| >= |s.log| + if Counts(s, e) then 1 else 0
  {
    if Answers(e).Some? { TakeShape(s, Answers(e).value); }
    match e
    case EntryEvent(it, node) => EntryRecords(s, it, node);
    case EndOfListEvent(it, env) => EndOfListRecords(Take(s, AwaitList(it)), it, env);
    case LocalEndEvent(it, env) => LocalEndRecords(Take(s, AwaitLocalEnd(it)), it, env);
    case EofEvent(p, env) => TransferRecords(Take(s, p), p, env);
    case FailEvent(p) => TransferRecords(Take(s, p), p, Fine());
    case ChunkEvent(p, env) => TransferRecords(Take(s, p), p, env);
    case DeleteEvent(it, ok, env) => DeleteRecords(Take(s, AwaitDelete(it)), it, ok, env);
    case MkDirEvent(it, ok, env) => MkDirRecords(Take(s, AwaitMkDir(it)), it, ok, env);
    case ButtonEvent(box, it, b, env) => DismissRecords(Take(s, AwaitButton(box, it)), box, it, b, env);
    case CancelEvent =>
  }

  lemma {:induction false} StepsRecorded(s: Scan, es: seq<Event>)
    requires Shape(s) && Runs(s, es)
    ensures |After(s, es).log| >= |s.log| + Steps(s, es)
    decreases es
  {
    if es != [] {
      StepRecords(s, es[0]);
      RecordedClosed(0);
      StepKeeps(s => Recorded(s, 0), s, es[0]);
      StepsRecorded(Step(s, es[0]), es[1..]);
    }
  }

  // --- The bound --------------------------------------------------------------------

  /** Work for a selection. */
  ghost function Size(sel: seq<Tree>): nat {
    if sel == [] then 0 else Weight(sel[0]) + Size(sel[1..])
  }

  lemma {:induction false} InsertedWeight(todo: seq<Item>, at: nat, it: Item)
    requires at <= |todo|
    ensures ItemsWeight(todo[..at] + [it] + todo[at..]) == ItemsWeight(todo) + Weight(it.node)
    decreases at
  {
    var next := todo[..at] + [it] + todo[at..];
    if at == 0 {
      assert next[0] == it && next[1..] == todo;
    } else {
      var rest := todo[1..];
      assert next[0] == todo[0] && next[1..] == rest[..at - 1] + [it] + rest[at - 1..];
      InsertedWeight(rest, at - 1, it);
    }
  }

  lemma {:induction false} SelectionWeight(s: Scan, sel: seq<Tree>)
    requires forall t | t in sel :: WellFormed(t)
    ensures ItemsWeight(AddSelected(s, sel).todo) == ItemsWeight(s.todo) + Size(sel)
    decreases sel
  {
    if sel != [] {
      var it := Item([], sel[0]);
      var at := if !it.node.dir then |s.todo| else if s.todo != [] && s.todo[0].node.dir then 1 else 0;
      assert sel[0] in sel;
      assert Add(s, it).todo == s.todo[..at] + [it] + s.todo[at..];
      InsertedWeight(s.todo, at, it);
      SelectionWeight(Add(s, it), sel[1..]);
    }
  }

  lemma LoadedMeasure(op: Op, sel: seq<Tree>, setup: Setup)
    requires op != NoOp && sel != [] && Forest(sel)
    ensures Bounded(Load(op, sel, setup), 8 * Size(sel) + 8)
  {
    var s := Load(op, sel, setup);
    SelectionWeight(Fresh(op, setup), sel);
    SelectionRest(Fresh(op, setup), sel);
    LoadSome(op, sel, setup);
    FreshWeight(s.todo[0]);
  }

  /** No run of an operation is longer than a bound fixed by the selection alone: each
      answer, listed entry and button uses up work. */
  lemma RunsAreBounded(op: Op, sel: seq<Tree>, setup: Setup, env: Env, es: seq<Event>)
    requires op != NoOp && sel != [] && Forest(sel)
    requires Runs(Start(op, sel, setup, env), es)
    ensures Steps(Start(op, sel, setup, env), es) <= 8 * Size(sel) + 8
    ensures |After(Start(op, sel, setup, env), es).log| <= 8 * Size(sel) + 8
  {
    var n := 8 * Size(sel) + 8;
    BoundedClosed(n);
    LoadedMeasure(op, sel, setup);
    Always(s => Bounded(s, n), op, sel, setup, env, es);
    Always(s => Bounded(s, n), op, sel, setup, env, []);
    StepsRecorded(Start(op, sel, setup, env), es);
  }

  // --- No dead ends -----------------------------------------------------------------

  predicate StallLast(log: seq<Action>) { log != [] && log[|log| - 1].Stall? }

  /** Over, waiting for something, or hung. */
  predicate AtRest(s: Scan) { s.op == NoOp || s.pending != [] || StallLast(s.log) }

  predicate Hung(s: Scan) { Idle(s) && StallLast(s.log) }

  predicate Works(env: Env) { env.sendOk && env.findOk }

  predicate Leaves(t: Scan, env: Env) { t.pending != [] || (StallLast(t.log) && !Works(env)) }

  lemma {:induction false} SendSettles(s: Scan, env: Env)
    ensures var (t, end) := SendRequest(s, env); end || Leaves(t, env)
    decreases |s.todo|
  {
    if s.todo != [] {
      var it := s.todo[0];
      if !it.node.dir && s.op != RDelete && !s.flags.over && env.isFile(it.At()) && s.flags.noOver {
        SendSettles(Do(s, Pass(it)), env);
      }
    }
  }

  lemma {:induction false} ListSettles(s: Scan, env: Env)
    requires s.todo != [] && s.todo[0].node.dir
    ensures ListLocal(s, env).pending != []
    decreases |s.todo[0].node.kids| - s.given
  {
    var head := s.todo[0];
    if s.given < |head.node.kids| { ListSettles(Do(s, NextListed(s, env)), env); }
  }

  lemma {:induction false} DeleteSettles(s: Scan, env: Env)
    requires s.todo == []
    ensures var (t, end) := DeleteLocal(s, env); end || Leaves(t, env)
    decreases |s.del|
  {
    if s.del != [] { DeleteSettles(Do(s, LocalDelete(s.del[0])), env); }
  }

  lemma {:induction false} LocalSettles(s: Scan, env: Env)
    ensures var (t, end) := LocalRequest(s, env); end || Leaves(t, env)
    decreases |s.todo|, 1
  {
    if s.todo == [] {
      DeleteSettles(s, env);
    } else if PathLen(s.todo[0].At()) + 4 > s.setup.room {
      LocalSettles(Do(s, TooLong(s.todo[0])), env);
    } else {
      HeadSettles(s, env);
    }
  }

  lemma {:induction false} HeadSettles(s: Scan, env: Env)
    requires s.todo != [] && PathLen(s.todo[0].At()) + 4 <= s.setup.room
    ensures var (t, end) := LocalRequest(s, env); end || Leaves(t, env)
    decreases |s.todo|, 0, 1
  {
    match CheckPanel(s, s.todo[0])
    case PassIt => LocalSettles(Do(s, Pass(s.todo[0])), env);
    case AskIt(box) => Asks(s, box, s.todo[0]);
    case Proceed(clash) => ProceedSettles(s, env, clash);
  }

  lemma Asks(s: Scan, box: Box, it: Item)
    ensures Do(s, Ask(box, it)).pending != []
  {
  }

  lemma {:induction false} ProceedSettles(s: Scan, env: Env, clash: bool)
    requires s.todo != [] && PathLen(s.todo[0].At()) + 4 <= s.setup.room
    requires CheckPanel(s, s.todo[0]) == Proceed(clash)
    ensures var (t, end) := LocalRequest(s, env); end || Leaves(t, env)
    decreases |s.todo|, 0, 0
  {
    var it := s.todo[0];
    if it.node.dir {
      ListSettles(s.(given := 0), env);
    } else if s.op == LDelete {
      if env.canDelete(it.At()) { LocalSettles(Do(s, LocalDelete(it)), env); } else { Asks(s, Failure, it); }
    }
  }

  lemma NextSettles(s: Scan, env: Env)
    ensures var t := NextStep(s, env); t.op == NoOp || Leaves(t, env)
  {
    if Local(s.op) { LocalSettles(s, env); } else { SendSettles(s, env); }
    var (t, end) := if Local(s.op) then LocalRequest(s, env) else SendRequest(s, env);
    assert end ==> End(t).op == NoOp;
  }

  lemma EndOfListSettles(t: Scan, it: Item, env: Env)
    requires Shape(t) && Told(t, AwaitList(it))
    ensures AtRest(EndOfList(t, env))
  {
    NextSettles(Do(t, DirDone(it)), env);
  }

  lemma LocalEndSettles(t: Scan, it: Item, env: Env)
    requires Shape(t) && Told(t, AwaitLocalEnd(it))
    ensures AtRest(EndOfLocalList(t, env))
  {
    NextSettles(Do(t, DirDone(it)), env);
  }

  lemma DeleteResultSettles(t: Scan, it: Item, ok: bool, env: Env)
    requires Shape(t) && Told(t, AwaitDelete(it))
    ensures AtRest(DeleteResult(t, it, ok, env))
  {
    NextSettles(Do(t, DeleteReply(it, ok)), env);
  }

  /** After every event the operation is over, waits for exactly one thing, or hangs. */
  lemma StepSettles(s: Scan, e: Event)
    requires Shape(s) && AtRest(s) && Enabled(s, e)
    ensures AtRest(Step(s, e))
  {
    if Answers(e).Some? { TakeShape(s, Answers(e).value); }
    match e
    case EntryEvent(it, node) =>
    case EofEvent(p, env) => NextSettles(Do(Take(s, p), Eof(p.it)), env);
    case ChunkEvent(p, env) => NextSettles(Do(Take(s, p), Abort(p.it)), env);
    case MkDirEvent(it, ok, env) => NextSettles(Do(Take(s, AwaitMkDir(it)), MkDirReply(it, ok)), env);
    case ButtonEvent(box, it, b, env) =>
      var t := Take(s, AwaitButton(box, it));
      NextSettles(Do(t, Pressed(box, it, b, t.todo == [])), env);
    case EndOfListEvent(it, env) => EndOfListSettles(Take(s, AwaitList(it)), it, env);
    case LocalEndEvent(it, env) => LocalEndSettles(Take(s, AwaitLocalEnd(it)), it, env);
    case DeleteEvent(it, ok, env) => DeleteResultSettles(Take(s, AwaitDelete(it)), it, ok, env);
    case FailEvent(p) =>
    case CancelEvent =>
  }

  lemma {:induction false} RunSettles(s: Scan, es: seq<Event>)
    requires Shape(s) && AtRest(s) && Runs(s, es)
    ensures Shape(After(s, es)) && AtRest(After(s, es))
    decreases es
  {
    if es != [] {
      StepSettles(s, es[0]);
      RecordedClosed(0);
      StepKeeps(s => Recorded(s, 0), s, es[0]);
      RunSettles(Step(s, es[0]), es[1..]);
    }
  }

  /** Exactly one of: idle with empty lists; one thing outstanding, whose answer concerns the
      item the engine takes next; hung after a failed directory search or delete request. */
  lemma OneThingAtATime(op: Op, sel: seq<Tree>, setup: Setup, env: Env, es: seq<Event>)
    requires op != NoOp && sel != [] && Forest(sel)
    requires Runs(Start(op, sel, setup, env), es)
    ensures var s := After(Start(op, sel, setup, env), es);
            && DirsFirst(s.todo)
            && (|| (s.op == NoOp && s.todo == [] && s.del == [] && s.pending == [])
                || (s.op == op && |s.pending| == 1 && Fits(s, s.pending[0]))
                || (s.op == op && Hung(s)))
  {
    RecordedClosed(0);
    Always(s => Recorded(s, 0), op, sel, setup, env, []);
    JobStays(op, sel, setup, env, es);
    LoadSome(op, sel, setup);
    NextSettles(Load(op, sel, setup), env);
    RunSettles(Start(op, sel, setup, env), es);
    HungIdle(op, sel, setup, env, es);
  }

  /** A stall leaves no message half handled. */
  ghost predicate StallIdle(s: Scan) { StallLast(s.log) ==> s.busy == None && s.pending == [] }

  lemma StallIdleClosed()
    ensures Closed(StallIdle)
  {
    forall s: Scan, a: Action | Shape(s) && StallIdle(s) && Can(s, a)
      ensures StallIdle(Do(s, a))
    {
      Shifts(s, a);
      if a.Stall? { NextWait(s, a); }
    }
  }

  lemma HungIdle(op: Op, sel: seq<Tree>, setup: Setup, env: Env, es: seq<Event>)
    requires op != NoOp && sel != [] && Forest(sel)
    requires Runs(Start(op, sel, setup, env), es)
    ensures StallIdle(After(Start(op, sel, setup, env), es))
  {
    StallIdleClosed();
    SelectionRest(Fresh(op, setup), sel);
    Always(StallIdle, op, sel, setup, env, es);
  }

  /** Whatever is outstanding can be answered, and the answer is a counted event. */
  lemma Answerable(s: Scan) returns (e: Event)
    requires Shape(s) && s.pending != []
    ensures Enabled(s, e) && Counts(s, e)
  {
    var env := Fine();
    match s.pending[0]
    case AwaitList(it) =>
      if s.given < |it.node.kids| {
        assert it in s.todo && it.node.kids[s.given] in it.node.kids;
        assert WellFormed(it.node.kids[s.given]);
        e := EntryEvent(it, it.node.kids[s.given]);
      } else {
        e := EndOfListEvent(it, env);
      }
    case AwaitLocalEnd(it) => e := LocalEndEvent(it, env);
    case AwaitRecv(it) => e := EofEvent(s.pending[0], env);
    case AwaitSend(it) => e := EofEvent(s.pending[0], env);
    case AwaitDelete(it) => e := DeleteEvent(it, true, env);
    case AwaitMkDir(it) => e := MkDirEvent(it, true, env);
    case AwaitButton(box, it) => e := ButtonEvent(box, it, CancelButton, env);
  }

  /** Nothing frees a hung operation: only Cancel can be clicked, and it changes nothing else. */
  lemma {:induction false} HungForever(s: Scan, es: seq<Event>)
    requires Hung(s) && Runs(s, es)
    ensures After(s, es) == s.(cancel := s.cancel || es != []) && Hung(After(s, es))
    decreases es
  {
    if es != [] {
      assert es[0].CancelEvent?;
      HungForever(Step(s, es[0]), es[1..]);
    }
  }

  /** The branches marked WTF on the kind or the presence of the head are never taken. */
  lemma NeverWtf(op: Op, sel: seq<Tree>, setup: Setup, env: Env, es: seq<Event>)
    requires op != NoOp && sel != [] && Forest(sel)
    requires Runs(Start(op, sel, setup, env), es)
    ensures Wtf !in After(Start(op, sel, setup, env), es).log
  {
    forall s: Scan, a: Action | Shape(s) && Wtf !in s.log && Can(s, a)
      ensures Wtf !in Do(s, a).log
    {
      Shifts(s, a);
    }
    SelectionRest(Fresh(op, setup), sel);
    Always((s: Scan) => Wtf !in s.log, op, sel, setup, env, es);
  }
}
