/**
 Every event of every run, exactly: the answer is recorded first, Cancel ends the operation, and
 otherwise the engine does the work that is due. What the buttons and Cancel come to, and that an
 operation leaves nothing behind for the next one.
*/
module ScanWork {
  import opened Options
  import opened Trees
  import opened ScanSpec
  import opened ScanShape
  import opened ScanRuns
  import opened ScanDeletes
  import opened ScanHistory
  import opened ScanOverwrite
  import opened ScanReasons
  import opened ScanDues
  import opened ScanHangs

  // --- One event ----------------------------------------------------------------------

  /** What is recorded of the answer itself; late says that lsScan was empty. */
  function Reply(op: Op, cancelled: bool, e: Event, late: bool): seq<Action> {
    match e
    case EntryEvent(it, node) => if DotEntry(e) then [] else [Queue(Item(it.At(), node))]
    case EndOfListEvent(it, env) => [if Downloads(op) && !env.mkDirOk then Ask(Fatal, it) else DirDone(it)]
    case LocalEndEvent(it, env) => [if Uploads(op) && !env.sendOk then Finish(true) else DirDone(it)]
    case EofEvent(p, _) => [Eof(p.it)]
    case FailEvent(p) => [Ask(Failure, p.it)]
    case ChunkEvent(p, _) => if cancelled then [Abort(p.it)] else []
    case DeleteEvent(it, ok, _) => [DeleteReply(it, ok)] + if ok then [] else [Ask(Fatal, it)]
    case MkDirEvent(it, ok, _) => [MkDirReply(it, ok)]
    case ButtonEvent(box, it, b, _) => [Pressed(box, it, b, late)]
    case CancelEvent => []
  }

  /** The engine takes the next step after the answer. */
  predicate TakesStep(op: Op, cancelled: bool, e: Event) {
    match e
    case EndOfListEvent(_, env) => !Downloads(op) || env.mkDirOk
    case LocalEndEvent(_, _) => !Uploads(op)
    case EofEvent(_, _) => true
    case ChunkEvent(_, _) => cancelled
    case DeleteEvent(_, ok, _) => ok
    case MkDirEvent(_, _, _) => true
    case ButtonEvent(_, _, _, _) => true
    case _ => false
  }

  /** The first update of an event that takes a step. */
  predicate Answering(s: Scan, e: Event, a: Action) {
    Answers(e).Some? && Reply(s.op, s.cancel, e, s.todo == []) == [a] && Onward(s, e) == Some(Do(Take(s, Answers(e).value), a))
  }

  lemma AnsweringIs(s: Scan, e: Event) returns (a: Action)
    requires Shape(s) && Enabled(s, e) && Onward(s, e).Some?
    ensures Answering(s, e, a) && TakesStep(s.op, s.cancel, e)
  {
    a := Reply(s.op, s.cancel, e, s.todo == [])[0];
    TakeShape(s, Answers(e).value);
  }

  /** The update is permitted, and the engine is ready for the next step after it. */
  ghost predicate Turns(t: Scan, a: Action) {
    Can(t, a) && Idle(Do(t, a)) && (Do(t, a).cancel || Ready(Do(t, a)))
  }

  lemma ListingTurns(t: Scan, it: Item)
    requires Shape(t) && t.given == |it.node.kids|
    requires Told(t, AwaitList(it)) || (Told(t, AwaitLocalEnd(it)) && !Uploads(t.op))
    ensures Turns(t, DirDone(it))
  {
  }

  lemma TransferTurns(t: Scan, p: Pending)
    requires Shape(t) && Told(t, p) && Transfer(p)
    ensures Turns(t, Eof(p.it)) && (t.cancel ==> Turns(t, Abort(p.it)))
  {
  }

  lemma ReplyTurns(t: Scan, it: Item)
    requires Shape(t)
    ensures Told(t, AwaitDelete(it)) ==> Turns(t, DeleteReply(it, true))
    ensures forall ok :: Told(t, AwaitMkDir(it)) ==> Turns(t, MkDirReply(it, ok))
  {
  }

  lemma AnswerTurns(s: Scan, e: Event, a: Action, t: Scan)
    requires Shape(s) && Enabled(s, e) && Answering(s, e, a) && t == Take(s, Answers(e).value)
    requires TakesStep(s.op, s.cancel, e) && Shape(t) && Told(t, Answers(e).value)
    ensures Turns(t, a)
  {
    match e
    case EndOfListEvent(it, _) => ListingTurns(t, it);
    case LocalEndEvent(it, _) => ListingTurns(t, it);
    case EofEvent(p, _) => TransferTurns(t, p);
    case ChunkEvent(p, _) => TransferTurns(t, p);
    case DeleteEvent(it, _, _) => ReplyTurns(t, it);
    case MkDirEvent(it, _, _) => ReplyTurns(t, it);
    case ButtonEvent(box, it, b, _) => PressedIdle(t, box, it, b);
  }

  lemma Answered(s: Scan, e: Event)
    requires Shape(s) && Worded(s) && Enabled(s, e) && Onward(s, e).Some?
    ensures TakesStep(s.op, s.cancel, e)
    ensures var u := Onward(s, e).value;
            && Shape(u) && Worded(u) && Idle(u) && (u.cancel || Ready(u))
            && u.log == s.log + Reply(s.op, s.cancel, e, s.todo == [])
            && u.job == s.job && u.setup == s.setup
            && (u.cancel <==> s.cancel || (e.ButtonEvent? && e.b == CancelButton))
  {
    var a := AnsweringIs(s, e);
    var t := Take(s, Answers(e).value);
    TakeShape(s, Answers(e).value);
    AnswerTurns(s, e, a, t);
    ShapeKept(t, a);
    Shifts(t, a);
    CancelAfter(t, a);
    WordedClosed();
    WordedAfter(t, a);
  }

  /** An event that takes no step records its answer and no more. */
  lemma NotOnward(s: Scan, e: Event)
    requires Shape(s) && Enabled(s, e) && Onward(s, e).None?
    ensures !TakesStep(s.op, s.cancel, e) && Step(s, e).log == s.log + Reply(s.op, s.cancel, e, s.todo == [])
  {
    if Answers(e).Some? { TakeShape(s, Answers(e).value); }
  }

  // --- Whole runs ---------------------------------------------------------------------

  predicate ClicksCancel(e: Event) { e.CancelEvent? || (e.ButtonEvent? && e.b == CancelButton) }

  /** The end of an operation that is cancelled, or the work that is due. */
  ghost function EndOrWork(op: Op, setup: Setup, cancelled: bool, env: Env, u: Scan): seq<Action> {
    if cancelled then [Finish(u.todo != [] || u.del != [])]
    else Work(op, setup, env, u.log, u.todo, u.del)
  }

  lemma WordedAlways(op: Op, sel: seq<Tree>, setup: Setup, env: Env, es: seq<Event>)
    requires op != NoOp && sel != [] && Forest(sel)
    requires Runs(Start(op, sel, setup, env), es)
    ensures var s := After(Start(op, sel, setup, env), es);
            Shape(s) && Worded(s) && s.job == op && s.setup == setup && (s.op != NoOp ==> s.op == op)
  {
    LoadedWorded(op, sel, setup);
    WordedClosed();
    Always(Worded, op, sel, setup, env, es);
    JobStays(op, sel, setup, env, es);
    SetupStays(op, sel, setup, env, es);
  }

  /** The first step of an operation does exactly what is due to the selection. */
  lemma StartDoesItsWork(op: Op, sel: seq<Tree>, setup: Setup, env: Env)
    requires op != NoOp && sel != [] && Forest(sel)
    ensures Start(op, sel, setup, env).log == Work(op, setup, env, [], Load(op, sel, setup).todo, [])
  {
    LoadedWorded(op, sel, setup);
    LoadSome(op, sel, setup);
    SelectedDel(Fresh(op, setup), sel);
    LoadedWorks(op, setup, env, Load(op, sel, setup));
  }

  lemma LoadedWorks(op: Op, setup: Setup, env: Env, s: Scan)
    requires Shape(s) && Worded(s) && Ready(s) && s.log == [] && s.del == [] && s.job == op && s.setup == setup
    ensures NextStep(s, env).log == Work(op, setup, env, [], s.todo, [])
  {
    StepDoesWork(s, env);
  }

  /** In every run an event records its answer and then, if it takes a step, ends a cancelled
      operation, and does exactly what is due in any other. */
  lemma EventsDoTheirWork(op: Op, sel: seq<Tree>, setup: Setup, env: Env, es: seq<Event>, e: Event)
    requires op != NoOp && sel != [] && Forest(sel)
    requires Runs(Start(op, sel, setup, env), es) && Enabled(After(Start(op, sel, setup, env), es), e)
    ensures var s := After(Start(op, sel, setup, env), es); var r := Reply(op, s.cancel, e, s.todo == []);
            if !TakesStep(op, s.cancel, e) then Step(s, e).log == s.log + r
            else
              && Onward(s, e).Some? && Onward(s, e).value.log == s.log + r && EnvOf(e).Some?
              && Step(s, e).log ==
                 s.log + r + EndOrWork(op, setup, s.cancel || ClicksCancel(e), EnvOf(e).value, Onward(s, e).value)
  {
    var s := After(Start(op, sel, setup, env), es);
    WordedAlways(op, sel, setup, env, es);
    ActiveOp(s, e);
    if Onward(s, e).Some? {
      Answered(s, e);
      EventWorks(s, e, Onward(s, e).value);
    } else {
      NotOnward(s, e);
    }
  }

  /** Something can happen only while an operation runs. */
  lemma ActiveOp(s: Scan, e: Event)
    requires Shape(s) && Enabled(s, e)
    ensures s.op != NoOp
  {
  }

  lemma EventWorks(s: Scan, e: Event, u: Scan)
    requires Shape(s) && Enabled(s, e) && Onward(s, e) == Some(u)
    requires Shape(u) && Worded(u) && Idle(u) && (u.cancel || Ready(u))
    ensures EnvOf(e).Some?
    ensures Step(s, e).log == u.log + EndOrWork(u.job, u.setup, u.cancel, EnvOf(e).value, u)
  {
    OnwardStep(s, e);
    if !u.cancel { StepDoesWork(u, EnvOf(e).value); }
  }

  // --- Cancel -------------------------------------------------------------------------

  /** The operation is marked as cancelled for these reasons only; c: Cancel was clicked in the
      progress window. */
  ghost predicate Marked(s: Scan, c: bool) {
    s.op != NoOp ==> (s.cancel <==> c || Any(s.log, SaysCancel))
  }

  lemma MarkedSteady(c: bool)
    ensures Steady(s => Marked(s, c))
  {
    forall s: Scan, a: Action | Shape(s) && Marked(s, c) && Can(s, a)
      ensures Marked(Do(s, a), c)
    {
      Shifts(s, a);
      FlagsAfter(s, a);
      CancelAfter(s, a);
      SomeSnoc(s.log, a, SaysCancel);
    }
  }

  lemma {:induction false} MarkedRun(s: Scan, c: bool, es: seq<Event>)
    requires Shape(s) && Marked(s, c) && Runs(s, es)
    ensures Marked(After(s, es), c || CancelEvent in es)
    decreases es
  {
    if es != [] {
      var e, d := es[0], c || es[0].CancelEvent?;
      if !e.CancelEvent? {
        MarkedSteady(c);
        StepKeepsSteady(t => Marked(t, c), s, e);
      }
      MarkedRun(Step(s, e), d, es[1..]);
    }
  }

  /** In every run an operation that goes on is marked as cancelled if and only if Cancel was
      clicked in the progress window or in a box. No other button, and nothing else, cancels it. */
  lemma CancelledExactly(op: Op, sel: seq<Tree>, setup: Setup, env: Env, es: seq<Event>)
    requires op != NoOp && sel != [] && Forest(sel)
    requires Runs(Start(op, sel, setup, env), es)
    ensures var s := After(Start(op, sel, setup, env), es);
            s.op != NoOp ==> (s.cancel <==> CancelEvent in es || Any(s.log, SaysCancel))
  {
    LoadedWorded(op, sel, setup);
    LoadSome(op, sel, setup);
    SelectedCancel(Fresh(op, setup), sel);
    MarkedSteady(false);
    NextKeeps(t => Marked(t, false), Load(op, sel, setup), env);
    MarkedRun(Start(op, sel, setup, env), false, es);
  }

  lemma {:induction false} SelectedCancel(s: Scan, sel: seq<Tree>)
    ensures AddSelected(s, sel).cancel == s.cancel && AddSelected(s, sel).log == s.log
    decreases sel
  {
    if sel != [] { SelectedCancel(Add(s, Item([], sel[0])), sel[1..]); }
  }

  // --- The end of an operation ----------------------------------------------------------

  /** Every request of the event could be sent. */
  predicate Sendable(e: Event) { EnvOf(e).Some? ==> EnvOf(e).value.sendOk }

  /** An early end has its reason in the log. */
  ghost predicate EndsInTime(log: seq<Action>) { Finish(true) in log ==> Any(log, SaysCancel) }

  lemma LogOnly(s: Scan, e: Event)
    requires Shape(s) && Enabled(s, e)
    ensures s.log <= Step(s, e).log
  {
    forall t: Scan, a: Action | Shape(t) && s.log <= t.log && Can(t, a)
      ensures s.log <= Do(t, a).log
    {
      Shifts(t, a);
    }
    StepKeeps((t: Scan) => s.log <= t.log, s, e);
  }

  lemma SaidBefore(log: seq<Action>, j: nat)
    requires j <= |log| && Any(log[..j], SaysCancel)
    ensures Any(log, SaysCancel)
  {
    var a :| a in log[..j] && SaysCancel(a);
    assert a in log;
  }

  /** What an event without calls adds to the log is no end of the operation. */
  lemma NoCallsNoEnd(s: Scan, e: Event)
    requires Shape(s) && Enabled(s, e) && EnvOf(e).None?
    ensures Step(s, e).log == s.log + Reply(s.op, s.cancel, e, s.todo == [])
  {
    NotOnward(s, e);
  }

  lemma EventInTime(s: Scan, e: Event)
    requires Shape(s) && Worded(s) && Enabled(s, e) && Sendable(e) && EndsInTime(s.log)
    requires s.cancel ==> Any(s.log, SaysCancel)
    ensures EndsInTime(Step(s, e).log)
  {
    var log := Step(s, e).log;
    LogOnly(s, e);
    if Any(s.log, SaysCancel) { SaidBefore(log, |s.log|); }
    if Finish(true) in log && Finish(true) !in s.log {
      var j :| 0 <= j < |log| && log[j] == Finish(true);
      assert forall k | 0 <= k < |s.log| :: log[k] == s.log[k];
      if EnvOf(e).Some? { EndSaid(s, e, EnvOf(e).value, j); } else { NoCallsNoEnd(s, e); }
    }
  }

  lemma EndSaid(s: Scan, e: Event, env: Env, j: nat)
    requires Shape(s) && Worded(s) && Enabled(s, e) && EnvOf(e) == Some(env) && env.sendOk
    requires s.cancel ==> Any(s.log, SaysCancel)
    requires s.log <= Step(s, e).log && |s.log| <= j < |Step(s, e).log| && Step(s, e).log[j] == Finish(true)
    ensures Any(Step(s, e).log, SaysCancel)
  {
    var log := Step(s, e).log;
    EventReasons(s, e, env);
    assert Justified(Step(s, e).job, Step(s, e).setup, s.cancel, env, log[..j], log[j]);
    if s.cancel { SaidBefore(log, |s.log|); } else { SaidBefore(log, j); }
  }

  lemma {:induction false} RunInTime(s: Scan, es: seq<Event>)
    requires Shape(s) && Worded(s) && Marked(s, false) && EndsInTime(s.log) && Runs(s, es)
    requires forall e | e in es :: Sendable(e) && !e.CancelEvent?
    ensures EndsInTime(After(s, es).log)
    decreases es
  {
    if es != [] {
      var e := es[0];
      assert e in es;
      ActiveOp(s, e);
      EventInTime(s, e);
      WordedClosed();
      StepKeeps(Worded, s, e);
      MarkedSteady(false);
      StepKeepsSteady(t => Marked(t, false), s, e);
      RunInTime(Step(s, e), es[1..]);
    }
  }

  /** An operation ends with something left queued only if it was cancelled, or something could
      not be sent. */
  lemma EndsEarlyOnlyIf(op: Op, sel: seq<Tree>, setup: Setup, env: Env, es: seq<Event>)
    requires op != NoOp && sel != [] && Forest(sel)
    requires Runs(Start(op, sel, setup, env), es) && Finish(true) in After(Start(op, sel, setup, env), es).log
    ensures CancelEvent in es || Any(After(Start(op, sel, setup, env), es).log, SaysCancel) ||
            !env.sendOk || exists e :: e in es && !Sendable(e)
  {
    if CancelEvent !in es && env.sendOk && forall e | e in es :: Sendable(e) {
      var s := Start(op, sel, setup, env);
      WordedAlways(op, sel, setup, env, []);
      LoadedWorded(op, sel, setup);
      SelectedCancel(Fresh(op, setup), sel);
      LoadSome(op, sel, setup);
      MarkedSteady(false);
      NextKeeps(t => Marked(t, false), Load(op, sel, setup), env);
      StartInTime(op, sel, setup, env);
      RunInTime(s, es);
    }
  }

  lemma StartInTime(op: Op, sel: seq<Tree>, setup: Setup, env: Env)
    requires op != NoOp && sel != [] && Forest(sel) && env.sendOk
    ensures EndsInTime(Start(op, sel, setup, env).log)
  {
    var log := Start(op, sel, setup, env).log;
    StartHasReasons(op, sel, setup, env);
    if Finish(true) in log {
      var j :| 0 <= j < |log| && log[j] == Finish(true);
      SaidBefore(log, j);
    }
  }

  /** When an operation is over its data are as before it, but for the history. */
  ghost predicate LeftClean(s: Scan) {
    s.op == NoOp ==> s == Fresh(NoOp, s.setup).(job := s.job, log := s.log)
  }

  /** An update happens only while an operation runs. */
  lemma CanActive(s: Scan, a: Action)
    requires Shape(s) && Can(s, a)
    ensures s.op != NoOp
  {
  }

  lemma CleanClosed()
    ensures Closed(LeftClean)
  {
    forall s: Scan, a: Action | Shape(s) && LeftClean(s) && Can(s, a)
      ensures LeftClean(Do(s, a))
    {
      CanActive(s, a);
      FlagsAfter(s, a);
      if a.Finish? { FinishCleans(s, a); }
    }
  }

  lemma FinishCleans(s: Scan, a: Action)
    requires Shape(s) && Can(s, a) && a.Finish?
    ensures LeftClean(Do(s, a))
  {
    assert s.pending == [];
  }

  lemma LeavesNothingBehind(op: Op, sel: seq<Tree>, setup: Setup, env: Env, es: seq<Event>)
    requires op != NoOp && sel != [] && Forest(sel)
    requires Runs(Start(op, sel, setup, env), es)
    ensures LeftClean(After(Start(op, sel, setup, env), es))
  {
    LoadedWorded(op, sel, setup);
    CleanClosed();
    Always(LeftClean, op, sel, setup, env, es);
  }

  // --- The overwrite box ----------------------------------------------------------------

  lemma WorkBegins(op: Op, setup: Setup, env: Env, log: seq<Action>, todo: seq<Item>, del: seq<Item>)
    ensures Dues(op, setup, env, log, todo, del) <= Work(op, setup, env, log, todo, del)
  {
  }

  /** What the answer in an overwrite box comes to. */
  ghost function Heeded(op: Op, setup: Setup, env: Env, it: Item, b: Button): Action {
    if b == NoneButton && FileInTheWay(op, setup, env, it) then Pass(it)
    else if env.sendOk then Transfers(op, it, FileInTheWay(op, setup, env, it))
    else Refusal(op, it)
  }

  lemma WordIsDue(s: Scan, it: Item, b: Button, env: Env)
    requires Shape(s) && Worded(s) && s.pending == [AwaitButton(Overwrite, it)] && s.busy == None
    requires b == OkButton || b == AllButton || b == NoneButton
    ensures s.todo != [] && s.todo[0] == it && !it.node.dir && !Deletes(s.job) && (Uploads(s.job) ==> Short(s.setup, it))
    ensures FileDue(s.job, s.setup, env, s.log + [Pressed(Overwrite, it, b, false)], it) == Heeded(s.job, s.setup, env, it, b)
  {
    var a := Pressed(Overwrite, it, b, false);
    assert Fits(s, s.pending[0]) && Now(s) == Some(s.pending[0]);
    SomeSnoc(s.log, a, SaysAll);
    SomeSnoc(s.log, a, SaysNone);
    assert (s.log + [a])[|s.log + [a]| - 1] == a;
  }

  lemma HeededFirst(s: Scan, it: Item, b: Button, env: Env, u: Scan)
    requires Shape(s) && Worded(s) && s.pending == [AwaitButton(Overwrite, it)] && s.busy == None
    requires b == OkButton || b == AllButton || b == NoneButton
    requires u.todo == s.todo && u.log == s.log + [Pressed(Overwrite, it, b, false)]
    ensures [Heeded(s.job, s.setup, env, it, b)] <= Work(s.job, s.setup, env, u.log, u.todo, u.del)
  {
    WordIsDue(s, it, b, env);
    WorkBegins(s.job, s.setup, env, u.log, u.todo, u.del);
  }

  lemma PressedOnward(s: Scan, it: Item, b: Button, env: Env)
    requires b == OkButton || b == AllButton || b == NoneButton
    ensures var u := Onward(s, ButtonEvent(Overwrite, it, b, env)).value; u.todo == s.todo
  {
  }

  /** In every run, when OK or ALL is pressed in an overwrite box the transfer of that very file is
      the next that happens, or refused if it cannot be sent; and when NONE is pressed the file is
      passed over, if it is still there. All that unless Cancel was clicked meanwhile. */
  lemma ButtonsAreHeeded(op: Op, sel: seq<Tree>, setup: Setup, env: Env, es: seq<Event>, it: Item, b: Button, calls: Env)
    requires op != NoOp && sel != [] && Forest(sel)
    requires Runs(Start(op, sel, setup, env), es)
    requires Enabled(After(Start(op, sel, setup, env), es), ButtonEvent(Overwrite, it, b, calls))
    requires !After(Start(op, sel, setup, env), es).cancel && (b == OkButton || b == AllButton || b == NoneButton)
    ensures var s := After(Start(op, sel, setup, env), es);
            s.log + [Pressed(Overwrite, it, b, false)] + [Heeded(op, setup, calls, it, b)]
            <= Step(s, ButtonEvent(Overwrite, it, b, calls)).log
  {
    var s, e := After(Start(op, sel, setup, env), es), ButtonEvent(Overwrite, it, b, calls);
    WordedAlways(op, sel, setup, env, es);
    TakeShape(s, AwaitButton(Overwrite, it));
    EventsDoTheirWork(op, sel, setup, env, es, e);
    WordIsDue(s, it, b, calls);
    PressedOnward(s, it, b, calls);
    HeededFirst(s, it, b, calls, Onward(s, e).value);
  }
}
