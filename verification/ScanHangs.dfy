/**
 When an operation hangs. The request functions return without having requested, posted or
 asked anything in exactly two places: when the search of a local directory fails, and when the
 request to delete an item of lsScanDel cannot be sent. Such a run is hung, and no other is.
*/
module ScanHangs {
  import opened Options
  import opened Trees
  import opened ScanSpec
  import opened ScanShape
  import opened ScanRuns
  import opened ScanConserve
  import opened ScanTermination

  // --- One step -----------------------------------------------------------------------

  /** The head of lsScan is taken off at once and the request loop goes on. */
  function Passing(s: Scan, env: Env): Option<Action> {
    if s.todo == [] then
      if Local(s.op) && s.del != [] && (s.del[0].node.dir || env.canDelete(s.del[0].At())) then
        Some(LocalDelete(s.del[0]))
      else None
    else
      var it := s.todo[0];
      if Local(s.op) then
        if PathLen(it.At()) + 4 > s.setup.room then Some(TooLong(it))
        else if CheckPanel(s, it).PassIt? then Some(Pass(it))
        else if s.op == LDelete && !it.node.dir && env.canDelete(it.At()) then Some(LocalDelete(it))
        else None
      else if !it.node.dir && s.op != RDelete && !s.flags.over && s.flags.noOver && env.isFile(it.At()) then
        Some(Pass(it))
      else None
  }

  /** The scan data where the request loop stops: names that are too long are dropped, files
      passed over and local files deleted until something else is to be done. */
  function Sifted(s: Scan, env: Env): Scan
    decreases |s.todo|, |s.del|
  {
    var a := Passing(s, env);
    if a.Some? then Sifted(Do(s, a.value), env) else s
  }

  /** The loop stops at a local directory that cannot be searched, or at a deletion that cannot
      be requested. */
  predicate Starved(s: Scan, env: Env) {
    var t := Sifted(s, env);
    if t.todo != [] then
      Local(t.op) && t.todo[0].node.dir && CheckPanel(t, t.todo[0]).Proceed? && !env.findOk
    else !Local(t.op) && t.del != [] && !env.sendOk
  }

  lemma {:induction false} SendStalls(s: Scan, env: Env)
    requires !Local(s.op) && !StallLast(s.log)
    ensures var (t, end) := SendRequest(s, env); StallLast(t.log) <==> Starved(s, env)
    ensures Starved(s, env) ==> !SendRequest(s, env).1
    decreases |s.todo|
  {
    var a := Passing(s, env);
    if a.Some? { SendStalls(Do(s, a.value), env); }
  }

  lemma {:induction false} ListingLast(s: Scan, env: Env)
    requires s.todo != [] && s.todo[0].node.dir
    ensures !StallLast(ListLocal(s, env).log)
    decreases |s.todo[0].node.kids| - s.given
  {
    var head := s.todo[0];
    if s.given < |head.node.kids| { ListingLast(Do(s, NextListed(s, env)), env); }
  }

  lemma {:induction false} DeleteStalls(s: Scan, env: Env)
    requires Local(s.op) && s.todo == [] && !StallLast(s.log)
    ensures !StallLast(DeleteLocal(s, env).0.log) && !Starved(s, env)
    decreases |s.del|
  {
    var a := Passing(s, env);
    if a.Some? { DeleteStalls(Do(s, a.value), env); }
  }

  lemma {:induction false} LocalStalls(s: Scan, env: Env)
    requires Local(s.op) && !StallLast(s.log)
    ensures var (t, end) := LocalRequest(s, env); StallLast(t.log) <==> Starved(s, env)
    ensures Starved(s, env) ==> !LocalRequest(s, env).1
    decreases |s.todo|
  {
    if s.todo == [] {
      DeleteStalls(s, env);
    } else {
      var a := Passing(s, env);
      if a.Some? {
        LocalStalls(Do(s, a.value), env);
      } else if s.todo[0].node.dir {
        ListingLast(s.(given := 0), env);
      }
    }
  }

  /** A step ends without anything outstanding, and without ending the operation, exactly when
      the loop is starved. */
  lemma StepStalls(s: Scan, env: Env)
    requires !StallLast(s.log)
    ensures StallLast(NextStep(s, env).log) <==> !s.cancel && Starved(s, env)
  {
    if Local(s.op) { LocalStalls(s, env); } else { SendStalls(s, env); }
  }

  /** A stalled operation is not over. */
  ghost predicate StalledGoesOn(s: Scan) { StallLast(s.log) ==> Idle(s) }

  lemma StalledClosed()
    ensures Closed(StalledGoesOn)
  {
    forall s: Scan, a: Action | Shape(s) && StalledGoesOn(s) && Can(s, a)
      ensures StalledGoesOn(Do(s, a))
    {
      Shifts(s, a);
      if a.Stall? { NextWait(s, a); }
    }
  }

  /** So a step leaves the operation without an end and with nothing to wait for exactly when
      it is not cancelled and the loop is starved. */
  lemma StepHangsExactly(s: Scan, env: Env)
    requires Shape(s) && Idle(s) && (s.cancel || Ready(s)) && !StallLast(s.log)
    ensures var t := NextStep(s, env); t.op != NoOp && t.pending == [] <==> !s.cancel && Starved(s, env)
  {
    StepStalls(s, env);
    NextSettles(s, env);
    StalledClosed();
    NextKeeps(StalledGoesOn, s, env);
  }

  // --- One event ----------------------------------------------------------------------

  /** The scan data from which the event takes the next step, if it does. */
  function Onward(s: Scan, e: Event): Option<Scan> {
    match e
    case EndOfListEvent(it, env) =>
      if s.op == RDelete || env.mkDirOk then Some(Do(Take(s, AwaitList(it)), DirDone(it))) else None
    case LocalEndEvent(it, env) =>
      if s.op == LDelete then Some(Do(Take(s, AwaitLocalEnd(it)), DirDone(it))) else None
    case EofEvent(p, env) => Some(Do(Take(s, p), Eof(p.it)))
    case ChunkEvent(p, env) => if s.cancel then Some(Do(Take(s, p), Abort(p.it))) else None
    case DeleteEvent(it, ok, env) =>
      if ok then Some(Do(Take(s, AwaitDelete(it)), DeleteReply(it, ok))) else None
    case MkDirEvent(it, ok, env) => Some(Do(Take(s, AwaitMkDir(it)), MkDirReply(it, ok)))
    case ButtonEvent(box, it, b, env) =>
      Some(Do(Take(s, AwaitButton(box, it)), Pressed(box, it, b, s.todo == [])))
    case _ => None
  }

  /** The step that the event takes is starved. */
  predicate StarvesIn(s: Scan, e: Event) {
    Onward(s, e).Some? && !Onward(s, e).value.cancel && Starved(Onward(s, e).value, EnvOf(e).value)
  }

  lemma OnwardStep(s: Scan, e: Event)
    requires Shape(s) && Enabled(s, e) && Onward(s, e).Some?
    ensures Step(s, e) == NextStep(Onward(s, e).value, EnvOf(e).value)
    ensures !StallLast(Onward(s, e).value.log)
  {
    TakeShape(s, Answers(e).value);
  }

  lemma NoStep(s: Scan, e: Event)
    requires Shape(s) && Enabled(s, e) && Answers(e).Some? && Onward(s, e).None? && !StallLast(s.log)
    ensures !StallLast(Step(s, e).log)
  {
    TakeShape(s, Answers(e).value);
  }

  /** An event hangs the operation exactly when its step is starved. */
  lemma EventStalls(s: Scan, e: Event)
    requires Shape(s) && StallIdle(s) && Enabled(s, e)
    ensures StallLast(Step(s, e).log) <==> StallLast(s.log) || StarvesIn(s, e)
  {
    if Answers(e).Some? {
      TakeShape(s, Answers(e).value);
      if Onward(s, e).Some? {
        OnwardStep(s, e);
        StepStalls(Onward(s, e).value, EnvOf(e).value);
      } else {
        NoStep(s, e);
      }
    }
  }

  // --- Whole runs ---------------------------------------------------------------------

  /** The step of some event is starved. */
  ghost predicate Starves(s: Scan, es: seq<Event>)
    decreases es
  {
    es != [] && (StarvesIn(s, es[0]) || Starves(Step(s, es[0]), es[1..]))
  }

  lemma {:induction false} RunStalls(s: Scan, es: seq<Event>)
    requires Shape(s) && StallIdle(s) && Runs(s, es)
    ensures StallLast(After(s, es).log) <==> StallLast(s.log) || Starves(s, es)
    decreases es
  {
    if es != [] {
      EventStalls(s, es[0]);
      StallIdleClosed();
      StepKeeps(StallIdle, s, es[0]);
      RunStalls(Step(s, es[0]), es[1..]);
    }
  }

  /** A stalled operation is hung. */
  lemma StalledIsHung(op: Op, sel: seq<Tree>, setup: Setup, env: Env, es: seq<Event>)
    requires op != NoOp && sel != [] && Forest(sel)
    requires Runs(Start(op, sel, setup, env), es)
    ensures var s := After(Start(op, sel, setup, env), es); Hung(s) <==> StallLast(s.log)
  {
    StalledClosed();
    SelectionRest(Fresh(op, setup), sel);
    Always(StalledGoesOn, op, sel, setup, env, es);
  }

  /** A run is hung if and only if the step of the start or of one of its events is starved:
      it came to a local directory whose search failed, or to a deletion from lsScanDel that
      could not be requested. */
  lemma HangsExactly(op: Op, sel: seq<Tree>, setup: Setup, env: Env, es: seq<Event>)
    requires op != NoOp && sel != [] && Forest(sel)
    requires Runs(Start(op, sel, setup, env), es)
    ensures Hung(After(Start(op, sel, setup, env), es)) <==>
            Starved(Load(op, sel, setup), env) || Starves(Start(op, sel, setup, env), es)
  {
    SelectionRest(Fresh(op, setup), sel);
    LoadSome(op, sel, setup);
    StepStalls(Load(op, sel, setup), env);
    HungIdle(op, sel, setup, env, []);
    StallIdleClosed();
    Always(StallIdle, op, sel, setup, env, []);
    RunStalls(Start(op, sel, setup, env), es);
    StalledIsHung(op, sel, setup, env, es);
  }

  /** Directory searches and sends succeed. */
  ghost predicate AllWork(env: Env, es: seq<Event>) {
    Works(env) && forall e | e in es && EnvOf(e).Some? :: Works(EnvOf(e).value)
  }

  lemma {:induction false} WorkingNeverStarves(s: Scan, es: seq<Event>)
    requires forall e | e in es && EnvOf(e).Some? :: Works(EnvOf(e).value)
    ensures !Starves(s, es)
    decreases es
  {
    if es != [] {
      assert es[0] in es;
      WorkingNeverStarves(Step(s, es[0]), es[1..]);
    }
  }

  /** When directory searches and sends succeed, no run ever hangs: it is over, with both lists
      empty, or waits for an answer that can come and counts. So a run that no counted event can
      continue is over, and by RunsAreBounded every run gets there. */
  lemma WorkingRunsEnd(op: Op, sel: seq<Tree>, setup: Setup, env: Env, es: seq<Event>)
    requires op != NoOp && sel != [] && Forest(sel) && AllWork(env, es)
    requires Runs(Start(op, sel, setup, env), es)
    ensures var s := After(Start(op, sel, setup, env), es);
            if exists e: Event :: Enabled(s, e) && Counts(s, e) then s.op == op && |s.pending| == 1
            else s.op == NoOp && s.todo == [] && s.del == [] && s.pending == []
  {
    HangsExactly(op, sel, setup, env, es);
    WorkingNeverStarves(Start(op, sel, setup, env), es);
    OneThingAtATime(op, sel, setup, env, es);
    RecordedClosed(0);
    Always(s => Recorded(s, 0), op, sel, setup, env, es);
    var s := After(Start(op, sel, setup, env), es);
    if s.pending != [] {
      var e := Answerable(s);
    }
  }

  // --- Both failures happen -----------------------------------------------------------

  const DIR := Tree("d", true, 0, [])
  const D := Item([], DIR)
  const SETUP := Setup(250, map[], Paths("C:\\", "D:\\"))

  lemma OneDirectory(op: Op)
    ensures Forest([DIR]) && D.At() == ["d"] && PathLen(D.At()) == 1
    ensures Load(op, [DIR], SETUP) == Fresh(op, SETUP).(todo := [D])
  {
    assert WellFormed(DIR);
    assert AddSelected(Fresh(op, SETUP), [DIR]) == Add(Fresh(op, SETUP), D);
  }

  /** Deleting a local directory that cannot be searched hangs at once. */
  lemma FailedSearchHangs()
    ensures Forest([DIR]) && Hung(Start(LDelete, [DIR], SETUP, Fine().(findOk := false)))
  {
    OneDirectory(LDelete);
  }

  /** Deleting an empty remote directory hangs when the connection fails after the listing. */
  lemma FailedDeleteHangs()
    ensures var s := Start(RDelete, [DIR], SETUP, Fine());
            var es := [EndOfListEvent(D, Fine().(sendOk := false))];
            Forest([DIR]) && Runs(s, es) && Hung(After(s, es))
  {
    OneDirectory(RDelete);
    var e := EndOfListEvent(D, Fine().(sendOk := false));
    var s := Do(Load(RDelete, [DIR], SETUP), List(D));
    assert Start(RDelete, [DIR], SETUP, Fine()) == s;
    var t := Do(Take(s, AwaitList(D)), DirDone(D));
    assert t.todo == [] && t.del == [D] && !t.cancel;
    assert Step(s, e) == Do(t, Stall);
    assert [e][1..] == [];
  }
}
