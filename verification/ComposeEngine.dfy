/**
 The scan engine obeys the rules of the composition: an event issues at most one transfer
 request, as its last update, and then waits for that transfer.
*/
module ComposeEngine {
  import opened Options
  import opened Trees
  import opened ScanSpec
  import opened ScanShape
  import opened Compose
  import ScanRuns

  // --- The request loops --------------------------------------------------------------

  /** No call at all so far. */
  ghost predicate Still(n: nat, s: Scan, done: Option<Item>) {
    && n <= |s.log| && s.pending == []
    && forall k | n <= k < |s.log| ::
         !s.log[k].Abort? && !Begins(s.log[k]) && (s.log[k].Eof? ==> done == Some(s.log[k].it))
  }

  lemma CalmDo(n: nat, done: Option<Item>, s: Scan, a: Action)
    requires Still(n, s, done) && !a.Abort? && !Begins(a) && (a.Eof? ==> done == Some(a.it))
    ensures Calm(n, Do(s, a), done)
    ensures Do(s, a).pending == [] ==> Still(n, Do(s, a), done)
  {
  }

  lemma CalmBegin(n: nat, done: Option<Item>, s: Scan, a: Action)
    requires Still(n, s, done) && Begins(a)
    ensures Calm(n, Do(s, a), done)
  {
    assert Do(s, a).pending == [AwaitOf(a)];
  }

  lemma {:induction false} SendCalm(n: nat, done: Option<Item>, s: Scan, env: Env)
    requires Still(n, s, done)
    ensures var (t, end) := SendRequest(s, env); Calm(n, t, done) && (end ==> Still(n, t, done))
    decreases |s.todo|, 1
  {
    if s.todo != [] {
      var it := s.todo[0];
      if it.node.dir {
        CalmDo(n, done, s, List(it));
      } else if s.op == RDelete {
        CalmDo(n, done, s, AskDelete(it));
      } else {
        ReceiveCalm(n, done, s, env);
      }
    } else if s.del != [] {
      CalmDo(n, done, s, AskDelete(s.del[0]));
      CalmDo(n, done, s, Stall);
    }
  }

  lemma {:induction false} ReceiveCalm(n: nat, done: Option<Item>, s: Scan, env: Env)
    requires Still(n, s, done) && s.op != RDelete && s.todo != [] && !s.todo[0].node.dir
    ensures var (t, end) := SendRequest(s, env); Calm(n, t, done) && (end ==> Still(n, t, done))
    decreases |s.todo|, 0
  {
    var it := s.todo[0];
    if !s.flags.over && env.isFile(it.At()) {
      if s.flags.noOver {
        CalmDo(n, done, s, Pass(it));
        SendCalm(n, done, Do(s, Pass(it)), env);
      } else {
        CalmDo(n, done, s, Ask(Overwrite, it));
      }
    } else {
      BeginsCalm(n, done, s, it, env.isFile(it.At()));
    }
  }

  /** A download is started or refused. */
  lemma BeginsCalm(n: nat, done: Option<Item>, s: Scan, it: Item, clash: bool)
    requires Still(n, s, done)
    ensures Calm(n, Do(s, Recv(it, clash)), done)
    ensures Calm(n, Do(s, RecvRefused(it)), done) && Still(n, Do(s, RecvRefused(it)), done)
  {
    CalmBegin(n, done, s, Recv(it, clash));
    CalmDo(n, done, s, RecvRefused(it));
    assert Do(s, RecvRefused(it)).pending == [];
  }

  lemma {:induction false} ListCalm(n: nat, done: Option<Item>, s: Scan, env: Env)
    requires Still(n, s, done) && s.todo != [] && s.todo[0].node.dir
    ensures Calm(n, ListLocal(s, env), done)
    decreases |s.todo[0].node.kids| - s.given
  {
    var head := s.todo[0];
    if s.given < |head.node.kids| {
      var a := NextListed(s, env);
      CalmDo(n, done, s, a);
      assert Do(s, a).todo[0] == head;
      ListCalm(n, done, Do(s, a), env);
    } else {
      CalmDo(n, done, s, LocalListed(head));
    }
  }

  lemma {:induction false} DeleteCalm(n: nat, done: Option<Item>, s: Scan, env: Env)
    requires Still(n, s, done) && s.todo == []
    ensures var (t, end) := DeleteLocal(s, env); Calm(n, t, done) && (end ==> Still(n, t, done))
    decreases |s.del|
  {
    if s.del != [] {
      CalmDo(n, done, s, Ask(Failure, s.del[0]));
      CalmDo(n, done, s, LocalDelete(s.del[0]));
      if s.del[0].node.dir || env.canDelete(s.del[0].At()) { DeleteCalm(n, done, Do(s, LocalDelete(s.del[0])), env); }
    }
  }

  lemma {:induction false} LocalCalm(n: nat, done: Option<Item>, s: Scan, env: Env)
    requires Still(n, s, done)
    ensures var (t, end) := LocalRequest(s, env); Calm(n, t, done) && (end ==> Still(n, t, done))
    decreases |s.todo|, 1
  {
    if s.todo == [] {
      DeleteCalm(n, done, s, env);
    } else {
      var it := s.todo[0];
      CalmDo(n, done, s, TooLong(it));
      CalmDo(n, done, s, Pass(it));
      if PathLen(it.At()) + 4 > s.setup.room {
        LocalCalm(n, done, Do(s, TooLong(it)), env);
      } else {
        match CheckPanel(s, it)
        case PassIt => LocalCalm(n, done, Do(s, Pass(it)), env);
        case AskIt(box) => CalmDo(n, done, s, Ask(box, it));
        case Proceed(clash) => ProceedCalm(n, done, s, env, clash);
      }
    }
  }

  lemma {:induction false} ProceedCalm(n: nat, done: Option<Item>, s: Scan, env: Env, clash: bool)
    requires Still(n, s, done) && s.todo != [] && PathLen(s.todo[0].At()) + 4 <= s.setup.room
    requires CheckPanel(s, s.todo[0]) == Proceed(clash)
    ensures var (t, end) := LocalRequest(s, env); Calm(n, t, done) && (end ==> Still(n, t, done))
    decreases |s.todo|, 0
  {
    var it := s.todo[0];
    if !it.node.dir {
      if s.op == LDelete {
        CalmDo(n, done, s, LocalDelete(it));
        CalmDo(n, done, s, Ask(Failure, it));
        if env.canDelete(it.At()) { LocalCalm(n, done, Do(s, LocalDelete(it)), env); }
      } else {
        CalmBegin(n, done, s, Send(it, clash));
        CalmDo(n, done, s, SendRefused(it));
      }
    } else if env.findOk {
      ListCalm(n, done, s.(given := 0), env);
    } else {
      CalmDo(n, done, s, Stall);
    }
  }

  lemma NextCalm(n: nat, done: Option<Item>, s: Scan, env: Env)
    requires Still(n, s, done)
    ensures Calm(n, NextStep(s, env), done)
  {
    CalmDo(n, done, s, Finish(s.todo != [] || s.del != []));
    if !s.cancel {
      if Local(s.op) { LocalCalm(n, done, s, env); } else { SendCalm(n, done, s, env); }
      var (t, end) := if Local(s.op) then LocalRequest(s, env) else SendRequest(s, env);
      if end { CalmDo(n, done, t, Finish(t.todo != [] || t.del != [])); }
    }
  }

  // --- One event ----------------------------------------------------------------------

  lemma BeginCalm(op: Op, sel: seq<Tree>, setup: Setup, env: Env)
    requires op != NoOp && sel != [] && Forest(sel)
    ensures Calm(0, Start(op, sel, setup, env), None) && Shape(Start(op, sel, setup, env))
  {
    var s := Load(op, sel, setup);
    ScanRuns.SelectionShape(Fresh(op, setup), sel);
    ScanRuns.LoadSome(op, sel, setup);
    LoadSilent(Fresh(op, setup), sel);
    NextCalm(0, None, s, env);
    ScanRuns.NextKeeps(t => true, s, env);
  }

  lemma {:induction false} LoadSilent(s: Scan, sel: seq<Tree>)
    ensures AddSelected(s, sel).log == s.log && AddSelected(s, sel).pending == s.pending
    decreases sel
  {
    if sel != [] { LoadSilent(Add(s, Item([], sel[0])), sel[1..]); }
  }

  /** An update that is no transfer, and then the next step. */
  lemma ThenNext(done: Option<Item>, s: Scan, a: Action, env: Env)
    requires s.pending == [] && !a.Abort? && !Begins(a) && (a.Eof? ==> done == Some(a.it))
    requires Do(s, a).pending == []
    ensures Calm(|s.log|, NextStep(Do(s, a), env), done)
  {
    CalmDo(|s.log|, done, s, a);
    NextCalm(|s.log|, done, Do(s, a), env);
  }

  lemma EndOfListCalm(s: Scan, it: Item, env: Env)
    requires Shape(s) && Told(s, AwaitList(it))
    ensures Calm(|s.log|, EndOfList(s, env), None)
  {
    if s.op == RDelete || env.mkDirOk {
      ThenNext(None, s, DirDone(it), env);
    } else {
      CalmDo(|s.log|, None, s, Ask(Fatal, it));
    }
  }

  lemma LocalEndCalm(s: Scan, it: Item, env: Env)
    requires Shape(s) && Told(s, AwaitLocalEnd(it))
    ensures Calm(|s.log|, EndOfLocalList(s, env), None)
  {
    if s.op != LDelete && !env.sendOk {
      CalmDo(|s.log|, None, s, Finish(s.todo != [] || s.del != []));
    } else if s.op == LDelete {
      ThenNext(None, s, DirDone(it), env);
    } else {
      CalmDo(|s.log|, None, s, DirDone(it));
    }
  }

  /** The item whose deletion was answered leaves its list first. */
  lemma DeleteAnswer(s: Scan, it: Item, ok: bool, env: Env)
    requires Shape(s) && Told(s, AwaitDelete(it))
    ensures var t := Do(s, DeleteReply(it, ok));
            t.pending == [] && DeleteResult(s, it, ok, env) == if ok then NextStep(t, env) else Do(t, Ask(Fatal, it))
  {
  }

  lemma DeleteResultCalm(s: Scan, it: Item, ok: bool, env: Env)
    requires Shape(s) && Told(s, AwaitDelete(it))
    ensures Calm(|s.log|, DeleteResult(s, it, ok, env), None)
  {
    DeleteAnswer(s, it, ok, env);
    if ok { ThenNext(None, s, DeleteReply(it, ok), env); } else { ThenAsks(s, it, ok); }
  }

  lemma ThenAsks(s: Scan, it: Item, ok: bool)
    requires s.pending == [] && Do(s, DeleteReply(it, ok)).pending == []
    ensures Calm(|s.log|, Do(Do(s, DeleteReply(it, ok)), Ask(Fatal, it)), None)
  {
    CalmDo(|s.log|, None, s, DeleteReply(it, ok));
    CalmDo(|s.log|, None, Do(s, DeleteReply(it, ok)), Ask(Fatal, it));
  }

  lemma DismissCalm(s: Scan, box: Box, it: Item, b: Button, env: Env)
    requires s.pending == []
    ensures Calm(|s.log|, MsgBoxDismiss(s, box, it, b, env), None)
  {
    var t := PressedScan(s, b);
    assert t.pending == [];
    ThenNext(None, s, Pressed(box, it, b, s.todo == []), env);
  }

  lemma TransferCalm(s: Scan, p: Pending, env: Env)
    requires Shape(s) && Told(s, p) && Transfer(p)
    ensures Calm(|s.log|, EndOfFile(s, env), Some(p.it))
    ensures Calm(|s.log|, TransferFailed(s), None)
  {
    ThenNext(Some(p.it), s, Eof(p.it), env);
    CalmDo(|s.log|, None, s, Ask(Failure, p.it));
  }

  // --- Events -------------------------------------------------------------------------

  /** An answer taken from what was outstanding, chunks excepted. */
  lemma AnswerCalm(s: Scan, e: Event)
    requires Shape(s) && Enabled(s, e) && Answers(e).Some? && !e.ChunkEvent?
    ensures Calm(|s.log|, Step(s, e), if e.EofEvent? then Some(e.p.it) else None)
  {
    TakeShape(s, Answers(e).value);
    match e
    case EntryEvent(it, node) =>
    case EndOfListEvent(it, env) => EndOfListCalm(Take(s, AwaitList(it)), it, env);
    case LocalEndEvent(it, env) => LocalEndCalm(Take(s, AwaitLocalEnd(it)), it, env);
    case EofEvent(p, env) => TransferCalm(Take(s, p), p, env);
    case FailEvent(p) => TransferCalm(Take(s, p), p, Fine());
    case DeleteEvent(it, ok, env) => DeleteResultCalm(Take(s, AwaitDelete(it)), it, ok, env);
    case MkDirEvent(it, ok, env) => ThenNext(None, Take(s, AwaitMkDir(it)), MkDirReply(it, ok), env);
    case ButtonEvent(box, it, b, env) => DismissCalm(Take(s, AwaitButton(box, it)), box, it, b, env);
  }

  /** A chunk in a cancelled operation. */
  lemma CancelNews(s: Scan, e: Event)
    requires Shape(s) && Enabled(s, e) && e.ChunkEvent? && s.cancel
    ensures News(|s.log|, Step(s, e).log) == [Abort(e.p.it), Finish(s.todo != [] || s.del != [])]
    ensures Step(s, e).op == NoOp
  {
    TakeShape(s, e.p);
    var t := Do(Take(s, e.p), Abort(e.p.it));
    assert Step(s, e) == End(t);
    assert Step(s, e).log == s.log + [Abort(e.p.it)] + [Finish(s.todo != [] || s.del != [])];
  }

  lemma LogGrows(s: Scan, e: Event)
    requires Shape(s) && Enabled(s, e)
    ensures Shape(Step(s, e)) && s.log <= Step(s, e).log
  {
    forall t: Scan, a: Action | Shape(t) && s.log <= t.log && Can(t, a)
      ensures s.log <= Do(t, a).log
    {
      Shifts(t, a);
    }
    ScanRuns.StepKeeps((t: Scan) => s.log <= t.log, s, e);
  }

  lemma StepReacts(s: Scan, e: Event)
    requires Shape(s) && Enabled(s, e)
    ensures Reacts(s, e, Step(s, e))
  {
    LogGrows(s, e);
    if e.ChunkEvent? {
      if s.cancel { CancelNews(s, e); }
    } else if !e.CancelEvent? {
      AnswerCalm(s, e);
    }
  }

  /** The scan engine obeys the rules that the results about the composition rest on. */
  lemma ScanObeys()
    ensures Obeys(SCAN)
  {
    forall s: Scan, e: Event | Shape(s) && Enabled(s, e)
      ensures Reacts(s, e, SCAN.step(s, e))
    {
      StepReacts(s, e);
    }
    forall op: Op, sel: seq<Tree>, setup: Setup, env: Env | op != NoOp && sel != [] && Forest(sel)
      ensures Calm(0, SCAN.start(op, sel, setup, env), None) && Shape(SCAN.start(op, sel, setup, env))
    {
      BeginCalm(op, sel, setup, env);
    }
  }
}
