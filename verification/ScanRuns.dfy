/**
 Induction over runs: every handler is a chain of permitted primitive updates, so a
 property kept by each of them holds in every state an operation can reach.
*/
module ScanRuns {
  import opened Options
  import opened Trees
  import opened ScanSpec
  import opened ScanShape

  /** Which entries of the directory at the head a search gives, and whether their names fit. */
  predicate Findable(s: Scan, env: Env, it: Item)
    requires s.todo != []
  {
    Gives(env, s.todo[0], s.given) && PathLen(it.At()) < s.setup.room
  }

  predicate Fitting(s: Scan, it: Item) { PathLen(it.At()) + 4 <= s.setup.room }

  /** What the calls of an event must have returned for the engine to do the update in it. */
  predicate Grounds(s: Scan, env: Env, a: Action) {
    match a
    case List(_) => env.sendOk
    case Queue(it) => Local(s.op) ==> s.todo != [] && Findable(s, env, it)
    case Missed(it) => s.todo != [] && !Findable(s, env, it)
    case LocalListed(it) => env.findOk && Fitting(s, it)
    case DirDone(_) => (Downloads(s.op) ==> env.mkDirOk) && (Uploads(s.op) ==> env.sendOk)
    case Recv(it, clash) => env.sendOk && (clash <==> env.isFile(it.At()))
    case RecvRefused(it) => !env.sendOk && (env.isFile(it.At()) ==> s.flags.over)
    case Send(it, _) => env.sendOk && Fitting(s, it)
    case SendRefused(it) => !env.sendOk && Fitting(s, it) && CheckPanel(s, it).Proceed?
    case AskDelete(_) => env.sendOk
    case LocalDelete(it) => (it.node.dir || env.canDelete(it.At())) && (s.todo != [] ==> Fitting(s, it))
    case Ask(box, it) => Questionable(s, env, box, it)
    case Pass(it) =>
      if Local(s.op) then Fitting(s, it) && CheckPanel(s, it).PassIt? else !s.flags.over && env.isFile(it.At())
    case Stall => if s.todo != [] then !env.findOk && Fitting(s, s.todo[0]) && Cleared(s) else !env.sendOk
    case Finish(early) => s.cancel || !early || !env.sendOk
    case _ => true
  }

  /** When a box is opened. */
  predicate Questionable(s: Scan, env: Env, box: Box, it: Item) {
    match box
    case Failure => s.busy.None? && !env.canDelete(it.At()) && !it.node.dir
    case Fatal => if s.busy.Some? then !env.mkDirOk && Downloads(s.op) else true
    case Overwrite =>
      if Local(s.op) then Fitting(s, it) && CheckPanel(s, it) == AskIt(Overwrite) else env.isFile(it.At())
    case _ => Fitting(s, it) && CheckPanel(s, it) == AskIt(box)
  }

  /** P is kept by every permitted update in an event with these results of its calls. */
  ghost predicate ClosedFor(P: Scan -> bool, env: Env) {
    forall s: Scan, a: Action | Shape(s) && P(s) && Can(s, a) && Grounds(s, env, a) :: P(Do(s, a))
  }

  /** P is kept by every permitted update and by the dispatch of an answer. */
  ghost predicate Steady(P: Scan -> bool) {
    && (forall s: Scan, a: Action | Shape(s) && P(s) && Can(s, a) :: P(Do(s, a)))
    && (forall s: Scan, p: Pending | Shape(s) && P(s) && p in s.pending :: P(Take(s, p)))
  }

  /** And by Cancel. */
  ghost predicate Closed(P: Scan -> bool) {
    && Steady(P)
    && (forall s: Scan | Shape(s) && P(s) && s.op != NoOp :: P(s.(cancel := true)))
  }

  /** A request function says that the operation is over: nothing is left, or nothing can be sent. */
  predicate Ended(s: Scan, env: Env) { Idle(s) && (env.sendOk ==> s.todo == [] && s.del == []) }

  /** One permitted update. */
  lemma One(P: Scan -> bool, s: Scan, env: Env, a: Action)
    requires ClosedFor(P, env) && Shape(s) && P(s) && Can(s, a) && Grounds(s, env, a)
    ensures Shape(Do(s, a)) && P(Do(s, a))
  {
    ShapeKept(s, a);
  }

  // --- The request loops ------------------------------------------------------------

  lemma {:induction false} SendKeeps(P: Scan -> bool, s: Scan, env: Env)
    requires ClosedFor(P, env) && Shape(s) && P(s) && Ready(s) && Remote(s.op)
    ensures var (t, end) := SendRequest(s, env);
            Shape(t) && P(t) && (end ==> Ended(t, env))
    decreases |s.todo|, 1
  {
    if s.todo != [] {
      var it := s.todo[0];
      if it.node.dir {
        if env.sendOk { One(P, s, env, List(it)); }
      } else if s.op == RDelete {
        if env.sendOk { One(P, s, env, AskDelete(it)); }
      } else {
        ReceiveKeeps(P, s, env);
      }
    } else if s.del != [] {
      if env.sendOk { One(P, s, env, AskDelete(s.del[0])); } else { One(P, s, env, Stall); }
    }
  }

  lemma {:induction false} ReceiveKeeps(P: Scan -> bool, s: Scan, env: Env)
    requires ClosedFor(P, env) && Shape(s) && P(s) && Ready(s) && Downloads(s.op)
    requires s.todo != [] && !s.todo[0].node.dir
    ensures var (t, end) := SendRequest(s, env);
            Shape(t) && P(t) && (end ==> Ended(t, env))
    decreases |s.todo|, 0, 1
  {
    if !s.flags.over && env.isFile(s.todo[0].At()) {
      ExistingKeeps(P, s, env);
    } else {
      StartKeeps(P, s, env, env.isFile(s.todo[0].At()));
    }
  }

  lemma {:induction false} ExistingKeeps(P: Scan -> bool, s: Scan, env: Env)
    requires ClosedFor(P, env) && Shape(s) && P(s) && Ready(s) && Downloads(s.op)
    requires s.todo != [] && !s.todo[0].node.dir && !s.flags.over && env.isFile(s.todo[0].At())
    ensures var (t, end) := SendRequest(s, env);
            Shape(t) && P(t) && (end ==> Ended(t, env))
    decreases |s.todo|, 0, 0
  {
    var it := s.todo[0];
    if s.flags.noOver {
      One(P, s, env, Pass(it));
      SendKeeps(P, Do(s, Pass(it)), env);
    } else {
      One(P, s, env, Ask(Overwrite, it));
    }
  }

  lemma StartKeeps(P: Scan -> bool, s: Scan, env: Env, clash: bool)
    requires ClosedFor(P, env) && Shape(s) && P(s) && Ready(s) && Downloads(s.op)
    requires s.todo != [] && !s.todo[0].node.dir
    requires (clash <==> env.isFile(s.todo[0].At())) && (clash ==> s.flags.over)
    ensures env.sendOk ==> Shape(Do(s, Recv(s.todo[0], clash))) && P(Do(s, Recv(s.todo[0], clash)))
    ensures !env.sendOk ==> Shape(Do(s, RecvRefused(s.todo[0]))) && P(Do(s, RecvRefused(s.todo[0])))
    ensures Idle(Do(s, RecvRefused(s.todo[0])))
  {
    if env.sendOk { One(P, s, env, Recv(s.todo[0], clash)); } else { One(P, s, env, RecvRefused(s.todo[0])); }
  }

  /** Adding an entry leaves the directory being listed at the head, and the listing goes on. */
  lemma EntryKeepsHead(s: Scan, a: Action)
    requires Shape(s) && Can(s, a) && (a.Queue? || a.Missed?)
    requires Quiet(s) && Local(s.op) && Cleared(s)
    ensures var t := Do(s, a);
            && t.todo != [] && t.todo[0] == s.todo[0] && t.given == s.given + 1
            && Quiet(t) && t.op == s.op && Cleared(t)
  {
  }

  lemma {:induction false} ListKeeps(P: Scan -> bool, s: Scan, env: Env)
    requires ClosedFor(P, env) && Shape(s) && P(s) && Quiet(s) && Local(s.op)
    requires s.todo != [] && s.todo[0].node.dir && Cleared(s) && env.findOk && Fitting(s, s.todo[0])
    ensures Shape(ListLocal(s, env)) && P(ListLocal(s, env))
    decreases |s.todo[0].node.kids| - s.given
  {
    var head := s.todo[0];
    if s.given < |head.node.kids| {
      var a := NextListed(s, env);
      One(P, s, env, a);
      EntryKeepsHead(s, a);
      ListKeeps(P, Do(s, a), env);
    } else {
      One(P, s, env, LocalListed(head));
    }
  }

  lemma {:induction false} DeleteKeeps(P: Scan -> bool, s: Scan, env: Env)
    requires ClosedFor(P, env) && Shape(s) && P(s) && Ready(s) && Local(s.op) && s.todo == []
    ensures var (t, end) := DeleteLocal(s, env);
            Shape(t) && P(t) && (end ==> Ended(t, env))
    decreases |s.del|
  {
    if s.del != [] {
      if !s.del[0].node.dir && !env.canDelete(s.del[0].At()) {
        One(P, s, env, Ask(Failure, s.del[0]));
      } else {
        One(P, s, env, LocalDelete(s.del[0]));
        DeleteKeeps(P, Do(s, LocalDelete(s.del[0])), env);
      }
    }
  }

  lemma {:induction false} LocalKeeps(P: Scan -> bool, s: Scan, env: Env)
    requires ClosedFor(P, env) && Shape(s) && P(s) && Ready(s) && Local(s.op)
    ensures var (t, end) := LocalRequest(s, env);
            Shape(t) && P(t) && (end ==> Ended(t, env))
    decreases |s.todo|, 2
  {
    if s.todo == [] {
      DeleteKeeps(P, s, env);
    } else if PathLen(s.todo[0].At()) + 4 > s.setup.room {
      One(P, s, env, TooLong(s.todo[0]));
      LocalKeeps(P, Do(s, TooLong(s.todo[0])), env);
    } else {
      match CheckPanel(s, s.todo[0])
      case Proceed(clash) => ProceedKeeps(P, s, env, clash);
      case _ => QuestionKeeps(P, s, env);
    }
  }

  lemma {:induction false} QuestionKeeps(P: Scan -> bool, s: Scan, env: Env)
    requires ClosedFor(P, env) && Shape(s) && P(s) && Ready(s) && Local(s.op) && s.todo != []
    requires !CheckPanel(s, s.todo[0]).Proceed?
    requires Fitting(s, s.todo[0])
    ensures var (t, end) := LocalRequest(s, env);
            Shape(t) && P(t) && (end ==> Ended(t, env))
    decreases |s.todo|, 1
  {
    var it := s.todo[0];
    match CheckPanel(s, it)
    case PassIt =>
      One(P, s, env, Pass(it));
      LocalKeeps(P, Do(s, Pass(it)), env);
    case AskIt(box) =>
      One(P, s, env, Ask(box, it));
  }

  lemma {:induction false} ProceedKeeps(P: Scan -> bool, s: Scan, env: Env, clash: bool)
    requires ClosedFor(P, env) && Shape(s) && P(s) && Ready(s) && Local(s.op) && s.todo != []
    requires CheckPanel(s, s.todo[0]) == Proceed(clash)
    requires Fitting(s, s.todo[0])
    ensures var (t, end) := LocalRequest(s, env);
            Shape(t) && P(t) && (end ==> Ended(t, env))
    decreases |s.todo|, 0
  {
    var it := s.todo[0];
    if it.node.dir {
      DirectoryKeeps(P, s, env);
    } else if s.op == LDelete {
      if env.canDelete(it.At()) {
        One(P, s, env, LocalDelete(it));
        LocalKeeps(P, Do(s, LocalDelete(it)), env);
      } else {
        One(P, s, env, Ask(Failure, it));
      }
    } else {
      UploadKeeps(P, s, env, clash);
    }
  }

  lemma DirectoryKeeps(P: Scan -> bool, s: Scan, env: Env)
    requires ClosedFor(P, env) && Shape(s) && P(s) && Ready(s) && Local(s.op)
    requires s.todo != [] && s.todo[0].node.dir && Cleared(s) && Fitting(s, s.todo[0])
    ensures env.findOk ==> Shape(ListLocal(s.(given := 0), env)) && P(ListLocal(s.(given := 0), env))
    ensures !env.findOk ==> Shape(Do(s, Stall)) && P(Do(s, Stall))
  {
    if env.findOk {
      assert s.(given := 0) == s;
      ListKeeps(P, s, env);
    } else {
      One(P, s, env, Stall);
    }
  }

  lemma UploadKeeps(P: Scan -> bool, s: Scan, env: Env, clash: bool)
    requires ClosedFor(P, env) && Shape(s) && P(s) && Ready(s) && Uploads(s.op) && s.todo != []
    requires !s.todo[0].node.dir && CheckPanel(s, s.todo[0]) == Proceed(clash) && Fitting(s, s.todo[0])
    ensures env.sendOk ==> Shape(Do(s, Send(s.todo[0], clash))) && P(Do(s, Send(s.todo[0], clash)))
    ensures !env.sendOk ==> Shape(Do(s, SendRefused(s.todo[0]))) && P(Do(s, SendRefused(s.todo[0])))
  {
    if env.sendOk { One(P, s, env, Send(s.todo[0], clash)); } else { One(P, s, env, SendRefused(s.todo[0])); }
  }

  lemma NextKeeps(P: Scan -> bool, s: Scan, env: Env)
    requires ClosedFor(P, env) && Shape(s) && P(s) && Idle(s) && (s.cancel || Ready(s))
    ensures Shape(NextStep(s, env)) && P(NextStep(s, env))
  {
    if s.cancel {
      One(P, s, env, Finish(s.todo != [] || s.del != []));
    } else {
      if Local(s.op) { LocalKeeps(P, s, env); } else { SendKeeps(P, s, env); }
      var (t, end) := if Local(s.op) then LocalRequest(s, env) else SendRequest(s, env);
      if end { One(P, t, env, Finish(t.todo != [] || t.del != [])); }
    }
  }

  // --- Events -----------------------------------------------------------------------

  lemma EndOfListKeeps(P: Scan -> bool, s: Scan, it: Item, env: Env)
    requires ClosedFor(P, env) && Shape(s) && P(s) && Told(s, AwaitList(it)) && s.given == |it.node.kids|
    ensures Shape(EndOfList(s, env)) && P(EndOfList(s, env))
  {
    if s.op != RDelete && !env.mkDirOk {
      One(P, s, env, Ask(Fatal, it));
    } else {
      One(P, s, env, DirDone(it));
      NextKeeps(P, Do(s, DirDone(it)), env);
    }
  }

  lemma LocalEndKeeps(P: Scan -> bool, s: Scan, it: Item, env: Env)
    requires ClosedFor(P, env) && Shape(s) && P(s) && Told(s, AwaitLocalEnd(it))
    ensures Shape(EndOfLocalList(s, env)) && P(EndOfLocalList(s, env))
  {
    if s.op != LDelete && !env.sendOk {
      One(P, s, env, Finish(s.todo != [] || s.del != []));
    } else {
      One(P, s, env, DirDone(it));
      if s.op == LDelete { NextKeeps(P, Do(s, DirDone(it)), env); }
    }
  }

  lemma DeleteResultKeeps(P: Scan -> bool, s: Scan, it: Item, ok: bool, env: Env)
    requires ClosedFor(P, env) && Shape(s) && P(s) && Told(s, AwaitDelete(it))
    ensures Shape(DeleteResult(s, it, ok, env)) && P(DeleteResult(s, it, ok, env))
  {
    One(P, s, env, DeleteReply(it, ok));
    var t := Do(s, DeleteReply(it, ok));
    if ok { NextKeeps(P, t, env); } else { One(P, t, env, Ask(Fatal, it)); }
  }

  /** A button was pressed, and nothing is outstanding any more. */
  lemma PressedIdle(s: Scan, box: Box, it: Item, b: Button)
    requires Shape(s) && Told(s, AwaitButton(box, it)) && Offers(box, b)
    ensures var t := Do(s, Pressed(box, it, b, s.todo == []));
            Idle(t) && (t.cancel || Ready(t)) && Can(s, Pressed(box, it, b, s.todo == []))
  {
  }

  lemma DismissKeeps(P: Scan -> bool, s: Scan, box: Box, it: Item, b: Button, env: Env)
    requires ClosedFor(P, env) && Shape(s) && P(s) && Told(s, AwaitButton(box, it)) && Offers(box, b)
    ensures Shape(MsgBoxDismiss(s, box, it, b, env)) && P(MsgBoxDismiss(s, box, it, b, env))
  {
    var a := Pressed(box, it, b, s.todo == []);
    PressedIdle(s, box, it, b);
    One(P, s, env, a);
    NextKeeps(P, Do(s, a), env);
  }

  lemma EntryKeeps(P: Scan -> bool, s: Scan, it: Item, node: Tree)
    requires Steady(P) && Shape(s) && P(s) && Enabled(s, EntryEvent(it, node))
    ensures Shape(FindData(s, node)) && P(FindData(s, node))
  {
    TakeShape(s, AwaitList(it));
    if !(node.name in {".", ".."}) {
      assert NextEntry(s, Item(it.At(), node));
      ShapeKept(s, Queue(Item(it.At(), node)));
    } else if s.given < |it.node.kids| {
      assert it in s.todo;
    }
  }

  lemma EofKeeps(P: Scan -> bool, s: Scan, p: Pending, env: Env)
    requires ClosedFor(P, env) && Shape(s) && P(s) && Told(s, p) && Transfer(p)
    ensures Shape(EndOfFile(s, env)) && P(EndOfFile(s, env))
  {
    One(P, s, env, Eof(p.it));
    NextKeeps(P, Do(s, Eof(p.it)), env);
  }

  lemma ChunkKeeps(P: Scan -> bool, s: Scan, p: Pending, env: Env)
    requires ClosedFor(P, env) && Shape(s) && P(s) && Told(s, p) && Transfer(p) && s.cancel
    ensures Shape(FileChunk(s, p.it, env)) && P(FileChunk(s, p.it, env))
  {
    One(P, s, env, Abort(p.it));
    NextKeeps(P, Do(s, Abort(p.it)), env);
  }

  lemma MkDirKeeps(P: Scan -> bool, s: Scan, it: Item, ok: bool, env: Env)
    requires ClosedFor(P, env) && Shape(s) && P(s) && Told(s, AwaitMkDir(it))
    ensures Shape(MkDirResult(s, it, ok, env)) && P(MkDirResult(s, it, ok, env))
  {
    One(P, s, env, MkDirReply(it, ok));
    NextKeeps(P, Do(s, MkDirReply(it, ok)), env);
  }

  /** The results of the calls made in the event. */
  function EnvOf(e: Event): Option<Env> {
    match e
    case EndOfListEvent(_, env) => Some(env)
    case LocalEndEvent(_, env) => Some(env)
    case EofEvent(_, env) => Some(env)
    case ChunkEvent(_, env) => Some(env)
    case DeleteEvent(_, _, env) => Some(env)
    case MkDirEvent(_, _, env) => Some(env)
    case ButtonEvent(_, _, _, env) => Some(env)
    case _ => None
  }

  /** Every event keeps the shape of the state and every closed property. */
  lemma StepKeeps(P: Scan -> bool, s: Scan, e: Event)
    requires Closed(P) && Shape(s) && P(s) && Enabled(s, e)
    ensures Shape(Step(s, e)) && P(Step(s, e))
  {
    if !e.CancelEvent? { StepKeepsSteady(P, s, e); }
  }

  /** Every other event does so even where Cancel does not. */
  lemma StepKeepsSteady(P: Scan -> bool, s: Scan, e: Event)
    requires Steady(P) && Shape(s) && P(s) && Enabled(s, e) && !e.CancelEvent?
    ensures Shape(Step(s, e)) && P(Step(s, e))
  {
    if e.EntryEvent? {
      EntryKeeps(P, s, e.it, e.node);
    } else if !e.ChunkEvent? || s.cancel {
      var p := Answers(e).value;
      TakeShape(s, p);
      if e.FailEvent? { ShapeKept(Take(s, p), Ask(Failure, p.it)); } else { AnswerKeeps(P, s, EnvOf(e).value, e); }
    }
  }

  lemma AnswerKeeps(P: Scan -> bool, s: Scan, env: Env, e: Event)
    requires ClosedFor(P, env) && Shape(s) && Enabled(s, e) && EnvOf(e) == Some(env) && (e.ChunkEvent? ==> s.cancel)
    requires var p := Answers(e).value; P(Take(s, p)) && Told(Take(s, p), p) && Shape(Take(s, p))
    ensures Shape(Step(s, e)) && P(Step(s, e))
  {
    var t := Take(s, Answers(e).value);
    match e
    case EndOfListEvent(it, _) => EndOfListKeeps(P, t, it, env);
    case LocalEndEvent(it, _) => LocalEndKeeps(P, t, it, env);
    case EofEvent(p, _) => EofKeeps(P, t, p, env);
    case ChunkEvent(p, _) => ChunkKeeps(P, t, p, env);
    case DeleteEvent(it, ok, _) => DeleteResultKeeps(P, t, it, ok, env);
    case MkDirEvent(it, ok, _) => MkDirKeeps(P, t, it, ok, env);
    case ButtonEvent(box, it, b, _) => DismissKeeps(P, t, box, it, b, env);
  }

  lemma {:induction false} RunKeeps(P: Scan -> bool, s: Scan, es: seq<Event>)
    requires Closed(P) && Shape(s) && P(s) && Runs(s, es)
    ensures Shape(After(s, es)) && P(After(s, es))
    decreases es
  {
    if es != [] {
      StepKeeps(P, s, es[0]);
      RunKeeps(P, Step(s, es[0]), es[1..]);
    }
  }

  // --- From the start ---------------------------------------------------------------

  lemma InsertLists(op: Op, todo: seq<Item>, del: seq<Item>, it: Item, p: nat)
    requires Lists(op, todo, del, 0) && WellFormed(it.node) && op != NoOp && p <= |todo|
    requires if it.node.dir then forall t | t in todo[..p] :: t.node.dir else p == |todo|
    ensures Lists(op, todo[..p] + [it] + todo[p..], del, 0)
  {
    var next := todo[..p] + [it] + todo[p..];
    assert forall i | 0 <= i < p :: next[i] == todo[i] && todo[i] in todo[..p];
    assert forall i | p < i < |next| :: next[i] == todo[i - 1];
  }

  lemma AddShape(s: Scan, t: Tree)
    requires Shape(s) && Ready(s) && WellFormed(t)
    ensures Shape(Add(s, Item([], t))) && Ready(Add(s, Item([], t)))
  {
    var it := Item([], t);
    var p := if !t.dir then |s.todo| else if s.todo != [] && s.todo[0].node.dir then 1 else 0;
    InsertLists(s.op, s.todo, s.del, it, p);
    assert Add(s, it).todo == s.todo[..p] + [it] + s.todo[p..];
  }

  lemma {:induction false} SelectionShape(s: Scan, sel: seq<Tree>)
    requires Shape(s) && Ready(s) && forall t | t in sel :: WellFormed(t)
    ensures Shape(AddSelected(s, sel)) && Ready(AddSelected(s, sel))
    decreases sel
  {
    if sel != [] {
      AddShape(s, sel[0]);
      SelectionShape(Add(s, Item([], sel[0])), sel[1..]);
    }
  }

  /** What holds of the loaded selection and is closed holds in every state of every run. */
  lemma Always(P: Scan -> bool, op: Op, sel: seq<Tree>, setup: Setup, env: Env, es: seq<Event>)
    requires op != NoOp && sel != [] && Forest(sel)
    requires Closed(P) && P(Load(op, sel, setup))
    requires Runs(Start(op, sel, setup, env), es)
    ensures var s := After(Start(op, sel, setup, env), es);
            Shape(s) && P(s)
  {
    var s := Load(op, sel, setup);
    SelectionShape(
      Fresh(op, setup), sel);
    LoadSome(op, sel, setup);
    NextKeeps(P, s, env);
    RunKeeps(P, NextStep(s, env), es);
  }

  lemma LoadSome(op: Op, sel: seq<Tree>, setup: Setup)
    requires sel != [] && Forest(sel)
    ensures Load(op, sel, setup).todo != []
  {
    var s := Fresh(op, setup);
    assert sel[0] in sel;
    AddGrows(Add(s, Item([], sel[0])), sel[1..]);
  }

  lemma {:induction false} AddGrows(s: Scan, sel: seq<Tree>)
    ensures |AddSelected(s, sel).todo| >= |s.todo|
    decreases sel
  {
    if sel != [] { AddGrows(Add(s, Item([], sel[0])), sel[1..]); }
  }
}
