/**
 The whole of an operation: where nothing is in the way and nothing fails, one that nobody cancels
 asks nothing and leaves nothing out; it copies or deletes every entry of the selection.
*/
module ScanSmooth {
  import opened Options
  import opened Trees
  import opened ScanSpec
  import opened ScanShape
  import opened ScanRuns
  import opened ScanDeletes
  import opened ScanHistory
  import opened ScanCopies
  import opened ScanTermination
  import opened ScanHangs
  import opened ScanReasons
  import opened ScanWork
  import Overwriting = ScanOverwrite

  /** Every call succeeds, and nothing is in the way. */
  ghost predicate Smooth(env: Env) {
    && env.sendOk && env.mkDirOk && env.findOk
    && forall p: Path :: !env.isFile(p) && env.canDelete(p) && env.breaksAt(p).None?
  }

  /** No failure of a transfer or a deletion, and no Cancel; the server may refuse to make a
      directory. */
  ghost predicate Quietly(e: Event) {
    !e.FailEvent? && !e.CancelEvent? && (e.DeleteEvent? ==> e.ok) && (EnvOf(e).Some? ==> Smooth(EnvOf(e).value))
  }

  /** All names fit, and the remote panel shows none of the selected ones. */
  ghost predicate Clear(setup: Setup, sel: seq<Tree>) {
    && (forall it | Among([], sel, it) :: Short(setup, it))
    && (forall t | t in sel :: t.name !in setup.panel)
  }

  /** What an operation does that nothing disturbs. */
  predicate Regular(a: Action) {
    || a.List? || a.Queue? || a.LocalListed? || a.DirDone? || a.MkDirReply? || a.Recv? || a.Send? || a.Eof?
    || a.AskDelete? || a.LocalDelete? || (a.DeleteReply? && a.ok) || a == Finish(false)
  }

  ghost predicate Undisturbing(sel: seq<Tree>, s: Scan) {
    && Clear(s.setup, sel) && Chosen(sel, s) && !s.cancel
    && (Now(s).Some? ==> !Now(s).value.AwaitButton?)
    && forall a | a in s.log :: Regular(a)
  }

  lemma {:induction false} AmongTop(base: Path, ts: seq<Tree>, it: Item)
    requires Among(base, ts, it)
    ensures |it.base| >= |base| && (|it.base| == |base| ==> it.base == base && it.node in ts)
    decreases ts
  {
    if Among(base, ts[1..], it) {
      AmongTop(base, ts[1..], it);
    } else if it != Item(base, ts[0]) {
      AmongTop(base + [ts[0].name], ts[0].kids, it);
    }
  }

  /** Nothing is asked about the item at the head, and it fits. */
  lemma HeadIsClear(sel: seq<Tree>, s: Scan)
    requires Undisturbing(sel, s) && s.todo != [] && s.op == s.job
    ensures Short(s.setup, s.todo[0]) && CheckPanel(s, s.todo[0]) == Proceed(false)
  {
    var it := s.todo[0];
    assert it in s.todo;
    AmongTop([], sel, it);
    assert |it.At()| == |it.base| + 1;
  }

  /** The entries of a directory that is searched fit, too. */
  lemma EntryIsClear(sel: seq<Tree>, s: Scan, env: Env, it: Item)
    requires Undisturbing(sel, s) && NextEntry(s, it) && Smooth(env)
    ensures Findable(s, env, it)
  {
    assert s.todo[0] in s.todo;
    KidAmong([], sel, s.todo[0], it.node);
    assert Short(s.setup, it);
  }

  lemma RegularOnly(sel: seq<Tree>, s: Scan, env: Env, a: Action)
    requires Shape(s) && Undisturbing(sel, s) && Smooth(env) && Can(s, a) && Grounds(s, env, a)
    requires a.DeleteReply? ==> a.ok
    ensures Regular(a)
  {
    if a.Missed? { EntryIsClear(sel, s, env, a.it); }
    if s.todo != [] && s.op == s.job { HeadIsClear(sel, s); }
    if s.log != [] { assert s.log[|s.log| - 1] in s.log; }
  }

  lemma StaysUndisturbing(sel: seq<Tree>, s: Scan, env: Env, a: Action)
    requires Shape(s) && Undisturbing(sel, s) && Smooth(env) && Can(s, a) && Grounds(s, env, a)
    requires a.DeleteReply? ==> a.ok
    ensures Undisturbing(sel, Do(s, a))
  {
    RegularOnly(sel, s, env, a);
    Shifts(s, a);
    NextWait(s, a);
    CancelAfter(s, a);
    ChosenAfter(sel, s, a, Do(s, a));
  }

  /** No answer to a deletion is being handled. */
  ghost predicate Going(sel: seq<Tree>, s: Scan) {
    Undisturbing(sel, s) && (s.busy.Some? ==> !s.busy.value.AwaitDelete?)
  }

  lemma GoingClosed(sel: seq<Tree>, env: Env)
    requires Smooth(env)
    ensures ClosedFor(s => Going(sel, s), env)
  {
    forall s: Scan, a: Action | Shape(s) && Going(sel, s) && Can(s, a) && Grounds(s, env, a)
      ensures Going(sel, Do(s, a))
    {
      assert !a.DeleteReply?;
      StaysUndisturbing(sel, s, env, a);
      NextWait(s, a);
      BusyAfter(s, a);
    }
  }

  lemma BusyAfter(s: Scan, a: Action)
    requires Shape(s) && Can(s, a)
    ensures Do(s, a).busy.None? || Do(s, a).busy == s.busy
  {
  }

  lemma EventUndisturbing(sel: seq<Tree>, s: Scan, e: Event)
    requires Shape(s) && Undisturbing(sel, s) && Enabled(s, e) && Quietly(e)
    ensures Shape(Step(s, e)) && Undisturbing(sel, Step(s, e))
  {
    if e.EntryEvent? {
      EntryUndisturbing(sel, s, e.it, e.node);
    } else if e.DeleteEvent? {
      DeletionUndisturbing(sel, s, e.it, e.env);
    } else if !e.ChunkEvent? {
      TakeShape(s, Answers(e).value);
      GoingClosed(sel, EnvOf(e).value);
      AnswerKeeps(t => Going(sel, t), s, EnvOf(e).value, e);
    }
  }

  lemma DeletionUndisturbing(sel: seq<Tree>, s: Scan, it: Item, env: Env)
    requires Shape(s) && Undisturbing(sel, s) && AwaitDelete(it) in s.pending && Smooth(env)
    ensures var t := Step(s, DeleteEvent(it, true, env)); Shape(t) && Undisturbing(sel, t)
  {
    var e, a, t := DeleteEvent(it, true, env), DeleteReply(it, true), Take(s, AwaitDelete(it));
    TakeShape(s, AwaitDelete(it));
    OnwardStep(s, e);
    ReplyTurns(t, it);
    ShapeKept(t, a);
    StaysUndisturbing(sel, t, env, a);
    GoingClosed(sel, env);
    NextKeeps(u => Going(sel, u), Do(t, a), env);
  }

  lemma EntryUndisturbing(sel: seq<Tree>, s: Scan, it: Item, node: Tree)
    requires Shape(s) && Undisturbing(sel, s) && Enabled(s, EntryEvent(it, node))
    ensures Shape(FindData(s, node)) && Undisturbing(sel, FindData(s, node))
  {
    TakeShape(s, AwaitList(it));
    if !(node.name in {".", ".."}) {
      var a := Queue(Item(it.At(), node));
      assert NextEntry(s, a.it);
      ShapeKept(s, a);
      StaysUndisturbing(sel, s, Fine(), a);
    } else if s.given < |it.node.kids| {
      assert it in s.todo;
    }
  }

  lemma {:induction false} RunUndisturbing(sel: seq<Tree>, s: Scan, es: seq<Event>)
    requires Shape(s) && Undisturbing(sel, s) && Runs(s, es) && forall e | e in es :: Quietly(e)
    ensures Shape(After(s, es)) && Undisturbing(sel, After(s, es))
    decreases es
  {
    if es != [] {
      assert es[0] in es;
      EventUndisturbing(sel, s, es[0]);
      RunUndisturbing(sel, Step(s, es[0]), es[1..]);
    }
  }

  lemma StartUndisturbing(op: Op, sel: seq<Tree>, setup: Setup, env: Env)
    requires op != NoOp && sel != [] && Forest(sel) && Clear(setup, sel) && Smooth(env)
    ensures Shape(Start(op, sel, setup, env)) && Undisturbing(sel, Start(op, sel, setup, env))
  {
    LoadedWorded(op, sel, setup);
    LoadSome(op, sel, setup);
    SelectedChosen(Fresh(op, setup), sel, sel);
    SelectedCancel(Fresh(op, setup), sel);
    Overwriting.SelectedFlags(Fresh(op, setup), sel);
    GoingClosed(sel, env);
    NextKeeps(s => Going(sel, s), Load(op, sel, setup), env);
  }

  /** When nothing is in the way and nothing fails, an operation that is not cancelled and that no
      event but idle ones can continue is over. A copy made every directory of the selection and
      transferred every file, and a move or a delete issued exactly one deletion for every entry.
      By RunsAreBounded every such operation gets there. */
  lemma SmoothRunsDoItAll(op: Op, sel: seq<Tree>, setup: Setup, env: Env, es: seq<Event>, it: Item)
    requires op != NoOp && sel != [] && Forest(sel) && Clear(setup, sel) && Among([], sel, it)
    requires Smooth(env) && forall e | e in es :: Quietly(e)
    requires Runs(Start(op, sel, setup, env), es)
    requires !exists e: Event :: Enabled(After(Start(op, sel, setup, env), es), e) && Counts(After(Start(op, sel, setup, env), es), e)
    ensures var s := After(Start(op, sel, setup, env), es);
      && s.op == NoOp && (forall a | a in s.log :: Regular(a))
      && (Copies(op) ==> (if it.node.dir then DirDone(it) else Eof(it)) in s.log)
      && (!Copies(op) ==> Issued(s, it.At()) == 1)
  {
    StartUndisturbing(op, sel, setup, env);
    RunUndisturbing(sel, Start(op, sel, setup, env), es);
    WorkingRunsEnd(op, sel, setup, env, es);
    AmongUnder([], sel, it);
    if Copies(op) {
      CopiesEveryEntry(op, sel, setup, env, es, it);
    } else {
      ExactlyOneDelete(op, sel, setup, env, es, it.At());
    }
  }
}
