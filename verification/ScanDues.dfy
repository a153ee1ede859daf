/**
 What happens next, in the words of the user: what is due to the file at the head, which answer
 decides what, what Cancel does, and that an operation leaves nothing behind.
*/
module ScanDues {
  import opened Options
  import opened Trees
  import opened ScanSpec
  import opened ScanShape
  import opened ScanRuns
  import opened ScanDeletes
  import opened ScanHistory
  import opened ScanOverwrite
  import opened ScanReasons

  // --- What is due ----------------------------------------------------------------------

  function Transfers(op: Op, it: Item, clash: bool): Action {
    if Downloads(op) then Recv(it, clash) else Send(it, clash)
  }

  function Refusal(op: Op, it: Item): Action {
    if Downloads(op) then RecvRefused(it) else SendRefused(it)
  }

  /** What is due to a file that is to be copied or moved, after the history log. */
  ghost function FileDue(op: Op, setup: Setup, env: Env, log: seq<Action>, it: Item): Action {
    if Uploads(op) && OtherKind(setup, it) then Ask(KindClash, it)
    else if FileInTheWay(op, setup, env, it) && Any(log, SaysNone) then Pass(it)
    else if FileInTheWay(op, setup, env, it) && !Agreed(log, it) then Ask(Overwrite, it)
    else if env.sendOk then Transfers(op, it, FileInTheWay(op, setup, env, it))
    else Refusal(op, it)
  }

  /** The updates of a search of the whole directory. */
  ghost function Listing(setup: Setup, env: Env, dir: Item): seq<Action> {
    seq(|dir.node.kids|, i requires 0 <= i < |dir.node.kids| =>
      var it := Item(dir.At(), dir.node.kids[i]);
      if Gives(env, dir, i) && PathLen(it.At()) < setup.room then Queue(it) else Missed(it))
  }

  /** What is due to a directory. */
  ghost function DirDues(op: Op, setup: Setup, env: Env, log: seq<Action>, it: Item): seq<Action> {
    if Remote(op) then [if env.sendOk then List(it) else Finish(true)]
    else if Uploads(op) && OtherKind(setup, it) then [Ask(KindClash, it)]
    else if Uploads(op) && Shown(setup, it) && !DirAgreed(log, it) then [Ask(ReplaceDir, it)]
    else if env.findOk then Listing(setup, env, it) + [LocalListed(it)]
    else [Stall]
  }

  /** How something is deleted; left says that it is the last thing an operation does with it. */
  ghost function DeleteDue(op: Op, env: Env, it: Item, left: bool): Action {
    if Remote(op) then if env.sendOk then AskDelete(it) else if left then Stall else Finish(true)
    else if it.node.dir || env.canDelete(it.At()) then LocalDelete(it)
    else Ask(Failure, it)
  }

  /** The updates that are due next: to the head of lsScan, and when that is empty to the head of
      lsScanDel. */
  ghost function Dues(op: Op, setup: Setup, env: Env, log: seq<Action>, todo: seq<Item>, del: seq<Item>): seq<Action> {
    if todo == [] then [if del == [] then Finish(false) else DeleteDue(op, env, del[0], true)]
    else if Local(op) && !Short(setup, todo[0]) then [TooLong(todo[0])]
    else if todo[0].node.dir then DirDues(op, setup, env, log, todo[0])
    else if Deletes(op) then [DeleteDue(op, env, todo[0], false)]
    else [FileDue(op, setup, env, log, todo[0])]
  }

  // --- The step begins with it ----------------------------------------------------------

  /** The request loop goes on after these. */
  predicate GoesOn(a: Action) { a.Pass? || a.TooLong? || a.LocalDelete? }

  /** The step does a; then the loop goes on, or the operation ends, or the step is over. */
  ghost predicate Begins(s: Scan, env: Env, a: Action) {
    NextStep(s, env) ==
    if GoesOn(a) then NextStep(Do(s, a), env) else if a.RecvRefused? then End(Do(s, a)) else Do(s, a)
  }

  /** The step may do a and does. */
  ghost predicate Pays(s: Scan, env: Env, a: Action) { Can(s, a) && Begins(s, env, a) }

  /** What the flags make of a file. */
  function FileByFlags(s: Scan, env: Env, it: Item): Action {
    if Uploads(s.op) then
      match CheckPanel(s, it)
      case PassIt => Pass(it)
      case AskIt(box) => Ask(box, it)
      case Proceed(clash) => if env.sendOk then Send(it, clash) else SendRefused(it)
    else if !s.flags.over && env.isFile(it.At()) then
      if s.flags.noOver then Pass(it) else Ask(Overwrite, it)
    else if env.sendOk then Recv(it, env.isFile(it.At()))
    else RecvRefused(it)
  }

  /** A file is to be copied or moved next. */
  predicate FileNext(s: Scan) {
    && Ready(s) && s.op in {RLCopy, RLMove, LRCopy, LRMove} && s.todo != [] && !s.todo[0].node.dir
    && (Local(s.op) ==> Short(s.setup, s.todo[0]))
  }

  lemma WordsRule(s: Scan, env: Env)
    requires Shape(s) && Worded(s) && FileNext(s)
    ensures FileByFlags(s, env, s.todo[0]) == FileDue(s.job, s.setup, env, s.log, s.todo[0])
  {
    FlagsAreWords(s);
    if Uploads(s.op) { PanelSays(s, s.todo[0]); }
  }

  lemma FileCan(s: Scan, env: Env)
    requires Shape(s) && Worded(s) && FileNext(s)
    ensures Can(s, FileByFlags(s, env, s.todo[0]))
  {
    if Uploads(s.op) { PanelSays(s, s.todo[0]); }
  }

  lemma DownloadBegins(s: Scan, env: Env)
    requires FileNext(s) && Downloads(s.op)
    ensures Begins(s, env, FileByFlags(s, env, s.todo[0]))
  {
    var a := FileByFlags(s, env, s.todo[0]);
    if a.Pass? { assert SendRequest(s, env) == SendRequest(Do(s, a), env); }
  }

  lemma UploadBegins(s: Scan, env: Env)
    requires FileNext(s) && Uploads(s.op)
    ensures Begins(s, env, FileByFlags(s, env, s.todo[0]))
  {
    var a := FileByFlags(s, env, s.todo[0]);
    if a.Pass? {
      assert LocalRequest(s, env) == LocalRequest(Do(s, a), env);
    } else {
      assert LocalRequest(s, env) == (Do(s, a), false);
    }
  }

  lemma FilePaid(s: Scan, env: Env)
    requires Shape(s) && Worded(s) && FileNext(s)
    ensures Pays(s, env, FileDue(s.job, s.setup, env, s.log, s.todo[0]))
  {
    WordsRule(s, env);
    FileCan(s, env);
    if Uploads(s.op) { UploadBegins(s, env); } else { DownloadBegins(s, env); }
  }

  lemma TooLongPaid(s: Scan, env: Env)
    requires Shape(s) && Ready(s) && Local(s.op) && s.todo != [] && !Short(s.setup, s.todo[0])
    ensures Pays(s, env, TooLong(s.todo[0]))
  {
    assert LocalRequest(s, env) == LocalRequest(Do(s, TooLong(s.todo[0])), env);
  }

  // --- Directories ----------------------------------------------------------------------

  lemma ListingGoesOn(s: Scan, env: Env)
    requires s.todo != [] && s.given < |s.todo[0].node.kids|
    ensures var all := Listing(s.setup, env, s.todo[0]);
            |all| == |s.todo[0].node.kids| && all[s.given..] == [NextListed(s, env)] + all[s.given + 1..]
  {
  }

  lemma Appended(log: seq<Action>, a: Action, rest: seq<Action>, last: Action)
    ensures (log + [a]) + rest + [last] == log + ([a] + rest) + [last]
  {
  }

  lemma {:induction false} ListsAll(s: Scan, env: Env)
    requires s.todo != [] && s.todo[0].node.dir && s.given <= |s.todo[0].node.kids| && Local(s.op)
    ensures |Listing(s.setup, env, s.todo[0])| == |s.todo[0].node.kids|
    ensures ListLocal(s, env).log == s.log + Listing(s.setup, env, s.todo[0])[s.given..] + [LocalListed(s.todo[0])]
    decreases |s.todo[0].node.kids| - s.given
  {
    var head := s.todo[0];
    if s.given < |head.node.kids| {
      var a := NextListed(s, env);
      ListingGoesOn(s, env);
      HeadStays(s, a);
      ListsAll(Do(s, a), env);
      Appended(s.log, a, Listing(s.setup, env, head)[s.given + 1..], LocalListed(head));
      assert ListLocal(s, env) == ListLocal(Do(s, a), env);
    } else {
      assert ListLocal(s, env) == Do(s, LocalListed(head));
    }
  }

  lemma HeadStays(s: Scan, a: Action)
    requires s.todo != [] && s.todo[0].node.dir && (a.Queue? || a.Missed?)
    ensures var t := Do(s, a); t.todo != [] && t.todo[0] == s.todo[0] && t.given == s.given + 1
    ensures var t := Do(s, a); t.setup == s.setup && t.op == s.op && t.log == s.log + [a]
  {
  }

  /** A directory is searched: all its entries are listed, and the step is over. */
  predicate IsSearched(s: Scan, env: Env) {
    && Local(s.op) && s.todo != [] && s.todo[0].node.dir && Short(s.setup, s.todo[0])
    && CheckPanel(s, s.todo[0]).Proceed? && env.findOk
  }

  lemma SearchPaid(s: Scan, env: Env)
    requires Shape(s) && Worded(s) && Ready(s) && IsSearched(s, env)
    ensures NextStep(s, env).log == s.log + DirDues(s.job, s.setup, env, s.log, s.todo[0])
    ensures var ds := DirDues(s.job, s.setup, env, s.log, s.todo[0]); ds != [] && ds[|ds| - 1] == LocalListed(s.todo[0])
  {
    if s.op != LDelete { PanelSays(s, s.todo[0]); }
    assert s.(given := 0) == s;
    ListsAll(s, env);
  }

  lemma LocalDirPaid(s: Scan, env: Env)
    requires Shape(s) && Worded(s) && Ready(s) && Local(s.op) && s.todo != [] && s.todo[0].node.dir
    requires Short(s.setup, s.todo[0]) && !IsSearched(s, env)
    ensures var ds := DirDues(s.job, s.setup, env, s.log, s.todo[0]); |ds| == 1 && Pays(s, env, ds[0])
  {
    if s.op != LDelete { PanelSays(s, s.todo[0]); }
  }

  lemma RemoteDirPaid(s: Scan, env: Env)
    requires Shape(s) && Worded(s) && Ready(s) && Remote(s.op) && s.todo != [] && s.todo[0].node.dir
    ensures var ds := DirDues(s.job, s.setup, env, s.log, s.todo[0]); |ds| == 1 && Pays(s, env, ds[0])
  {
  }

  // --- Deletions ------------------------------------------------------------------------

  lemma DeletePaid(s: Scan, env: Env)
    requires Shape(s) && Worded(s) && Ready(s) && Deletes(s.op) && s.todo != [] && !s.todo[0].node.dir
    requires Local(s.op) ==> Short(s.setup, s.todo[0])
    ensures Pays(s, env, DeleteDue(s.job, env, s.todo[0], false))
  {
    var a := DeleteDue(s.job, env, s.todo[0], false);
    if a.LocalDelete? { assert LocalRequest(s, env) == LocalRequest(Do(s, a), env); }
  }

  lemma LastPaid(s: Scan, env: Env)
    requires Shape(s) && Worded(s) && Ready(s) && s.todo == []
    ensures Pays(s, env, if s.del == [] then Finish(false) else DeleteDue(s.job, env, s.del[0], true))
  {
    if s.del != [] {
      var a := DeleteDue(s.job, env, s.del[0], true);
      if a.LocalDelete? { assert LocalRequest(s, env) == LocalRequest(Do(s, a), env); }
    }
  }

  lemma DuesPaid(s: Scan, env: Env)
    requires Shape(s) && Worded(s) && Ready(s) && !IsSearched(s, env)
    ensures var ds := Dues(s.job, s.setup, env, s.log, s.todo, s.del); |ds| == 1 && Pays(s, env, ds[0])
  {
    if s.todo == [] { LastPaid(s, env); }
    else if Local(s.op) && !Short(s.setup, s.todo[0]) { TooLongPaid(s, env); }
    else if s.todo[0].node.dir { if Local(s.op) { LocalDirPaid(s, env); } else { RemoteDirPaid(s, env); } }
    else if Deletes(s.op) { DeletePaid(s, env); }
    else { FilePaid(s, env); }
  }

  // --- The whole step -------------------------------------------------------------------

  /** All that is due in a step: after a name that is too long, a file passed over and a local
      deletion the next item has its turn. */
  ghost function Work(op: Op, setup: Setup, env: Env, log: seq<Action>, todo: seq<Item>, del: seq<Item>): seq<Action>
    decreases |todo| + |del|
  {
    var ds := Dues(op, setup, env, log, todo, del);
    if |ds| == 1 && GoesOn(ds[0]) && todo != [] then ds + Work(op, setup, env, log + ds, todo[1..], del)
    else if |ds| == 1 && GoesOn(ds[0]) && del != [] then ds + Work(op, setup, env, log + ds, todo, del[1..])
    else if |ds| == 1 && ds[0].RecvRefused? then ds + [Finish(true)]
    else ds
  }

  lemma GoneOn(s: Scan, a: Action)
    requires Shape(s) && Worded(s) && Can(s, a) && GoesOn(a)
    ensures var t := Do(s, a);
            && Shape(t) && Worded(t) && Ready(t) && t.log == s.log + [a] && t.job == s.job && t.setup == s.setup
            && t.todo == (if s.todo != [] then s.todo[1..] else s.todo)
            && t.del == (if s.todo != [] then s.del else s.del[1..])
            && (s.todo != [] || s.del != [])
  {
    ShapeKept(s, a);
    Shifts(s, a);
    WordedAfter(s, a);
    FlagsAfter(s, a);
    NextWait(s, a);
  }

  /** The step does what is due. */
  ghost predicate DoesWork(s: Scan, env: Env) {
    NextStep(s, env).log == s.log + Work(s.job, s.setup, env, s.log, s.todo, s.del)
  }

  lemma SearchIsWork(s: Scan, env: Env)
    requires Shape(s) && Worded(s) && Ready(s) && IsSearched(s, env)
    ensures DoesWork(s, env)
  {
    SearchPaid(s, env);
    var ds := Dues(s.job, s.setup, env, s.log, s.todo, s.del);
    assert ds[|ds| - 1].LocalListed?;
  }

  lemma LastIsWork(s: Scan, env: Env, a: Action)
    requires Shape(s) && Pays(s, env, a) && !GoesOn(a) && Dues(s.job, s.setup, env, s.log, s.todo, s.del) == [a]
    ensures DoesWork(s, env)
  {
    Shifts(s, a);
    if a.RecvRefused? {
      assert Do(s, a).todo != [];
      assert s.log + [a] + [Finish(true)] == s.log + ([a] + [Finish(true)]);
    }
  }

  lemma WorkGoesOn(s: Scan, env: Env, a: Action, t: Scan)
    requires Dues(s.job, s.setup, env, s.log, s.todo, s.del) == [a] && GoesOn(a) && (s.todo != [] || s.del != [])
    requires t.log == s.log + [a] && t.job == s.job && t.setup == s.setup
    requires t.todo == (if s.todo != [] then s.todo[1..] else s.todo) && t.del == (if s.todo != [] then s.del else s.del[1..])
    ensures Work(s.job, s.setup, env, s.log, s.todo, s.del) == [a] + Work(t.job, t.setup, env, t.log, t.todo, t.del)
  {
  }

  lemma Chained(log: seq<Action>, a: Action, rest: seq<Action>, more: seq<Action>, all: seq<Action>)
    requires more == (log + [a]) + rest && all == [a] + rest
    ensures more == log + all
  {
  }

  /** A step that is not cancelled does exactly what is due. */
  lemma {:induction false} StepDoesWork(s: Scan, env: Env)
    requires Shape(s) && Worded(s) && Ready(s)
    ensures DoesWork(s, env)
    decreases |s.todo| + |s.del|
  {
    if IsSearched(s, env) {
      SearchIsWork(s, env);
    } else {
      DuesPaid(s, env);
      var a := Dues(s.job, s.setup, env, s.log, s.todo, s.del)[0];
      if GoesOn(a) {
        var t := Do(s, a);
        GoneOn(s, a);
        StepDoesWork(t, env);
        WorkGoesOn(s, env, a, t);
        Chained(s.log, a, Work(t.job, t.setup, env, t.log, t.todo, t.del),
                NextStep(s, env).log, Work(s.job, s.setup, env, s.log, s.todo, s.del));
      } else {
        LastIsWork(s, env, a);
      }
    }
  }
}
