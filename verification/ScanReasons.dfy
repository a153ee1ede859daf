/**
 Why the engine does what it does: every update of every run is justified by what the calls of
 its event returned, by what the remote panel shows and by what the user said before, and an
 answer that comes first decides what follows it.
*/
module ScanReasons {
  import opened Options
  import opened Trees
  import opened ScanSpec
  import opened ScanShape
  import opened ScanRuns
  import opened ScanDeletes
  import opened ScanHistory
  import opened ScanOverwrite

  // --- What speaks for an update ------------------------------------------------------

  predicate SaysCancel(a: Action) { a.Pressed? && a.b == CancelButton }

  /** The user's word covers the file: OK for it just now, or ALL before, and no NONE. */
  ghost predicate Agreed(log: seq<Action>, it: Item) {
    (JustOk(log, it) || Any(log, SaysAll)) && !Any(log, SaysNone)
  }

  /** The user said nothing that covers the file. */
  ghost predicate Unasked(log: seq<Action>, it: Item) {
    !JustOk(log, it) && !Any(log, SaysAll) && !Any(log, SaysNone)
  }

  /** There is a file where the file is to go. */
  predicate FileInTheWay(op: Op, setup: Setup, env: Env, it: Item) {
    if Downloads(op) then env.isFile(it.At()) else Shown(setup, it) && !setup.panel[it.node.name]
  }

  /** The remote panel shows something of the other kind. */
  predicate OtherKind(setup: Setup, it: Item) {
    Shown(setup, it) && setup.panel[it.node.name] != it.node.dir
  }

  predicate Short(setup: Setup, it: Item) { PathLen(it.At()) + 4 <= setup.room }

  /** What becomes of the i-th entry of a directory that is searched. */
  predicate Searched(setup: Setup, env: Env, dir: Item, i: nat, a: Action)
    requires i < |dir.node.kids|
  {
    var it := Item(dir.At(), dir.node.kids[i]);
    a == if Gives(env, dir, i) && PathLen(it.At()) < setup.room then Queue(it) else Missed(it)
  }

  /** The last n updates are those for the first n entries of the directory. */
  ghost predicate SearchedTo(setup: Setup, env: Env, log: seq<Action>, dir: Item, n: nat) {
    && n <= |log| && n <= |dir.node.kids|
    && forall k | |log| - n <= k < |log| :: Searched(setup, env, dir, k - (|log| - n), log[k])
  }

  /** A file goes over only if nothing of its name is in the way or the user agreed. */
  ghost predicate MayGo(op: Op, setup: Setup, env: Env, log: seq<Action>, it: Item) {
    FileInTheWay(op, setup, env, it) ==> Agreed(log, it)
  }

  /** Why a is done behind log; cancelled says that Cancel was clicked before. */
  ghost predicate Justified(op: Op, setup: Setup, cancelled: bool, env: Env, log: seq<Action>, a: Action) {
    match a
    case List(_) => env.sendOk
    case LocalListed(it) =>
      && env.findOk && Short(setup, it) && SearchedTo(setup, env, log, it, |it.node.kids|)
      && (Uploads(op) && Shown(setup, it) ==> setup.panel[it.node.name])
    case DirDone(_) => (Downloads(op) ==> env.mkDirOk) && (Uploads(op) ==> env.sendOk)
    case Recv(it, _) => env.sendOk && MayGo(op, setup, env, log, it)
    case RecvRefused(it) => !env.sendOk && MayGo(op, setup, env, log, it)
    case Send(it, _) =>
      env.sendOk && Short(setup, it) && !OtherKind(setup, it) && MayGo(op, setup, env, log, it)
    case SendRefused(it) =>
      !env.sendOk && Short(setup, it) && !OtherKind(setup, it) && MayGo(op, setup, env, log, it)
    case AskDelete(_) => env.sendOk
    case LocalDelete(it) => it.node.dir || env.canDelete(it.At())
    case Ask(box, it) => Asked(op, setup, env, log, box, it)
    case Pass(it) => FileInTheWay(op, setup, env, it) && Any(log, SaysNone)
    case TooLong(it) => !Short(setup, it)
    case Stall => if Local(op) then !env.findOk else !env.sendOk
    case Abort(_) => cancelled || Any(log, SaysCancel)
    case Finish(early) => cancelled || Any(log, SaysCancel) || !env.sendOk || !early
    case Wtf => false
    case _ => true
  }

  ghost predicate Asked(op: Op, setup: Setup, env: Env, log: seq<Action>, box: Box, it: Item) {
    match box
    case Overwrite => FileInTheWay(op, setup, env, it) && Unasked(log, it) && (Uploads(op) ==> Short(setup, it))
    case KindClash => OtherKind(setup, it)
    case ReplaceDir => Shown(setup, it) && it.node.dir && setup.panel[it.node.name] && !DirAgreed(log, it)
    case Failure => !env.canDelete(it.At()) && !it.node.dir
    case Fatal => (Downloads(op) && !env.mkDirOk) || (log != [] && log[|log| - 1] == DeleteReply(it, false))
  }

  // --- What every update of one event keeps -------------------------------------------

  /** A search under way in the event. */
  ghost predicate Searching(s: Scan, env: Env) {
    Quiet(s) && Local(s.op) && s.todo != [] && s.todo[0].node.dir && s.given <= |s.todo[0].node.kids| ==>
      SearchedTo(s.setup, env, s.log, s.todo[0], s.given)
  }

  /** The words of the user, and whose words the flags are. */
  ghost predicate Worded(s: Scan) {
    && Consent(s) && DirConsent(s)
    && (s.op != NoOp ==> s.op == s.job)
  }

  ghost predicate Reasoned(s: Scan, n: nat, c: bool, env: Env) {
    && Worded(s) && Searching(s, env)
    && (s.cancel ==> c || Any(s.log, SaysCancel))
    && forall j | n <= j < |s.log| :: Justified(s.job, s.setup, c, env, s.log[..j], s.log[j])
  }

  lemma AllSnoc(s: Scan, n: nat, c: bool, env: Env, a: Action, t: Scan)
    requires forall j | n <= j < |s.log| :: Justified(s.job, s.setup, c, env, s.log[..j], s.log[j])
    requires Justified(s.job, s.setup, c, env, s.log, a)
    requires t.log == s.log + [a] && t.job == s.job && t.setup == s.setup
    ensures forall j | n <= j < |t.log| :: Justified(t.job, t.setup, c, env, t.log[..j], t.log[j])
  {
    forall j | n <= j < |t.log|
      ensures Justified(t.job, t.setup, c, env, t.log[..j], t.log[j])
    {
      if j < |s.log| { assert t.log[..j] == s.log[..j]; } else { assert t.log[..j] == s.log; }
    }
  }

  /** What the flags say of the file at the head is what the user said. */
  lemma FlagsAreWords(s: Scan)
    requires s.todo != [] && s.op != NoOp && !Deletes(s.op) && FlagsTell(s)
    ensures s.flags.over <==> Agreed(s.log, s.todo[0])
    ensures !s.flags.over && !s.flags.noOver <==> Unasked(s.log, s.todo[0])
    ensures s.flags.noOver <==> Any(s.log, SaysNone)
  {
  }

  /** A file at the head of an upload. */
  lemma PanelSays(s: Scan, it: Item)
    requires s.op != LDelete && it.At() != []
    ensures CheckPanel(s, it) == AskIt(KindClash) <==> OtherKind(s.setup, it)
    ensures CheckPanel(s, it).PassIt? <==> Shown(s.setup, it) && !OtherKind(s.setup, it) && !it.node.dir && s.flags.noOver
    ensures CheckPanel(s, it) == AskIt(Overwrite) <==>
            Shown(s.setup, it) && !OtherKind(s.setup, it) && !it.node.dir && !s.flags.noOver && !s.flags.over
    ensures CheckPanel(s, it) == AskIt(ReplaceDir) <==>
            Shown(s.setup, it) && !OtherKind(s.setup, it) && it.node.dir && !s.flags.dirOver
    ensures CheckPanel(s, it).Proceed? ==> !OtherKind(s.setup, it) && (Shown(s.setup, it) && !it.node.dir ==> s.flags.over)
  {
  }

  lemma TransferReason(s: Scan, c: bool, env: Env, a: Action)
    requires Shape(s) && Can(s, a) && Grounds(s, env, a) && Worded(s)
    requires a.Recv? || a.RecvRefused? || a.Send? || a.SendRefused? || a.Pass?
    ensures Justified(s.job, s.setup, c, env, s.log, a)
  {
    FlagsAreWords(s);
    if Local(s.op) { PanelSays(s, a.it); }
  }

  lemma AskReason(s: Scan, c: bool, env: Env, a: Action)
    requires Shape(s) && Can(s, a) && Grounds(s, env, a) && Worded(s) && a.Ask?
    ensures Justified(s.job, s.setup, c, env, s.log, a)
  {
    if a.box != Failure && a.box != Fatal {
      FlagsAreWords(s);
      if Local(s.op) { PanelSays(s, a.it); }
    }
  }

  lemma OtherReason(s: Scan, c: bool, env: Env, a: Action)
    requires Shape(s) && Can(s, a) && Grounds(s, env, a) && Worded(s) && Searching(s, env)
    requires s.cancel ==> c || Any(s.log, SaysCancel)
    requires !a.Ask? && !a.Recv? && !a.RecvRefused? && !a.Send? && !a.SendRefused? && !a.Pass?
    ensures Justified(s.job, s.setup, c, env, s.log, a)
  {
    if a.LocalListed? && s.op != LDelete { PanelSays(s, a.it); }
  }

  lemma SearchingAfter(s: Scan, env: Env, a: Action, t: Scan)
    requires Shape(s) && Can(s, a) && Grounds(s, env, a) && Searching(s, env)
    requires Shifted(s, a, t) && Now(t) == Next(s, a) && Shape(t) && t.op == (if a.Finish? then NoOp else s.op)
    requires a.Pressed? && a.b == CancelButton ==> t.cancel
    requires a.Abort? ==> t.cancel
    ensures Searching(t, env)
  {
    if a.Queue? || a.Missed? {
      if Quiet(t) && Local(t.op) { SearchedNext(s, env, a, t); }
    } else {
      SearchingElse(s, a, t);
    }
  }

  lemma SearchedNext(s: Scan, env: Env, a: Action, t: Scan)
    requires Can(s, a) && Grounds(s, env, a) && (a.Queue? || a.Missed?) && Local(s.op) && s.given <= |s.log|
    requires SearchedTo(s.setup, env, s.log, s.todo[0], s.given)
    requires t.log == s.log + [a] && t.todo != [] && t.todo[0] == s.todo[0] && t.given == s.given + 1 && t.setup == s.setup
    ensures SearchedTo(t.setup, env, t.log, t.todo[0], t.given)
  {
    forall k | |t.log| - t.given <= k < |t.log|
      ensures Searched(t.setup, env, t.todo[0], k - (|t.log| - t.given), t.log[k])
    {
      if k < |s.log| { assert t.log[k] == s.log[k]; }
    }
  }

  /** Any other update of a search ends it. */
  lemma SearchingElse(s: Scan, a: Action, t: Scan)
    requires Shape(s) && Can(s, a) && !a.Queue? && !a.Missed?
    requires Shifted(s, a, t) && Now(t) == Next(s, a) && Shape(t) && t.op == (if a.Finish? then NoOp else s.op)
    requires a.Pressed? && a.b == CancelButton ==> t.cancel
    requires a.Abort? ==> t.cancel
    ensures Quiet(t) && Local(t.op) ==> t.given == 0
  {
  }

  // --- One event ----------------------------------------------------------------------

  /** Cancel holds from a click on it, or from its button, to the end. */
  lemma CancelAfter(s: Scan, a: Action)
    requires Shape(s) && Can(s, a)
    ensures Do(s, a).cancel <==> !a.Finish? && (s.cancel || SaysCancel(a))
  {
    if a.Pressed? {
      assert Fits(s, AwaitButton(a.box, a.it));
    } else {
      FlagsOther(s, a);
    }
  }

  lemma WordedAfter(s: Scan, a: Action)
    requires Shape(s) && Can(s, a) && Worded(s)
    ensures Worded(Do(s, a))
  {
    ConsentClosed();
    DirConsentClosed();
    Shifts(s, a);
    FlagsAfter(s, a);
  }

  lemma ReasonOf(s: Scan, c: bool, env: Env, a: Action)
    requires Shape(s) && Can(s, a) && Grounds(s, env, a) && Worded(s) && Searching(s, env)
    requires s.cancel ==> c || Any(s.log, SaysCancel)
    ensures Justified(s.job, s.setup, c, env, s.log, a)
  {
    if a.Ask? { AskReason(s, c, env, a); }
    else if a.Recv? || a.RecvRefused? || a.Send? || a.SendRefused? || a.Pass? { TransferReason(s, c, env, a); }
    else { OtherReason(s, c, env, a); }
  }

  lemma ReasonedAfter(s: Scan, n: nat, c: bool, env: Env, a: Action)
    requires Shape(s) && Reasoned(s, n, c, env) && Can(s, a) && Grounds(s, env, a)
    ensures Reasoned(Do(s, a), n, c, env)
  {
    var t := Do(s, a);
    ShapeKept(s, a);
    Shifts(s, a);
    NextWait(s, a);
    FlagsAfter(s, a);
    CancelAfter(s, a);
    WordedAfter(s, a);
    ReasonOf(s, c, env, a);
    AllSnoc(s, n, c, env, a, t);
    SearchingAfter(s, env, a, t);
    SomeSnoc(s.log, a, SaysCancel);
  }

  lemma ReasonedClosed(n: nat, c: bool, env: Env)
    ensures ClosedFor(s => Reasoned(s, n, c, env), env)
  {
    forall s: Scan, a: Action | Shape(s) && Reasoned(s, n, c, env) && Can(s, a) && Grounds(s, env, a)
      ensures Reasoned(Do(s, a), n, c, env)
    {
      ReasonedAfter(s, n, c, env, a);
    }
  }

  /** Everything that happens in the event is justified. */
  lemma EventReasons(s: Scan, e: Event, env: Env)
    requires Shape(s) && Worded(s) && Enabled(s, e) && EnvOf(e) == Some(env)
    ensures forall j | |s.log| <= j < |Step(s, e).log| ::
              Justified(Step(s, e).job, Step(s, e).setup, s.cancel, env, Step(s, e).log[..j], Step(s, e).log[j])
  {
    var n, c := |s.log|, s.cancel;
    if !e.ChunkEvent? || s.cancel {
      var t := Take(s, Answers(e).value);
      TakeShape(s, Answers(e).value);
      ConsentClosed();
      DirConsentClosed();
      ReasonedClosed(n, c, env);
      assert Reasoned(t, n, c, env);
      AnswerKeeps(u => Reasoned(u, n, c, env), s, env, e);
    }
  }

  // --- Whole runs ---------------------------------------------------------------------

  lemma WordedClosed()
    ensures Closed(Worded)
  {
    ConsentClosed();
    DirConsentClosed();
    forall s: Scan, a: Action | Shape(s) && Worded(s) && Can(s, a)
      ensures Worded(Do(s, a))
    {
      WordedAfter(s, a);
    }
    forall s: Scan, p: Pending | Shape(s) && Worded(s) && p in s.pending
      ensures Worded(Take(s, p))
    {
      TakeShape(s, p);
    }
  }

  lemma LoadedWorded(op: Op, sel: seq<Tree>, setup: Setup)
    requires op != NoOp && sel != [] && Forest(sel)
    ensures var s := Load(op, sel, setup);
            Worded(s) && Shape(s) && Ready(s) && s.log == [] && s.job == op && s.setup == setup
  {
    LoadedTop(op, sel, setup);
    SelectedFlags(Fresh(op, setup), sel);
    SelectionShape(Fresh(op, setup), sel);
  }

  /** Every update of the first step of an operation is justified, whatever its calls return. */
  lemma StartHasReasons(op: Op, sel: seq<Tree>, setup: Setup, env: Env)
    requires op != NoOp && sel != [] && Forest(sel)
    ensures forall j | 0 <= j < |Start(op, sel, setup, env).log| ::
              Justified(op, setup, false, env, Start(op, sel, setup, env).log[..j], Start(op, sel, setup, env).log[j])
  {
    LoadedWorded(op, sel, setup);
    LoadSome(op, sel, setup);
    var s := Load(op, sel, setup);
    ReasonedClosed(0, false, env);
    NextKeeps(u => Reasoned(u, 0, false, env), s, env);
    JobStays(op, sel, setup, env, []);
    SetupStays(op, sel, setup, env, []);
  }

  /** In every run, whatever is skipped, refused, cancelled or failing, every update of every
      event is justified by what the calls made in that event returned, by the panel, and by what
      the user said before it. */
  lemma EverythingHasReasons(op: Op, sel: seq<Tree>, setup: Setup, env: Env, es: seq<Event>, e: Event, calls: Env)
    requires op != NoOp && sel != [] && Forest(sel)
    requires Runs(Start(op, sel, setup, env), es) && Enabled(After(Start(op, sel, setup, env), es), e)
    requires EnvOf(e) == Some(calls)
    ensures var s := After(Start(op, sel, setup, env), es); var log := Step(s, e).log;
            forall j | |s.log| <= j < |log| :: Justified(op, setup, s.cancel, calls, log[..j], log[j])
  {
    var s := After(Start(op, sel, setup, env), es);
    LoadedWorded(op, sel, setup);
    WordedClosed();
    Always(Worded, op, sel, setup, env, es);
    EventReasons(s, e, calls);
    JobStays(op, sel, setup, env, es);
    SetupStays(op, sel, setup, env, es);
    StaysPut(s, e);
  }

  lemma StaysPut(s: Scan, e: Event)
    requires Shape(s) && Enabled(s, e)
    ensures Step(s, e).job == s.job && Step(s, e).setup == s.setup
  {
    forall t: Scan, a: Action | Shape(t) && t.job == s.job && t.setup == s.setup && Can(t, a)
      ensures Do(t, a).job == s.job && Do(t, a).setup == s.setup
    {
      Shifts(t, a);
    }
    StepKeeps((t: Scan) => t.job == s.job && t.setup == s.setup, s, e);
  }
}
