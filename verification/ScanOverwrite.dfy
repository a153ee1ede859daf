/**
 Nothing is overwritten without the user's word: what an answer in the overwrite boxes for files
 and directories permits, and for how long.
*/
module ScanOverwrite {
  import opened Options
  import opened Trees
  import opened ScanSpec
  import opened ScanShape
  import opened ScanRuns
  import opened ScanDeletes
  import opened ScanHistory

  predicate SaysAll(a: Action) { a.Pressed? && a.b == AllButton }

  predicate SaysNone(a: Action) { a.Pressed? && a.b == NoneButton }

  predicate SaysOk(a: Action) { a.Pressed? && a.b == OkButton }

  predicate SaysOkFor(a: Action, it: Item) {
    a.Pressed? && a.box == Overwrite && a.it == it && a.b == OkButton
  }

  ghost predicate Any(log: seq<Action>, kind: Action -> bool) { exists a | a in log :: kind(a) }

  /** Overwriting starts directly after an OK for that very file, or after an earlier ALL;
      and never after a NONE. */
  ghost predicate Permitted(log: seq<Action>) {
    forall j | 0 <= j < |log| && Starts(log[j]) && log[j].clash ::
      (JustOk(log[..j], log[j].it) || Any(log[..j], SaysAll)) && !Any(log[..j], SaysNone)
  }

  ghost predicate JustOk(log: seq<Action>, it: Item) {
    log != [] && SaysOkFor(log[|log| - 1], it)
  }

  /** The flags are exactly what the answers so far have left of the user's word. */
  ghost predicate FlagsTell(s: Scan) {
    && (s.flags.over && !s.flags.forAll ==>
          && Idle(s) && s.given == 0 && s.todo != [] && !s.todo[0].node.dir && Askable(s, s.todo[0])
          && JustOk(s.log, s.todo[0]))
    && (s.log != [] && SaysOk(s.log[|s.log| - 1]) ==> s.flags.over)
    && (s.flags.noOver ==> s.flags.forAll)
    && (s.flags.forAll ==> (s.flags.over <==> !s.flags.noOver))
    && (Any(s.log, SaysAll) <==> s.flags.forAll && s.flags.over)
    && (Any(s.log, SaysNone) <==> s.flags.forAll && s.flags.noOver)
    && (s.flags.forAll ==> forall t | t in s.todo :: !t.node.dir)
  }

  /** An overwrite box is open only while no answer for all was given. */
  ghost predicate BoxTells(s: Scan) {
    Now(s).Some? && Now(s).value.AwaitButton? && Now(s).value.box == Overwrite ==>
      && !s.flags.forAll && Askable(s, Now(s).value.it)
      && (Uploads(s.op) ==> ShowsFile(s.setup, Now(s).value.it))
  }

  ghost predicate Consent(s: Scan) {
    Permitted(s.log) && (s.op != NoOp && !Deletes(s.op) ==> FlagsTell(s) && BoxTells(s))
  }

  lemma SomeSnoc(log: seq<Action>, a: Action, kind: Action -> bool)
    ensures Any(log + [a], kind) <==> Any(log, kind) || kind(a)
  {
    assert a in log + [a];
    assert forall b | b in log :: b in log + [a];
  }

  lemma PermittedSnoc(log: seq<Action>, a: Action)
    requires Permitted(log)
    requires Starts(a) && a.clash ==>
               (JustOk(log, a.it) || Any(log, SaysAll)) && !Any(log, SaysNone)
    ensures Permitted(log + [a])
  {
    var next := log + [a];
    assert forall j | 0 <= j < |log| :: next[j] == log[j] && next[..j] == log[..j];
    assert next[|log|] == a && next[..|log|] == log;
  }

  /** Only an open overwrite box can be answered OK, ALL or NONE. */
  lemma PressedTells(s: Scan, a: Action, t: Scan)
    requires Shape(s) && Can(s, a) && a.Pressed? && s.op != NoOp && !Deletes(s.op)
    requires FlagsTell(s) && BoxTells(s)
    requires Shifted(s, a, t) && t.flags == NewFlags(s, a) && t.op == s.op
    requires t.pending == [] && t.busy == None
    ensures FlagsTell(t)
  {
    SomeSnoc(s.log, a, SaysAll);
    SomeSnoc(s.log, a, SaysNone);
    assert Fits(s, AwaitButton(a.box, a.it));
    if a.b in {OkButton, AllButton, NoneButton} {
      forall x | x in s.todo ensures !x.node.dir {
        var i :| 0 <= i < |s.todo| && s.todo[i] == x;
      }
    }
  }

  lemma OtherTells(s: Scan, a: Action, t: Scan)
    requires Shape(s) && Can(s, a) && !a.Pressed? && !a.Finish? && s.op != NoOp && !Deletes(s.op)
    requires FlagsTell(s) && BoxTells(s)
    requires Shifted(s, a, t) && t.flags == NewFlags(s, a) && t.op == s.op
    ensures FlagsTell(t)
  {
    SomeSnoc(s.log, a, SaysAll);
    SomeSnoc(s.log, a, SaysNone);
  }

  lemma BoxAfter(s: Scan, a: Action, t: Scan)
    requires Shape(s) && Can(s, a) && s.op != NoOp && !Deletes(s.op)
    requires FlagsTell(s) && BoxTells(s)
    requires Shifted(s, a, t) && t.flags == NewFlags(s, a) && Now(t) == Next(s, a)
    requires t.op == if a.Finish? then NoOp else s.op
    ensures BoxTells(t)
  {
  }

  lemma ConsentAfter(s: Scan, a: Action, t: Scan)
    requires Shape(s) && Can(s, a) && Consent(s)
    requires Shifted(s, a, t) && t.flags == NewFlags(s, a) && Now(t) == Next(s, a)
    requires t.op == if a.Finish? then NoOp else s.op
    requires a.Pressed? ==> t.pending == [] && t.busy == None
    ensures Consent(t)
  {
    PermittedSnoc(s.log, a);
    if s.op != NoOp && !Deletes(s.op) && !a.Finish? {
      if a.Pressed? { PressedTells(s, a, t); } else { OtherTells(s, a, t); }
      BoxAfter(s, a, t);
    }
  }

  lemma ConsentClosed()
    ensures Closed(Consent)
  {
    forall s: Scan, a: Action | Shape(s) && Consent(s) && Can(s, a)
      ensures Consent(Do(s, a))
    {
      Shifts(s, a);
      NextWait(s, a);
      FlagsAfter(s, a);
      ShapeKept(s, a);
      ConsentAfter(s, a, Do(s, a));
    }
    forall s: Scan, p: Pending | Shape(s) && Consent(s) && p in s.pending
      ensures Consent(Take(s, p))
    {
      TakeShape(s, p);
    }
  }

  /** In every run a transfer onto an existing file starts only right after an OK for that
      very file or after an ALL, and never after a NONE. */
  lemma OverwritesWithConsent(op: Op, sel: seq<Tree>, setup: Setup, env: Env, es: seq<Event>)
    requires op != NoOp && sel != [] && Forest(sel)
    requires Runs(Start(op, sel, setup, env), es)
    ensures Permitted(After(Start(op, sel, setup, env), es).log)
  {
    ConsentClosed();
    LoadedTop(op, sel, setup);
    SelectedFlags(Fresh(op, setup), sel);
    Always(Consent, op, sel, setup, env, es);
  }

  lemma {:induction false} SelectedFlags(s: Scan, sel: seq<Tree>)
    ensures var t := AddSelected(s, sel);
            && t.flags == s.flags && t.op == s.op && t.setup == s.setup
            && t.pending == s.pending && t.busy == s.busy
    decreases sel
  {
    if sel != [] { SelectedFlags(Add(s, Item([], sel[0])), sel[1..]); }
  }

  // --- Directories of the remote panel ------------------------------------------------

  predicate SaysOkForDir(a: Action, it: Item) {
    a.Pressed? && a.box == ReplaceDir && a.it == it && a.b == OkDirButton
  }

  predicate Entry(a: Action) { a.Queue? || a.Missed? }

  /** The user said OK for the directory, and nothing but its entries came after that. */
  ghost predicate DirAgreed(log: seq<Action>, it: Item) {
    exists i | 0 <= i < |log| :: SaysOkForDir(log[i], it) && forall k | i < k < |log| :: Entry(log[k])
  }

  /** A top-level item whose name the remote panel shows. */
  predicate Shown(setup: Setup, it: Item) { |it.At()| == 1 && it.node.name in setup.panel }

  /** Directories that the remote panel shows are listed only with the user's word for them. */
  ghost predicate DirsPermitted(setup: Setup, log: seq<Action>) {
    forall j | 0 <= j < |log| && log[j].LocalListed? && Shown(setup, log[j].it) :: DirAgreed(log[..j], log[j].it)
  }

  ghost predicate DirFlag(s: Scan) {
    && (s.flags.dirOver ==>
          && !s.flags.forAll && Now(s) == None && s.todo != [] && s.todo[0].node.dir
          && Askable(s, s.todo[0]) && DirAgreed(s.log, s.todo[0]))
    && (s.todo != [] && DirAgreed(s.log, s.todo[0]) ==> s.flags.dirOver)
  }

  ghost predicate DirBox(s: Scan) {
    Now(s).Some? && Now(s).value.AwaitButton? && Now(s).value.box == ReplaceDir ==> Askable(s, Now(s).value.it)
  }

  ghost predicate DirConsent(s: Scan) {
    Uploads(s.job) ==> DirsPermitted(s.setup, s.log) && (s.op != NoOp ==> DirFlag(s) && DirBox(s))
  }

  lemma DirsSnoc(setup: Setup, log: seq<Action>, a: Action)
    requires DirsPermitted(setup, log)
    requires a.LocalListed? && Shown(setup, a.it) ==> DirAgreed(log, a.it)
    ensures DirsPermitted(setup, log + [a])
  {
    var next := log + [a];
    assert forall j | 0 <= j < |log| :: next[j] == log[j] && next[..j] == log[..j];
    assert next[|log|] == a && next[..|log|] == log;
  }

  lemma AgreedSnoc(log: seq<Action>, a: Action, it: Item)
    ensures SaysOkForDir(a, it) ==> DirAgreed(log + [a], it)
    ensures DirAgreed(log, it) && Entry(a) ==> DirAgreed(log + [a], it)
  {
    var next := log + [a];
    assert forall j | 0 <= j < |log| :: next[j] == log[j];
    assert next[|log|] == a;
    if DirAgreed(log, it) && Entry(a) {
      var i :| 0 <= i < |log| && SaysOkForDir(log[i], it) && forall k | i < k < |log| :: Entry(log[k]);
      assert SaysOkForDir(next[i], it);
    }
  }

  /** The last update before a step with an agreed directory was a button or an entry. */
  lemma AgreedLast(log: seq<Action>, it: Item)
    requires DirAgreed(log, it)
    ensures log != [] && (log[|log| - 1].Pressed? || Entry(log[|log| - 1]))
  {
  }

  lemma AgreedBefore(log: seq<Action>, a: Action, it: Item)
    requires DirAgreed(log + [a], it)
    ensures SaysOkForDir(a, it) || (Entry(a) && DirAgreed(log, it))
  {
    var next := log + [a];
    var i :| 0 <= i < |next| && SaysOkForDir(next[i], it) && forall k | i < k < |next| :: Entry(next[k]);
    assert next[|log|] == a && forall k | 0 <= k < |log| :: next[k] == log[k];
  }

  lemma DirFlagPressed(s: Scan, a: Action, t: Scan)
    requires Shape(s) && Can(s, a) && a.Pressed? && Uploads(s.op) && DirFlag(s) && DirBox(s)
    requires Shifted(s, a, t) && t.flags == NewFlags(s, a) && Now(t) == Next(s, a) && t.op == s.op
    ensures DirFlag(t)
  {
    AgreedSnoc(s.log, a, a.it);
    if t.todo != [] && DirAgreed(t.log, t.todo[0]) { AgreedBefore(s.log, a, t.todo[0]); }
  }

  lemma DirFlagOther(s: Scan, a: Action, t: Scan)
    requires Shape(s) && Can(s, a) && !a.Pressed? && !a.Finish? && Uploads(s.op) && DirFlag(s)
    requires Shifted(s, a, t) && t.flags == NewFlags(s, a) && Now(t) == Next(s, a) && t.op == s.op
    ensures DirFlag(t)
  {
    if t.flags.dirOver {
      AgreedLast(s.log, s.todo[0]);
      AgreedSnoc(s.log, a, s.todo[0]);
    }
    if t.todo != [] && DirAgreed(t.log, t.todo[0]) { AgreedBefore(s.log, a, t.todo[0]); }
  }

  lemma DirConsentAfter(s: Scan, a: Action, t: Scan)
    requires Shape(s) && Can(s, a) && DirConsent(s)
    requires Shifted(s, a, t) && t.flags == NewFlags(s, a) && Now(t) == Next(s, a)
    requires t.op == if a.Finish? then NoOp else s.op
    ensures DirConsent(t)
  {
    if Uploads(s.job) {
      DirsSnoc(s.setup, s.log, a);
      if !a.Finish? {
        if a.Pressed? { DirFlagPressed(s, a, t); } else { DirFlagOther(s, a, t); }
      }
    }
  }

  lemma DirConsentClosed()
    ensures Closed(DirConsent)
  {
    forall s: Scan, a: Action | Shape(s) && DirConsent(s) && Can(s, a)
      ensures DirConsent(Do(s, a))
    {
      Shifts(s, a);
      NextWait(s, a);
      FlagsAfter(s, a);
      DirConsentAfter(s, a, Do(s, a));
    }
    forall s: Scan, p: Pending | Shape(s) && DirConsent(s) && p in s.pending
      ensures DirConsent(Take(s, p))
    {
      TakeShape(s, p);
    }
  }

  /** In every upload a directory that the remote panel shows is listed, and so copied, only
      right after an OK for that very directory. */
  lemma ReplacesDirectoriesWithConsent(op: Op, sel: seq<Tree>, setup: Setup, env: Env, es: seq<Event>)
    requires Uploads(op) && sel != [] && Forest(sel)
    requires Runs(Start(op, sel, setup, env), es)
    ensures DirsPermitted(setup, After(Start(op, sel, setup, env), es).log)
  {
    DirConsentClosed();
    LoadedTop(op, sel, setup);
    SelectedFlags(Fresh(op, setup), sel);
    JobStays(op, sel, setup, env, es);
    SetupStays(op, sel, setup, env, es);
    Always(DirConsent, op, sel, setup, env, es);
  }

  lemma SetupStays(op: Op, sel: seq<Tree>, setup: Setup, env: Env, es: seq<Event>)
    requires op != NoOp && sel != [] && Forest(sel)
    requires Runs(Start(op, sel, setup, env), es)
    ensures After(Start(op, sel, setup, env), es).setup == setup
  {
    SelectedFlags(Fresh(op, setup), sel);
    forall s: Scan, a: Action | Shape(s) && s.setup == setup && Can(s, a)
      ensures Do(s, a).setup == setup
    {
      Shifts(s, a);
    }
    Always((s: Scan) => s.setup == setup, op, sel, setup, env, es);
  }
}
