/**
 The logon handshake of clntconn.c between the RFB thread, which asks for a password or a
 credential and waits, and the window's thread, which submits one. Every access to the shared
 record is a step of its own and the steps of the two threads interleave in any way that the
 mutex allows; the RFB thread takes the record without the mutex.
*/
module Logon {
  import opened Options

  /** A submitted CCLOGONINFO; id tells the submissions apart. */
  datatype Rec = Rec(id: nat, cred: bool)

  /** A heap object of the size of CCLOGONINFO: allocated, written, freed. */
  datatype Cell = Raw | Full(rec: Rec) | Dead

  datatype RfbState = InitProgress | WaitFor(cred: bool) | Finish

  /** What _logonInfoToThread has taken: nothing, undefined memory, or a record. */
  datatype Got = Nothing | Garbage | Genuine(rec: Rec)

  /** Where the RFB thread is in _logonInfoToThread. */
  datatype Pc =
    | Outside
    | Cleared                          // a left-over record was freed
    | Announced                        // the state says what is wanted
    | Waiting                          // the event was reset
    | Awake
    | Copying(obj: nat, torn: bool)    // torn: the object was not written when copying began
    | Copied(got: Got)
    | Freed(got: Got)
    | Leaving(got: Got)

  /** Where the window's thread is in ccSendLogonInfo once its record was accepted; it holds
      the mutex until it is Idle again. */
  datatype Gui = Idle | Entered(rec: Rec) | Emptied(rec: Rec) | Allocated(rec: Rec, obj: nat) | Filled(rec: Rec)

  /** The request during which a submission was accepted, its kind, and whether the wait of the
      request was already over. */
  datatype Submission = Submission(request: nat, cred: bool, past: bool)

  /** What a request handed to the library, and whether a submission got in the way of the copy. */
  datatype Handed = Handed(request: nat, want: bool, got: Got, crossed: bool)

  datatype Conn = Conn(
    state: RfbState, posted: bool, pLogonInfo: Option<nat>, heap: seq<Cell>,
    pc: Pc, want: bool, request: nat, gui: Gui,
    // history; the last four are about the current request. late: a submission went on or began
    // after the wait. crossed: the copy began while the window's thread was between freeing the
    // old record and writing the new one, or the old record was freed while it was copied.
    accepted: seq<Submission>, handed: seq<Handed>, done: nat, entered: nat, late: bool, crossed: bool)

  datatype Step =
    // RFB thread
    | Clear(cred: bool)
    | Announce
    | Reset
    | Wake
    | WaitFails
    | FindNothing
    | RefuseKind                       // the kind check reads the caller's unfilled record
    | BeginCopy
    | EndCopy
    | FreeRecord
    | NullPointer
    | Leave
    // window's thread
    | Submit(cred: bool)
    | GuiFree
    | GuiAlloc
    | GuiFill
    | GuiPost
    // the watchdog of ccThreadWatchdog
    | Stop

  /** The wait is over. */
  predicate Past(pc: Pc) {
    pc.Awake? || pc.Copying? || pc.Copied? || pc.Freed? || pc.Leaving?
  }

  predicate Can(c: Conn, s: Step) {
    match s
    case Clear(_) => c.pc.Outside?
    case Announce => c.pc.Cleared? && c.gui.Idle?
    case Reset => c.pc.Announced?
    case Wake => c.pc.Waiting? && c.posted
    case WaitFails => c.pc.Waiting?
    case FindNothing => c.pc.Awake? && c.pLogonInfo.None?
    case RefuseKind => c.pc.Awake? && c.pLogonInfo.Some?
    case BeginCopy => c.pc.Awake? && c.pLogonInfo.Some? && c.pLogonInfo.value < |c.heap|
    case EndCopy => c.pc.Copying? && c.pc.obj < |c.heap|
    case FreeRecord => c.pc.Copied?
    case NullPointer => c.pc.Freed?
    case Leave => c.pc.Leaving? && c.gui.Idle?
    case Submit(_) => c.gui.Idle?
    case GuiFree => c.gui.Entered?
    case GuiAlloc => c.gui.Emptied?
    case GuiFill => c.gui.Allocated? && c.gui.obj < |c.heap|
    case GuiPost => c.gui.Filled?
    case Stop => c.gui.Idle?
  }

  function Kill(c: Conn): seq<Cell> {
    if c.pLogonInfo.Some? && c.pLogonInfo.value < |c.heap| then c.heap[c.pLogonInfo.value := Dead] else c.heap
  }

  function Next(c: Conn, s: Step): Conn
    requires Can(c, s)
  {
    match s
    case Clear(cred) =>
      c.(heap := Kill(c), pLogonInfo := None, pc := Cleared, want := cred, request := c.request + 1,
         done := 0, entered := 0, late := false, crossed := false)
    case Announce => c.(state := WaitFor(c.want), posted := true, pc := Announced)
    case Reset => c.(posted := false, pc := Waiting)
    case Wake => c.(posted := false, pc := Awake, late := c.late || !c.gui.Idle?)
    case WaitFails => c.(pc := Outside)
    case FindNothing => c.(pc := Leaving(Nothing))
    case RefuseKind => c.(pc := Leaving(Nothing))
    case BeginCopy =>
      c.(pc := Copying(c.pLogonInfo.value, !c.heap[c.pLogonInfo.value].Full?),
         crossed := c.gui.Emptied? || c.gui.Allocated?)
    case EndCopy =>
      var cell := c.heap[c.pc.obj];
      c.(pc := Copied(if !c.pc.torn && cell.Full? then Genuine(cell.rec) else Garbage))
    case FreeRecord => c.(heap := Kill(c), pc := Freed(c.pc.got))
    case NullPointer => c.(pLogonInfo := None, pc := Leaving(c.pc.got))
    case Leave =>
      c.(state := InitProgress, posted := true, pc := Outside,
         handed := if c.pc.got.Nothing? then c.handed else c.handed + [Handed(c.request, c.want, c.pc.got, c.crossed)])
    case Submit(cred) =>
      if c.state != WaitFor(cred) then c
      else
        c.(gui := Entered(Rec(|c.accepted|, cred)),
           accepted := c.accepted + [Submission(c.request, cred, Past(c.pc))],
           entered := c.entered + 1, late := c.late || Past(c.pc))
    case GuiFree => c.(heap := Kill(c), gui := Emptied(c.gui.rec), crossed := c.crossed || c.pc.Copying?)
    case GuiAlloc =>
      c.(heap := c.heap + [Raw], pLogonInfo := Some(|c.heap|), gui := Allocated(c.gui.rec, |c.heap|))
    case GuiFill =>
      c.(heap := if c.heap[c.gui.obj].Dead? then c.heap else c.heap[c.gui.obj := Full(c.gui.rec)],
         gui := Filled(c.gui.rec))
    case GuiPost => c.(posted := true, done := c.done + 1, gui := Idle)
    case Stop => c.(state := Finish, posted := true)
  }

  const START := Conn(InitProgress, false, None, [], Outside, false, 0, Idle, [], [], 0, 0, false, false)

  ghost predicate Runs(c: Conn, ss: seq<Step>)
    decreases ss
  {
    ss == [] || (Can(c, ss[0]) && Runs(Next(c, ss[0]), ss[1..]))
  }

  function After(c: Conn, ss: seq<Step>): Conn
    requires Runs(c, ss)
    decreases ss
  {
    if ss == [] then c else After(Next(c, ss[0]), ss[1..])
  }

  /** Some interleaving leads to c; failed says whether a wait may have failed on the way. */
  ghost predicate Reachable(c: Conn, failed: bool) {
    exists ss :: Runs(START, ss) && After(START, ss) == c && (WaitFails in ss ==> failed)
  }

  /** A request begins after a failed wait. */
  ghost predicate Resumes(ss: seq<Step>) {
    exists i, j | 0 <= i < j < |ss| :: ss[i].WaitFails? && ss[j].Clear?
  }

  /** Some interleaving in which no request begins after a failed wait leads to c. */
  ghost predicate Steady(c: Conn) {
    exists ss :: Runs(START, ss) && After(START, ss) == c && !Resumes(ss)
  }

  // --- What every interleaving keeps --------------------------------------------------

  function Submissions(accepted: seq<Submission>, request: nat): nat {
    if accepted == [] then 0
    else Submissions(accepted[..|accepted| - 1], request) + if accepted[|accepted| - 1].request == request then 1 else 0
  }

  /** The record was submitted during the current request and has the kind it asks for. */
  predicate Current(c: Conn, r: Rec) {
    && r.id < |c.accepted| && r.cred == c.want
    && c.accepted[r.id].request == c.request && c.accepted[r.id].cred == c.want
  }

  predicate Busy(c: Conn) { !c.gui.Idle? }

  /** Who may be where. */
  predicate Places(c: Conn) {
    && (Busy(c) ==> c.state == WaitFor(c.want) && Current(c, c.gui.rec))
    && (c.state.WaitFor? ==> c.state.cred == c.want && !c.pc.Outside? && !c.pc.Cleared?)
    && (c.pc.Cleared? ==> c.pLogonInfo.None?)
  }

  predicate Holds(c: Conn, obj: nat) {
    obj < |c.heap| && (c.heap[obj].Full? ==> Current(c, c.heap[obj].rec))
  }

  /** The shared record. */
  predicate Shared(c: Conn) {
    && (!c.pc.Outside? && c.pLogonInfo.Some? ==> Holds(c, c.pLogonInfo.value))
    && (c.gui.Emptied? && c.pLogonInfo.Some? && c.pLogonInfo.value < |c.heap| ==> c.heap[c.pLogonInfo.value].Dead?)
    && (c.gui.Allocated? ==> c.gui.obj < |c.heap| && !c.heap[c.gui.obj].Full?)
  }

  /** The copies of it. */
  predicate Copies(c: Conn) {
    && (c.pc.Copying? ==>
          c.pc.obj < |c.heap| && (!c.heap[c.pc.obj].Dead? ==> c.pLogonInfo == Some(c.pc.obj)))
    && ((c.pc.Copied? || c.pc.Freed? || c.pc.Leaving?) && c.pc.got.Genuine? ==> Current(c, c.pc.got.rec))
  }

  /** Before the copy begins the shared record is complete but for the middle of a submission. */
  predicate Untorn(c: Conn) {
    && (c.pc.Announced? || c.pc.Waiting? || c.pc.Awake? ==>
          && !c.crossed
          && ((c.gui.Idle? || c.gui.Entered?) && c.pLogonInfo.Some? ==> FullAt(c))
          && (c.gui.Allocated? ==> c.pLogonInfo == Some(c.gui.obj) && c.gui.obj < |c.heap| && c.heap[c.gui.obj].Raw?)
          && (c.gui.Filled? ==> FullAt(c)))
    && (c.pc.Cleared? ==> !c.crossed)
  }

  /** The copy is undefined exactly if a submission crossed it. */
  predicate Crossing(c: Conn) {
    && (c.pc.Copying? ==>
          && (c.crossed <==> c.pc.torn || !(c.pc.obj < |c.heap| && c.heap[c.pc.obj].Full?))
          && (c.gui.Emptied? || c.gui.Allocated? ==> c.crossed)
          && (c.gui.Allocated? && c.gui.obj == c.pc.obj ==> c.pc.torn))
    && (c.pc.Copied? || c.pc.Freed? || c.pc.Leaving? ==> (c.pc.got.Garbage? <==> c.crossed))
  }

  /** A submission after the wait is a second one. */
  predicate Late(c: Conn) {
    && (Past(c.pc) && Busy(c) ==> c.late)
    && (c.crossed ==> c.late)
    && (forall i | 0 <= i < |c.accepted| ::
          c.accepted[i].past && c.accepted[i].request == c.request && !c.pc.Outside? ==> c.late)
  }

  predicate FullAt(c: Conn) {
    c.pLogonInfo.Some? && c.pLogonInfo.value < |c.heap| && c.heap[c.pLogonInfo.value].Full?
  }

  /** The wait ends by a complete submission, unless the connection is stopped. */
  predicate Counts(c: Conn) {
    && (!c.pc.Outside? ==> c.entered == c.done + (if Busy(c) then 1 else 0))
    && ((c.pc.Waiting? && c.posted) || Past(c.pc) ==> c.state.WaitFor? ==> c.done >= 1)
    && (c.late ==> c.entered >= 2)
    && c.entered == Submissions(c.accepted, c.request)
    && forall i | 0 <= i < |c.accepted| :: c.accepted[i].request <= c.request
  }

  predicate Proper(c: Conn, h: Handed) {
    && h.request <= c.request
    && (h.got.Genuine? ==>
          && h.got.rec.id < |c.accepted| && h.got.rec.cred == h.want
          && c.accepted[h.got.rec.id].request == h.request && c.accepted[h.got.rec.id].cred == h.want
          && (c.accepted[h.got.rec.id].past ==> Submissions(c.accepted, h.request) >= 2))
    && (h.got.Garbage? <==> h.crossed)
    && (h.crossed ==> Submissions(c.accepted, h.request) >= 2)
  }

  predicate History(c: Conn) {
    && (forall i | 0 <= i < |c.handed| :: Proper(c, c.handed[i]))
    && (forall i, j | 0 <= i < j < |c.handed| :: c.handed[i].request < c.handed[j].request)
    && (!c.pc.Outside? && c.handed != [] ==> c.handed[|c.handed| - 1].request < c.request)
  }

  ghost predicate Inv(c: Conn) {
    Places(c) && Shared(c) && Copies(c) && Untorn(c) && Crossing(c) && Late(c) && Counts(c) && History(c)
  }

  lemma PlacesKept(c: Conn, s: Step)
    requires Inv(c) && Can(c, s) && !s.WaitFails?
    ensures Places(Next(c, s))
  {
  }

  lemma SharedKept(c: Conn, s: Step)
    requires Inv(c) && Can(c, s) && !s.WaitFails?
    ensures Shared(Next(c, s))
  {
  }

  lemma CopiesKept(c: Conn, s: Step)
    requires Inv(c) && Can(c, s) && !s.WaitFails?
    ensures Copies(Next(c, s))
  {
  }

  lemma UntornKept(c: Conn, s: Step)
    requires Inv(c) && Can(c, s) && !s.WaitFails?
    ensures Untorn(Next(c, s))
  {
  }

  lemma CrossingKept(c: Conn, s: Step)
    requires Inv(c) && Can(c, s) && !s.WaitFails?
    ensures Crossing(Next(c, s))
  {
  }

  lemma LateKept(c: Conn, s: Step)
    requires Inv(c) && Can(c, s) && !s.WaitFails?
    ensures Late(Next(c, s))
  {
  }

  lemma {:induction false} NoneYet(accepted: seq<Submission>, request: nat)
    requires forall i | 0 <= i < |accepted| :: accepted[i].request < request
    ensures Submissions(accepted, request) == 0
  {
    if accepted != [] { NoneYet(accepted[..|accepted| - 1], request); }
  }

  lemma OneMore(accepted: seq<Submission>, s: Submission, request: nat)
    ensures Submissions(accepted + [s], request) ==
            Submissions(accepted, request) + if s.request == request then 1 else 0
  {
    assert (accepted + [s])[..|accepted|] == accepted;
  }

  lemma CountsNew(c: Conn, s: Step)
    requires Inv(c) && Can(c, s) && (s.Clear? || s.Submit?)
    ensures Counts(Next(c, s))
  {
    if s.Clear? {
      NoneYet(c.accepted, c.request + 1);
    } else {
      OneMore(c.accepted, Submission(c.request, s.cred, Past(c.pc)), c.request);
    }
  }

  lemma CountsKept(c: Conn, s: Step)
    requires Inv(c) && Can(c, s) && !s.WaitFails?
    ensures Counts(Next(c, s))
  {
    if s.Clear? || s.Submit? { CountsNew(c, s); }
  }

  lemma HistorySubmit(c: Conn, cred: bool)
    requires Inv(c) && Can(c, Submit(cred))
    ensures History(Next(c, Submit(cred)))
  {
    var d := Next(c, Submit(cred));
    forall i | 0 <= i < |c.handed|
      ensures Proper(d, c.handed[i])
    {
      OneMore(c.accepted, Submission(c.request, cred, Past(c.pc)), c.handed[i].request);
    }
  }

  lemma HistoryLeave(c: Conn)
    requires Inv(c) && Can(c, Leave)
    ensures History(Next(c, Leave))
  {
    var d := Next(c, Leave);
    forall i | 0 <= i < |d.handed|
      ensures Proper(d, d.handed[i])
    {
      if i < |c.handed| { assert Proper(c, c.handed[i]); }
    }
  }

  lemma HistoryKept(c: Conn, s: Step)
    requires Inv(c) && Can(c, s) && !s.WaitFails?
    ensures History(Next(c, s))
  {
    if s.Submit? {
      HistorySubmit(c, s.cred);
    } else if s.Leave? {
      HistoryLeave(c);
    } else {
      var d := Next(c, s);
      assert d.handed == c.handed && d.accepted == c.accepted && d.request >= c.request;
      assert forall i | 0 <= i < |c.handed| :: Proper(c, c.handed[i]) ==> Proper(d, d.handed[i]);
    }
  }

  /** Every step but a failed wait keeps all of it. */
  lemma StepKeeps(c: Conn, s: Step)
    requires Inv(c) && Can(c, s) && !s.WaitFails?
    ensures Inv(Next(c, s))
  {
    PlacesKept(c, s);
    SharedKept(c, s);
    CopiesKept(c, s);
    UntornKept(c, s);
    CrossingKept(c, s);
    LateKept(c, s);
    CountsKept(c, s);
    HistoryKept(c, s);
  }

  lemma {:induction false} RunKeeps(c: Conn, ss: seq<Step>)
    requires Inv(c) && Runs(c, ss) && WaitFails !in ss
    ensures Inv(After(c, ss))
    decreases ss
  {
    if ss != [] {
      assert ss[0] in ss;
      StepKeeps(c, ss[0]);
      RunKeeps(Next(c, ss[0]), ss[1..]);
    }
  }

  /** What is said about the records that were handed over. */
  ghost predicate Handing(c: Conn) {
    && (forall i | 0 <= i < |c.handed| :: Proper(c, c.handed[i]))
    && (forall i, j | 0 <= i < j < |c.handed| :: c.handed[i].request < c.handed[j].request)
  }

  /** After a failed wait the RFB thread does nothing more until it asks again; submissions may
      still be accepted. */
  lemma FailedKeeps(c: Conn, s: Step)
    requires c.pc.Outside? && Handing(c) && Can(c, s) && !s.Clear?
    ensures Next(c, s).pc.Outside? && Handing(Next(c, s))
  {
    var d := Next(c, s);
    if s.Submit? && c.state == WaitFor(s.cred) {
      forall i | 0 <= i < |c.handed|
        ensures Proper(d, c.handed[i])
      {
        OneMore(c.accepted, Submission(c.request, s.cred, Past(c.pc)), c.handed[i].request);
      }
    } else {
      assert d.handed == c.handed && d.accepted == c.accepted && d.request == c.request;
      assert forall i | 0 <= i < |c.handed| :: Proper(c, c.handed[i]) ==> Proper(d, d.handed[i]);
    }
  }

  lemma {:induction false} FailedRunKeeps(c: Conn, ss: seq<Step>)
    requires c.pc.Outside? && Handing(c) && Runs(c, ss) && forall s | s in ss :: !s.Clear?
    ensures Handing(After(c, ss))
    decreases ss
  {
    if ss != [] {
      assert ss[0] in ss;
      FailedKeeps(c, ss[0]);
      FailedRunKeeps(Next(c, ss[0]), ss[1..]);
    }
  }

  /** A run whose first step is a failed wait: no request begins any more. */
  lemma NoneBegins(ss: seq<Step>)
    requires ss != [] && ss[0].WaitFails? && !Resumes(ss)
    ensures forall s | s in ss[1..] :: !s.Clear?
  {
    forall s | s in ss[1..]
      ensures !s.Clear?
    {
      var k :| 0 <= k < |ss| - 1 && ss[1..][k] == s;
      assert ss[k + 1] == s;
    }
  }

  lemma ResumesLater(ss: seq<Step>)
    requires ss != [] && Resumes(ss[1..])
    ensures Resumes(ss)
  {
    var i, j :| 0 <= i < j < |ss[1..]| && ss[1..][i].WaitFails? && ss[1..][j].Clear?;
    assert ss[i + 1].WaitFails? && ss[j + 1].Clear?;
  }

  lemma {:induction false} SteadyKeeps(c: Conn, ss: seq<Step>)
    requires Inv(c) && Runs(c, ss) && !Resumes(ss)
    ensures Handing(After(c, ss))
    decreases ss
  {
    if ss != [] {
      if ss[0].WaitFails? {
        NoneBegins(ss);
        FailedRunKeeps(Next(c, ss[0]), ss[1..]);
      } else {
        if Resumes(ss[1..]) { ResumesLater(ss); }
        StepKeeps(c, ss[0]);
        SteadyKeeps(Next(c, ss[0]), ss[1..]);
      }
    }
  }

  /** In every interleaving in which no request begins after a failed wait, and in particular if no
      wait fails: each request hands over at most one record; it was submitted during that very
      request and has the kind that was asked for, and no submission is handed over twice. It was
      submitted before the wait was over, unless another one was submitted before it. What is
      handed over is undefined if and only if a submission crossed the copy, and that one was a
      second submission. */
  lemma HandsOverCurrentRecords(c: Conn, i: nat)
    requires Steady(c) && i < |c.handed|
    ensures
      var h := c.handed[i];
      && (h.got.Genuine? ==>
            && h.got.rec.id < |c.accepted| && h.got.rec.cred == h.want
            && c.accepted[h.got.rec.id].request == h.request && c.accepted[h.got.rec.id].cred == h.want
            && (c.accepted[h.got.rec.id].past ==> Submissions(c.accepted, h.request) >= 2))
      && (h.got.Garbage? <==> h.crossed)
      && (h.crossed ==> Submissions(c.accepted, h.request) >= 2)
      && (forall j | 0 <= j < |c.handed| && j != i ::
            c.handed[j].request != h.request && (h.got.Genuine? ==> c.handed[j].got != h.got))
  {
    var ss :| Runs(START, ss) && After(START, ss) == c && !Resumes(ss);
    SteadyKeeps(START, ss);
    assert Proper(c, c.handed[i]);
    forall j | 0 <= j < |c.handed| && j != i
      ensures c.handed[j].request != c.handed[i].request
      ensures c.handed[i].got.Genuine? ==> c.handed[j].got != c.handed[i].got
    {
      assert Proper(c, c.handed[j]);
    }
  }

  // --- The conditions are needed ------------------------------------------------------

  lemma {:induction false} Append(c: Conn, ss: seq<Step>, s: Step)
    requires Runs(c, ss) && Can(After(c, ss), s)
    ensures Runs(c, ss + [s]) && After(c, ss + [s]) == Next(After(c, ss), s)
    decreases ss
  {
    if ss == [] {
      assert [s][1..] == [];
    } else {
      Append(Next(c, ss[0]), ss[1..], s);
      assert (ss + [s])[1..] == ss[1..] + [s];
    }
  }

  lemma Go(c: Conn, s: Step, failed: bool) returns (d: Conn)
    requires Reachable(c, failed) && Can(c, s) && (s.WaitFails? ==> failed)
    ensures d == Next(c, s) && Reachable(d, failed)
  {
    var ss :| Runs(START, ss) && After(START, ss) == c && (WaitFails in ss ==> failed);
    Append(START, ss, s);
    d := Next(c, s);
    assert WaitFails in ss + [s] ==> failed;
  }

  /** A request up to its wait. */
  lemma Asked(c: Conn, cred: bool, failed: bool) returns (d: Conn)
    requires Reachable(c, failed) && c.pc.Outside? && c.gui.Idle? && c.pLogonInfo.None?
    ensures Reachable(d, failed)
    ensures d == c.(state := WaitFor(cred), posted := false, pc := Waiting, want := cred,
                    request := c.request + 1, done := 0, entered := 0, late := false, crossed := false)
  {
    d := Go(c, Clear(cred), failed);
    d := Go(d, Announce, failed);
    d := Go(d, Reset, failed);
  }

  /** The second half of a submission. */
  lemma Written(c: Conn, failed: bool) returns (d: Conn)
    requires Reachable(c, failed) && c.gui.Emptied?
    ensures Reachable(d, failed)
    ensures d == c.(heap := c.heap + [Full(c.gui.rec)], pLogonInfo := Some(|c.heap|),
                    gui := Idle, posted := true, done := c.done + 1)
  {
    d := Go(c, GuiAlloc, failed);
    d := Go(d, GuiFill, failed);
    assert d.heap == c.heap + [Full(c.gui.rec)];
    d := Go(d, GuiPost, failed);
  }

  /** A request hands over what it copied. */
  lemma Taken(c: Conn, failed: bool) returns (d: Conn)
    requires Reachable(c, failed) && c.pc.Copied? && c.gui.Idle?
    requires c.pLogonInfo.Some? && c.pLogonInfo.value < |c.heap|
    requires !c.pc.got.Nothing?
    ensures Reachable(d, failed)
    ensures d.handed == c.handed + [Handed(c.request, c.want, c.pc.got, c.crossed)] && d.accepted == c.accepted
  {
    d := Go(c, FreeRecord, failed);
    d := Go(d, NullPointer, failed);
    d := Go(d, Leave, failed);
  }

  lemma Submitted(cred: bool) returns (c: Conn)
    ensures Reachable(c, false)
    ensures c == Conn(WaitFor(cred), true, Some(0), [Full(Rec(0, cred))], Waiting, cred, 1, Idle,
                      [Submission(1, cred, false)], [], 1, 1, false, false)
  {
    assert Runs(START, []) && After(START, []) == START;
    c := Asked(START, cred, false);
    c := Go(c, Submit(cred), false);
    c := Go(c, GuiFree, false);
    c := Written(c, false);
  }

  /** A second submission while the record is being copied frees it under the copy. */
  lemma SecondSubmissionCanSpoil(cred: bool) returns (c: Conn)
    ensures Reachable(c, false) && c.handed == [Handed(1, cred, Garbage, true)]
  {
    c := Submitted(cred);
    c := Go(c, Wake, false);
    c := Go(c, BeginCopy, false);
    c := Go(c, Submit(cred), false);
    c := Go(c, GuiFree, false);
    c := Go(c, EndCopy, false);
    c := Written(c, false);
    c := Taken(c, false);
  }

  lemma Stale() returns (c: Conn)
    ensures Reachable(c, true)
    ensures c == Conn(WaitFor(false), true, Some(0), [Full(Rec(0, false))], Cleared, true, 2, Idle,
                      [Submission(1, false, false)], [], 1, 0, false, false)
  {
    assert Runs(START, []) && After(START, []) == START;
    c := Asked(START, false, true);
    c := Go(c, WaitFails, true);
    c := Go(c, Submit(false), true);
    c := Go(c, GuiFree, true);
    c := Go(c, Clear(true), true);
    c := Written(c, true);
  }

  /** Why no request may begin after a failed wait: a submission that is under way when the wait
      fails and the next request begins ends up in that request, even with the wrong kind. It takes
      a library that asks again in spite of the failure. */
  lemma FailedWaitLetsRecordThrough() returns (c: Conn)
    ensures Reachable(c, true) && c.handed == [Handed(2, true, Genuine(Rec(0, false)), false)]
    ensures c.accepted == [Submission(1, false, false)]
  {
    c := Stale();
    c := Go(c, Announce, true);
    c := Go(c, Reset, true);
    c := Go(c, Stop, true);
    c := Go(c, Wake, true);
    c := Go(c, BeginCopy, true);
    c := Go(c, EndCopy, true);
    c := Taken(c, true);
  }

  // --- It works -----------------------------------------------------------------------

  /** Nothing is under way in either thread. */
  predicate Resting(c: Conn) {
    c.pc.Outside? && c.gui.Idle? && (c.pLogonInfo.Some? ==> c.pLogonInfo.value < |c.heap|)
  }

  /** The request asks and waits. */
  function Requested(c: Conn, cred: bool): Conn
    requires Resting(c)
  {
    Next(Next(Next(c, Clear(cred)), Announce), Reset)
  }

  lemma AskingWaits(c: Conn, cred: bool)
    requires Resting(c)
    ensures var d := Requested(c, cred);
      && d.pc.Waiting? && d.gui.Idle? && d.state == WaitFor(cred) && !d.posted && d.pLogonInfo.None? && d.want == cred
      && d.request == c.request + 1 && d.accepted == c.accepted && d.handed == c.handed && !d.late && !d.crossed
  {
  }

  /** The window's thread submits a record, up to the post of the event. */
  function Delivered(c: Conn, cred: bool): Conn
    requires c.gui.Idle? && c.state == WaitFor(cred)
  {
    Next(Next(Next(Next(Next(c, Submit(cred)), GuiFree), GuiAlloc), GuiFill), GuiPost)
  }

  lemma SubmissionIsThere(c: Conn, cred: bool)
    requires c.pc.Waiting? && c.gui.Idle? && c.state == WaitFor(cred) && c.pLogonInfo.None?
    ensures var d := Delivered(c, cred);
      && d.posted && d.gui.Idle? && d.pc.Waiting? && d.state == c.state && d.want == c.want
      && d.pLogonInfo == Some(|c.heap|) && |d.heap| == |c.heap| + 1 && d.heap[|c.heap|] == Full(Rec(|c.accepted|, cred))
      && d.accepted == c.accepted + [Submission(c.request, cred, false)]
      && d.request == c.request && d.handed == c.handed && d.late == c.late && d.crossed == c.crossed
  {
  }

  /** The RFB thread wakes up and takes the record. */
  function TakenOver(c: Conn): Conn
    requires c.pc.Waiting? && c.posted && c.gui.Idle? && c.pLogonInfo.Some? && c.pLogonInfo.value < |c.heap|
  {
    Next(Next(Next(Next(Next(Next(c, Wake), BeginCopy), EndCopy), FreeRecord), NullPointer), Leave)
  }

  lemma TakenIsHanded(c: Conn, rec: Rec)
    requires c.pc.Waiting? && c.posted && c.gui.Idle? && c.pLogonInfo.Some? && c.pLogonInfo.value < |c.heap|
    requires c.heap[c.pLogonInfo.value] == Full(rec)
    ensures var d := TakenOver(c);
      && Resting(d) && d.state == InitProgress && d.pLogonInfo.None?
      && d.handed == c.handed + [Handed(c.request, c.want, Genuine(rec), false)]
  {
  }

  /** In every state of rest a request to which one record of its kind is submitted while it waits
      hands over that record and is at rest again, asking for nothing. */
  lemma LogonHandsOver(c: Conn, cred: bool) returns (d: Conn)
    requires Resting(c)
    ensures Requested(c, cred).gui.Idle? && Requested(c, cred).state == WaitFor(cred)
    ensures var w := Delivered(Requested(c, cred), cred);
      w.pc.Waiting? && w.posted && w.gui.Idle? && w.pLogonInfo.Some? && w.pLogonInfo.value < |w.heap| && d == TakenOver(w)
    ensures Resting(d) && d.state == InitProgress && d.pLogonInfo.None?
    ensures d.handed == c.handed + [Handed(c.request + 1, cred, Genuine(Rec(|c.accepted|, cred)), false)]
  {
    AskingWaits(c, cred);
    var r := Requested(c, cred);
    SubmissionIsThere(r, cred);
    var w := Delivered(r, cred);
    TakenIsHanded(w, Rec(|c.accepted|, cred));
    d := TakenOver(w);
  }

  /** A record of the other kind, or one that nobody asked for, is refused. */
  lemma OthersAreRefused(c: Conn, cred: bool)
    requires c.gui.Idle? && c.state != WaitFor(cred)
    ensures Next(c, Submit(cred)) == c
  {
  }

  /** When the connection is stopped while a request waits, the request ends with nothing. */
  lemma StopEndsRequest(c: Conn, cred: bool)
    requires Resting(c)
    ensures
      var d := Next(Next(Next(Next(Requested(c, cred), Stop), Wake), FindNothing), Leave);
      Resting(d) && d.handed == c.handed && d.accepted == c.accepted
  {
    AskingWaits(c, cred);
  }
}
