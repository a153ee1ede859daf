/**
 What every session of the composition keeps: the slot holds exactly the transfer the engine
 waits for, and how that transfer stands; unless a cancelled transfer lingers there, or a packet
 could not be sent.
*/
module ComposeRuns {
  import opened Options
  import opened Trees
  import opened ScanSpec
  import opened ScanShape
  import opened Compose
  import X = FileXferSpec
  import XRuns = FileXferRuns

  // --- How a transfer stands ----------------------------------------------------------

  predicate Live(x: X.Xfer) { x.slot.Some? && !x.slot.value.sendAbort }

  predicate Reads(cd: X.CdFile) { cd.file.Some? && cd.file.value.Reading? }

  /** A file with the contents c is being sent, and left is what was not sent yet. */
  ghost predicate Sending(x: X.Xfer, c: X.Bytes, told: nat, left: X.Bytes) {
    && Live(x) && !x.slot.value.recv && x.slot.value.file.Some?
    && XRuns.SendState(x, c, told)
    && XRuns.Sent(x.wire) + left == c
    && (Reads(x.slot.value) ==> x.slot.value.file.value.rest == left)
  }

  /** A file is being received, and the local file holds the packets so far. */
  ghost predicate Receiving(x: X.Xfer, from: X.Xfer, local: string, msgs: seq<X.Event>) {
    Live(x) && XRuns.Filling(from, local, Some(X.Unset), x, XRuns.Payload(msgs))
  }

  /** The slot holds the transfer p. */
  ghost predicate Carries(p: Pending, x: X.Xfer, r: Trace)
    requires Transfer(p)
  {
    if p.AwaitRecv? then Receiving(x, r.from, r.local, r.msgs)
    else
      && r.local in r.from.files
      && Sending(x, r.from.files[r.local], XRuns.Count(r.from.told, X.SendEndOfFile), r.left)
  }

  /** The latest request was for the transfer p, by the name of its item on the server, and the
      local file is that of the item. */
  predicate AskedFor(n: Paths, x: X.Xfer, p: Pending, r: Trace)
    requires Transfer(p)
  {
    && r.remote == RemoteName(n, p.it) && r.local == LocalName(n, p.it)
    && XRuns.Asked(x.wire) == Some(if p.AwaitRecv? then X.Request(r.remote) else X.Offer(r.remote))
  }

  ghost predicate Inv(j: Joint) {
    && Shape(j.scan)
    && (Transferring(j.scan) ==> AskedFor(j.scan.setup.paths, j.xfer, j.scan.pending[0], j.trace))
    && (Transferring(j.scan) && j.xfer.slot.Some? ==> Carries(j.scan.pending[0], j.xfer, j.trace))
    && (Live(j.xfer) ==> Transferring(j.scan))
  }

  predicate Chunk(n: X.Notice) { n.RecvChunk? || n.SendChunk? }

  // --- What messages and turns do to it -----------------------------------------------

  /** What a message about an upload tells the window. */
  lemma SendMessageTells(x: X.Xfer, m: X.Event)
    requires Live(x) && !x.slot.value.recv && x.slot.value.file.Some? && FromServer(m)
    ensures
      var y := X.Step(x, m);
      && (y.slot.Some? ==> Live(y) && y.slot.value.file.Some?)
      && (y.slot.Some? && Reads(y.slot.value) ==> y.slot.value.file == x.slot.value.file)
      && (ToldMore(x, y) ==> (Chunk(LastTold(y)) <==> y.slot.Some?) && !LastTold(y).SendEndOfFile?)
      && (ToldMore(x, y) && LastTold(y).RecvEndOfFile? ==> m.End?)
      && (!ToldMore(x, y) ==> y.slot.Some?)
  {
  }

  /** Messages send no file data. */
  lemma MessageSends(x: X.Xfer, m: X.Event)
    requires FromServer(m)
    ensures XRuns.Sent(X.Step(x, m).wire) == XRuns.Sent(x.wire)
  {
    if m.Header? { XRuns.SendAdds(x, X.HeaderReply(m.size != -1), m.replyOk); }
  }

  lemma SendingMessage(x: X.Xfer, m: X.Event, c: X.Bytes, told: nat, left: X.Bytes)
    requires Sending(x, c, told, left) && FromServer(m)
    ensures
      var y := X.Step(x, m);
      && (y.slot.Some? ==> Sending(y, c, told, Unread(y, left)))
      && XRuns.Sent(y.wire) == XRuns.Sent(x.wire)
  {
    XRuns.StepKeeps(x, c, told, m);
    MessageSends(x, m);
    SendMessageTells(x, m);
  }

  /** A packet cannot be sent. */
  predicate Drops(x: X.Xfer, e: JointEvent) {
    && e.Turn? && Live(x) && x.slot.value.sendReady
    && Reads(x.slot.value) && x.slot.value.file.value.rest != []
    && e.t.readOk && !e.t.sendOk
  }

  /** A packet that is not sent leaves the slot empty, and the window is not told. */
  lemma DroppedTurn(x: X.Xfer, e: JointEvent)
    requires Drops(x, e)
    ensures LoopTurn(x, e.t).slot.None? && LoopTurn(x, e.t).told == x.told
  {
    var y := X.Turn(x, e.t).0;
    assert y.slot.value.sendAbort && y.slot.value.sendReady && y.told == x.told;
  }

  /** What a turn tells the window of an upload. */
  lemma TurnTells(x: X.Xfer, e: JointEvent)
    requires Live(x) && !x.slot.value.recv && x.slot.value.file.Some?
    requires e.Turn? && x.slot.value.sendReady && !e.t.cancel
    ensures
      var y := LoopTurn(x, e.t);
      && (!Drops(x, e) ==> y == X.Turn(x, e.t).0 && ToldMore(x, y))
      && (y.slot.Some? ==> Live(y) && !y.slot.value.recv && Reads(y.slot.value))
      && (ToldMore(x, y) ==> (Chunk(LastTold(y)) <==> y.slot.Some?) && !LastTold(y).RecvEndOfFile?)
      && (!ToldMore(x, y) <==> Drops(x, e))
      && (!ToldMore(x, y) ==> y.slot.None?)
  {
    if Drops(x, e) { DroppedTurn(x, e); }
  }

  /** End-of-file is told after the last packet. */
  lemma EofTold(x: X.Xfer, t: X.Tick)
    requires x.slot.Some? && x.slot.value.sendReady && ToldMore(x, X.Turn(x, t).0)
    requires LastTold(X.Turn(x, t).0).SendEndOfFile?
    ensures Reads(x.slot.value) && x.slot.value.file.value.rest == []
    ensures XRuns.Sent(X.Turn(x, t).0.wire) == XRuns.Sent(x.wire)
  {
    XRuns.SendAdds(x, X.Eof, t.sendOk);
  }

  lemma SendingTurn(x: X.Xfer, e: JointEvent, c: X.Bytes, told: nat, left: X.Bytes)
    requires Sending(x, c, told, left) && e.Turn? && x.slot.value.sendReady && !e.t.cancel
    ensures
      var y := LoopTurn(x, e.t);
      && (y.slot.Some? ==> Sending(y, c, told, Unread(y, left)))
      && (ToldMore(x, y) && LastTold(y).SendEndOfFile? ==> XRuns.Sent(y.wire) == c)
  {
    TurnTells(x, e);
    XRuns.TurnKeeps(x, c, told, e.t);
    var y := LoopTurn(x, e.t);
    if ToldMore(x, y) && LastTold(y).SendEndOfFile? { EofTold(x, e.t); }
  }

  /** What a message about a receive tells the window. */
  lemma MessageTells(x: X.Xfer, m: X.Event)
    requires Live(x) && x.slot.value.recv && x.slot.value.file.Some? && !Reads(x.slot.value) && FromServer(m)
    ensures
      var y := X.Step(x, m);
      && (y.slot.Some? ==> Live(y))
      && (ToldMore(x, y) ==> (Chunk(LastTold(y)) <==> y.slot.Some?) && !LastTold(y).SendEndOfFile?)
      && (ToldMore(x, y) && LastTold(y).RecvEndOfFile? ==> m.End?)
      && (!ToldMore(x, y) ==> y.slot.Some?)
  {
  }

  lemma ReceivingMessage(x: X.Xfer, m: X.Event, from: X.Xfer, local: string, msgs: seq<X.Event>)
    requires Receiving(x, from, local, msgs) && FromServer(m)
    ensures
      var y := X.Step(x, m);
      && (y.slot.Some? ==> Receiving(y, from, local, msgs + [m]))
      && (y.slot.None? ==> XRuns.Over(from, local, Some(X.Unset), y, XRuns.Payload(msgs), m))
  {
    XRuns.ReceiveStep(from, local, Some(X.Unset), x, msgs, m);
    MessageTells(x, m);
  }

  /** The server accepted a transfer that is no upload: the send loop gives it up. */
  lemma ReceivingTurn(x: X.Xfer, t: X.Tick)
    requires Live(x) && x.slot.value.recv && !Reads(x.slot.value) && x.slot.value.sendReady
    ensures
      var y := LoopTurn(x, t);
      y.slot.None? && ToldMore(x, y) && LastTold(y).SendReadFail?
  {
  }

  /** What the transfer p did in a message or a turn. */
  ghost predicate Went(j: Joint, e: JointEvent, x: X.Xfer, r: Trace) {
    && (Transferring(j.scan) ==> AskedFor(j.scan.setup.paths, x, j.scan.pending[0], r))
    && (Transferring(j.scan) && x.slot.Some? ==> Carries(j.scan.pending[0], x, r))
    && (Live(x) ==> Transferring(j.scan))
    && (ToldMore(j.xfer, x) ==> Transferring(j.scan) && (Chunk(LastTold(x)) <==> x.slot.Some?))
    && (!ToldMore(j.xfer, x) && Transferring(j.scan) ==> (x.slot.None? <==> Drops(j.xfer, e)))
    && (ToldMore(j.xfer, x) ==> !Drops(j.xfer, e))
  }

  /** Messages and turns ask for nothing. */
  lemma MovedAsks(x: X.Xfer, e: JointEvent)
    ensures XRuns.Asked(Moved(x, e).wire) == XRuns.Asked(x.wire)
  {
    if e.Server? {
      XRuns.StepAsks(x, e.m);
    } else if e.Turn? && x.slot.Some? && x.slot.value.sendReady {
      XRuns.TurnAsks(x, e.t);
      var y := X.Turn(x, e.t).0;
      if y.slot.Some? && y.slot.value.sendReady { XRuns.TurnAsks(y, e.t); }
    }
  }

  lemma CarriedOn(j: Joint, e: JointEvent)
    requires Inv(j) && Transferring(j.scan) && j.xfer.slot.Some? && (e.Server? || e.Turn?)
    requires if e.Server? then FromServer(e.m) else !e.t.cancel && j.xfer.slot.value.sendReady
    ensures Went(j, e, Moved(j.xfer, e), Noted(j.trace, Moved(j.xfer, e), e))
  {
    var p, x, r := j.scan.pending[0], j.xfer, j.trace;
    var local := r.local;
    MovedAsks(x, e);
    if p.AwaitRecv? {
      if e.Server? {
        ReceivingMessage(x, e.m, r.from, local, r.msgs);
        MessageTells(x, e.m);
      } else {
        ReceivingTurn(x, e.t);
      }
    } else {
      var told := XRuns.Count(r.from.told, X.SendEndOfFile);
      if e.Server? {
        SendingMessage(x, e.m, r.from.files[local], told, r.left);
        SendMessageTells(x, e.m);
      } else {
        SendingTurn(x, e, r.from.files[local], told, r.left);
        TurnTells(x, e);
      }
    }
  }

  /** The send loop ends a cancelled transfer without a word. */
  lemma LingeringTurn(x: X.Xfer, t: X.Tick)
    requires x.slot.Some? && x.slot.value.sendAbort && x.slot.value.sendReady
    ensures LoopTurn(x, t).slot.None? && LoopTurn(x, t).told == x.told
  {
  }

  lemma Goes(g: Engine, j: Joint, e: JointEvent)
    requires Inv(j) && Possible(g, j, e) && (e.Server? || e.Turn?)
    ensures Went(j, e, Moved(j.xfer, e), Noted(j.trace, Moved(j.xfer, e), e))
    ensures !Transferring(j.scan) ==> e.Turn? && Moved(j.xfer, e).slot.None? && !Drops(j.xfer, e)
  {
    if Transferring(j.scan) { CarriedOn(j, e); } else { LingeringTurn(j.xfer, e.t); }
  }

  // --- What the engine's calls do to it -----------------------------------------------

  lemma BeginCarries(n: Paths, x: X.Xfer, a: Action)
    requires Begins(a) && Granted(n, x, a)
    ensures x.slot.None? && Call(n, x, a).slot.Some? && Carries(AwaitOf(a), Call(n, x, a), Opened(n, x, a))
    ensures AskedFor(n, Call(n, x, a), AwaitOf(a), Opened(n, x, a))
  {
    if a.Send? {
      var y, c := Call(n, x, a), x.files[LocalName(n, a.it)];
      assert y.wire[|y.wire| - 1].Offer?;
      assert XRuns.Sent(y.wire) == [] && XRuns.Terminators(y.wire) == 0;
      assert [] + c == c;
    }
  }

  /** Up to the last update the transfer is untouched. */
  lemma {:induction false} CallsCalm(n: Paths, x: X.Xfer, log: seq<Action>)
    requires forall k | 0 <= k < |log| - 1 :: !log[k].Abort? && !Begins(log[k])
    requires log != [] ==> !log[|log| - 1].Abort?
    ensures forall k | 0 <= k < |log| :: Calls(n, x, log[..k]) == x
    ensures Calls(n, x, log) == if log != [] then Call(n, x, log[|log| - 1]) else x
  {
    if log != [] {
      var before := log[..|log| - 1];
      CallsCalm(n, x, before);
      forall k | 0 <= k < |log|
        ensures Calls(n, x, log[..k]) == x
      {
        if k < |before| { assert log[..k] == before[..k]; } else { assert log[..k] == before; }
      }
    }
  }

  /** What a calm event does to the transfer: nothing, or it fills the empty slot. */
  lemma CalmCalled(j: Joint, x: X.Xfer, n: nat, s: Scan, done: Option<Item>)
    requires Calm(n, s, done) && AllGranted(s.setup.paths, x, News(n, s.log))
    ensures
      var news := News(n, s.log); var u := Called(j, x, n, s); var names := s.setup.paths;
      && (forall k | 0 <= k < |news| :: Calls(names, x, news[..k]) == x)
      && if Filled(news) then
           && x.slot.None? && u.xfer == Call(names, x, news[|news| - 1]) && u.xfer.slot.Some?
           && s.pending == [AwaitOf(news[|news| - 1])]
           && Carries(s.pending[0], u.xfer, u.trace) && AskedFor(s.setup.paths, u.xfer, s.pending[0], u.trace)
         else u.xfer == x && u.trace == j.trace && !Transferring(s)
  {
    var news := News(n, s.log);
    assert forall k | 0 <= k < |news| :: news[k] == s.log[n + k];
    CallsCalm(s.setup.paths, x, news);
    if Filled(news) { BeginCarries(s.setup.paths, x, news[|news| - 1]); }
  }

  lemma CallsTwo(n: Paths, x: X.Xfer, a: Action, b: Action)
    ensures Calls(n, x, [a, b]) == Call(n, Call(n, x, a), b)
    ensures Calls(n, x, [a, b][..0]) == x && Calls(n, x, [a, b][..1]) == Call(n, x, a)
  {
    assert [a, b][..1] == [a] && [a][..0] == [] && [a, b][..0] == [];
    assert Calls(n, x, [a]) == Call(n, Calls(n, x, []), a);
  }

  lemma CancelCalled(j: Joint, x: X.Xfer, n: nat, s: Scan, it: Item, early: bool)
    requires News(n, s.log) == [Abort(it), Finish(early)]
    ensures Called(j, x, n, s) == Joint(s, X.AbortTransfer(x, true).0, j.trace)
  {
    CallsTwo(s.setup.paths, x, Abort(it), Finish(early));
  }

  /** A cancelled transfer stays in the slot if the server accepted it, and leaves it otherwise. */
  lemma AbortLeaves(x: X.Xfer)
    ensures
      var y := X.AbortTransfer(x, true).0;
      && !Live(y)
      && if x.slot.Some? && x.slot.value.sendReady then
           y.slot == Some(x.slot.value.(sendAbort := true))
         else y.slot.None?
  {
  }

  // --- The engine reacts --------------------------------------------------------------

  /** The engine hears of e when the transfer stands at x: only a chunk or a click on Cancel
      leave the transfer it waits for in the slot. */
  ghost predicate Linked(j: Joint, x: X.Xfer, e: Event) {
    && Shape(j.scan) && Enabled(j.scan, e)
    && (Transferring(j.scan) ==> AskedFor(j.scan.setup.paths, x, j.scan.pending[0], j.trace))
    && (Transferring(j.scan) && x.slot.Some? ==>
          Carries(j.scan.pending[0], x, j.trace) && (e.ChunkEvent? || e.CancelEvent?))
    && (Live(x) ==> Transferring(j.scan))
    && (e.ChunkEvent? ==> x.slot.Some?)
  }

  /** The engine waits for a transfer that is gone. */
  predicate Stranded(j: Joint) { Transferring(j.scan) && j.xfer.slot.None? }

  /** A transfer is in the slot that the engine does not wait for. */
  predicate Lingers(j: Joint) { j.xfer.slot.Some? && !Transferring(j.scan) }

  /** An accepted transfer is cancelled when it stands at x. */
  predicate CancelsAccepted(x: X.Xfer, s: Scan, e: Event) {
    e.ChunkEvent? && s.cancel && x.slot.Some? && x.slot.value.sendReady
  }

  lemma CalmOutcome(j: Joint, x: X.Xfer, n: nat, s: Scan, done: Option<Item>)
    requires Calm(n, s, done) && AllGranted(s.setup.paths, x, News(n, s.log)) && Shape(s)
    requires !Live(x)
    ensures
      var u := Called(j, x, n, s);
      Inv(u) && !Stranded(u) && (Lingers(u) <==> x.slot.Some?)
  {
    CalmCalled(j, x, n, s, done);
  }

  lemma ReactOutcome(g: Engine, j: Joint, x: X.Xfer, e: Event)
    requires Obeys(g) && Linked(j, x, e)
    requires AllGranted(g.step(j.scan, e).setup.paths, x, News(|j.scan.log|, g.step(j.scan, e).log))
    ensures
      var u := React(g, j, x, e);
      && Inv(u)
      && (Stranded(u) <==> Transferring(j.scan) && x.slot.None? && e.CancelEvent?)
      && (Lingers(u) <==> CancelsAccepted(x, j.scan, e) || (x.slot.Some? && !Transferring(j.scan)))
  {
    var s := g.step(j.scan, e);
    assert Reacts(j.scan, e, s);
    if e.ChunkEvent? && j.scan.cancel {
      CancelCalled(j, x, |j.scan.log|, s, e.p.it, j.scan.todo != [] || j.scan.del != []);
      AbortLeaves(x);
    } else if e.ChunkEvent? || e.CancelEvent? {
      assert News(|j.scan.log|, s.log) == [];
    } else {
      CalmOutcome(j, x, |j.scan.log|, s, if e.EofEvent? then Some(e.p.it) else None);
    }
  }

  // --- One event of a session ---------------------------------------------------------

  /** The engine aborts a transfer that the server accepted: it is left in the slot. */
  ghost predicate LeavesBehind(g: Engine, j: Joint, e: JointEvent) {
    && (exists a | a in NewsIn(g, j, e) :: a.Abort?)
    && Moved(j.xfer, e).slot.Some? && Moved(j.xfer, e).slot.value.sendReady
  }

  /** What the event makes of the two ways in which engine and transfer disagree. */
  ghost predicate Outcome(g: Engine, j: Joint, e: JointEvent) {
    var u := Then(g, j, e);
    && Inv(u)
    && (Stranded(u) <==> Stranded(j) || Drops(j.xfer, e))
    && (Lingers(u) <==> LeavesBehind(g, j, e) || (Lingers(j) && !e.Turn?))
  }

  lemma NoAborts(n: nat, s: Scan, done: Option<Item>)
    requires Calm(n, s, done)
    ensures forall a | a in News(n, s.log) :: !a.Abort?
  {
    var news := News(n, s.log);
    forall a | a in news ensures !a.Abort? {
      var k :| 0 <= k < |news| && news[k] == a;
      assert news[k] == s.log[n + k];
    }
  }

  /** Only a chunk in a cancelled operation aborts. */
  lemma AbortsWhen(s: Scan, e: Event, t: Scan)
    requires Reacts(s, e, t)
    ensures (exists a | a in News(|s.log|, t.log) :: a.Abort?) <==> e.ChunkEvent? && s.cancel
  {
    if e.ChunkEvent? && s.cancel {
      assert News(|s.log|, t.log)[0].Abort?;
    } else if e.ChunkEvent? || e.CancelEvent? {
      assert News(|s.log|, t.log) == [];
    } else {
      NoAborts(|s.log|, t, if e.EofEvent? then Some(e.p.it) else None);
    }
  }

  lemma OtherOutcome(g: Engine, j: Joint, e: JointEvent)
    requires Obeys(g) && Inv(j) && Possible(g, j, e) && e.Other?
    ensures Outcome(g, j, e)
  {
    OtherLinked(j, e.e);
    ReactOutcome(g, j, j.xfer, e.e);
    AbortsWhen(j.scan, e.e, g.step(j.scan, e.e));
  }

  lemma OtherLinked(j: Joint, e: Event)
    requires Inv(j) && Enabled(j.scan, e) && !AboutTransfer(e)
    ensures Linked(j, j.xfer, e) && (Transferring(j.scan) ==> e.CancelEvent?)
  {
  }

  lemma BeginOutcome(g: Engine, j: Joint, e: JointEvent)
    requires Obeys(g) && Inv(j) && Possible(g, j, e) && e.Begin?
    ensures Outcome(g, j, e)
  {
    var s := g.start(e.op, e.sel, e.setup, e.env);
    CalmOutcome(j, j.xfer, 0, s, None);
    NoAborts(0, s, None);
  }

  /** What the engine hears, and what it does about it. */
  lemma Hears(g: Engine, j: Joint, x: X.Xfer, r: Trace, e: JointEvent) returns (h: Event)
    requires Inv(j) && Went(j, e, x, r) && ToldMore(j.xfer, x) && (e.Server? || e.Turn?)
    ensures Transferring(j.scan) && h == Heard(LastTold(x), j.scan.pending[0], e.env)
    ensures Linked(j.(trace := r), x, h) && (h.ChunkEvent? <==> x.slot.Some?)
    ensures Notified(g, j.(trace := r), x, e.env) == React(g, j.(trace := r), x, h)
  {
    h := Heard(LastTold(x), j.scan.pending[0], e.env);
  }

  lemma NoticeThen(g: Engine, j: Joint, e: JointEvent) returns (x: X.Xfer, r: Trace, h: Event)
    requires Obeys(g) && Inv(j) && Possible(g, j, e) && (e.Server? || e.Turn?)
    requires ToldMore(j.xfer, Moved(j.xfer, e))
    ensures x == Moved(j.xfer, e) && Linked(j.(trace := r), x, h) && (h.ChunkEvent? <==> x.slot.Some?)
    ensures Transferring(j.scan) && j.xfer.slot.Some? && !Drops(j.xfer, e) && !h.CancelEvent?
    ensures Then(g, j, e) == React(g, j.(trace := r), x, h)
    ensures NewsIn(g, j, e) == News(|j.scan.log|, g.step(j.scan, h).log)
    ensures AllGranted(g.step(j.scan, h).setup.paths, x, NewsIn(g, j, e))
  {
    Goes(g, j, e);
    x := Moved(j.xfer, e);
    r := Noted(j.trace, x, e);
    h := Hears(g, j, x, r, e);
  }

  lemma NoticeOutcome(g: Engine, j: Joint, e: JointEvent)
    requires Obeys(g) && Inv(j) && Possible(g, j, e) && (e.Server? || e.Turn?)
    requires ToldMore(j.xfer, Moved(j.xfer, e))
    ensures Outcome(g, j, e)
  {
    var x, r, h := NoticeThen(g, j, e);
    ReactOutcome(g, j.(trace := r), x, h);
    assert Reacts(j.scan, h, g.step(j.scan, h));
    AbortsWhen(j.scan, h, g.step(j.scan, h));
  }

  lemma SilentOutcome(g: Engine, j: Joint, e: JointEvent)
    requires Obeys(g) && Inv(j) && Possible(g, j, e) && (e.Server? || e.Turn?)
    requires !ToldMore(j.xfer, Moved(j.xfer, e))
    ensures Outcome(g, j, e)
  {
    Goes(g, j, e);
    assert NewsIn(g, j, e) == [];
  }

  lemma EventOutcome(g: Engine, j: Joint, e: JointEvent)
    requires Obeys(g) && Inv(j) && Possible(g, j, e)
    ensures Outcome(g, j, e)
  {
    if e.Other? { OtherOutcome(g, j, e); }
    else if e.Begin? { BeginOutcome(g, j, e); }
    else if ToldMore(j.xfer, Moved(j.xfer, e)) { NoticeOutcome(g, j, e); }
    else { SilentOutcome(g, j, e); }
  }

  // --- Whole sessions -----------------------------------------------------------------

  /** A transfer that the server had accepted was cancelled, and the send loop did not come by
      since then. */
  ghost predicate LeftBehind(g: Engine, j: Joint, es: seq<JointEvent>) {
    exists i | 0 <= i < |es| :: LeavesBehind(g, Later(g, j, es[..i]), es[i]) && NoTurn(es, i + 1)
  }

  predicate NoTurn(es: seq<JointEvent>, i: nat) { forall k | i <= k < |es| :: !es[k].Turn? }

  /** A packet of the session could not be sent. */
  ghost predicate Dropped(g: Engine, j: Joint, es: seq<JointEvent>) {
    exists i | 0 <= i < |es| :: Drops(Later(g, j, es[..i]).xfer, es[i])
  }

  lemma LeftBehindSnoc(g: Engine, j: Joint, was: seq<JointEvent>, e: JointEvent)
    ensures LeftBehind(g, j, was + [e]) <==>
            LeavesBehind(g, Later(g, j, was), e) || (LeftBehind(g, j, was) && !e.Turn?)
  {
    if LeavesBehind(g, Later(g, j, was), e) {
      LeftNow(g, j, was, e);
    } else if LeftBehind(g, j, was) && !e.Turn? {
      LeftStill(g, j, was, e);
    } else if LeftBehind(g, j, was + [e]) {
      LeftBefore(g, j, was, e);
    }
  }

  lemma LeftNow(g: Engine, j: Joint, was: seq<JointEvent>, e: JointEvent)
    requires LeavesBehind(g, Later(g, j, was), e)
    ensures LeftBehind(g, j, was + [e])
  {
    var es := was + [e];
    assert es[..|was|] == was && es[|was|] == e;
    assert LeavesBehind(g, Later(g, j, es[..|was|]), es[|was|]) && NoTurn(es, |was| + 1);
  }

  lemma LeftStill(g: Engine, j: Joint, was: seq<JointEvent>, e: JointEvent)
    requires LeftBehind(g, j, was) && !e.Turn?
    ensures LeftBehind(g, j, was + [e])
  {
    var es := was + [e];
    var i :| 0 <= i < |was| && LeavesBehind(g, Later(g, j, was[..i]), was[i]) && NoTurn(was, i + 1);
    assert es[..i] == was[..i] && es[i] == was[i];
    assert NoTurn(es, i + 1);
  }

  lemma LeftBefore(g: Engine, j: Joint, was: seq<JointEvent>, e: JointEvent)
    requires LeftBehind(g, j, was + [e]) && !LeavesBehind(g, Later(g, j, was), e)
    ensures LeftBehind(g, j, was) && !e.Turn?
  {
    var es, n := was + [e], |was|;
    var i :| 0 <= i < |es| && LeavesBehind(g, Later(g, j, es[..i]), es[i]) && NoTurn(es, i + 1);
    assert es[..n] == was && es[n] == e;
    assert i < n;
    assert es[..i] == was[..i] && es[i] == was[i];
    assert forall k | 0 <= k < n :: was[k] == es[k];
    assert NoTurn(was, i + 1);
  }

  lemma DroppedSnoc(g: Engine, j: Joint, was: seq<JointEvent>, e: JointEvent)
    ensures Dropped(g, j, was + [e]) <==> Dropped(g, j, was) || Drops(Later(g, j, was).xfer, e)
  {
    var es := was + [e];
    assert forall i | 0 <= i < |was| :: es[..i] == was[..i] && es[i] == was[i];
    assert es[..|was|] == was && es[|was|] == e;
    if Dropped(g, j, was) {
      var i :| 0 <= i < |was| && Drops(Later(g, j, was[..i]).xfer, was[i]);
      assert Drops(Later(g, j, es[..i]).xfer, es[i]);
    }
    if Dropped(g, j, es) {
      var i :| 0 <= i < |es| && Drops(Later(g, j, es[..i]).xfer, es[i]);
      if i < |was| { assert Drops(Later(g, j, was[..i]).xfer, was[i]); }
    }
  }

  /** The engine waits for a transfer that is gone if and only if a packet could not be sent,
      and a transfer that it does not wait for is in the slot if and only if an accepted one was
      cancelled and the send loop did not come by since then. */
  ghost predicate Agree(g: Engine, j: Joint, es: seq<JointEvent>) {
    && Inv(Later(g, j, es))
    && (Stranded(Later(g, j, es)) <==> Dropped(g, j, es))
    && (Lingers(Later(g, j, es)) <==> LeftBehind(g, j, es))
  }

  lemma SessionStep(g: Engine, j: Joint, was: seq<JointEvent>, e: JointEvent)
    requires Obeys(g) && Agree(g, j, was) && Possible(g, Later(g, j, was), e)
    ensures Agree(g, j, was + [e])
  {
    EventOutcome(g, Later(g, j, was), e);
    LeftBehindSnoc(g, j, was, e);
    DroppedSnoc(g, j, was, e);
    Snoc(g, j, was, e);
  }

  lemma NothingYet(g: Engine, files: map<string, X.Bytes>)
    ensures Agree(g, Connected(files), [])
  {
    assert Inv(Connected(files));
  }

  lemma Reassembled(es: seq<JointEvent>)
    requires es != []
    ensures es[..|es| - 1] + [es[|es| - 1]] == es
  {
  }

  /** A session without its last event. */
  lemma Front(g: Engine, j: Joint, es: seq<JointEvent>)
    requires es != [] && Session(g, j, es)
    ensures var n := |es| - 1; Session(g, j, es[..n]) && Possible(g, Later(g, j, es[..n]), es[n])
  {
  }

  /** In every session the transfer in the slot is the one the engine waits for, and engine and
      transfer disagree exactly in those two ways. */
  lemma {:induction false} SessionKeeps(g: Engine, files: map<string, X.Bytes>, es: seq<JointEvent>)
    requires Obeys(g) && Session(g, Connected(files), es)
    ensures Agree(g, Connected(files), es)
    decreases |es|
  {
    if es == [] {
      NothingYet(g, files);
    } else {
      var j, was, e := Connected(files), es[..|es| - 1], es[|es| - 1];
      Front(g, j, es);
      SessionKeeps(g, files, was);
      SessionStep(g, j, was, e);
      Reassembled(es);
    }
  }

  lemma Reached(g: Engine, j: Joint)
    requires Obeys(g) && Reachable(g, j)
    ensures Inv(j)
  {
    var files, es :| Session(g, Connected(files), es) && j == Later(g, Connected(files), es);
    SessionKeeps(g, files, es);
  }
}
