/**
 The scan engine and the transfer protocol together: the engine's requests go to the
 transfer record, and what the protocol tells the window goes to the engine, which may
 issue the next request before the call returns. A failure message and the fxClean next to
 it are one step.
*/
module Compose {
  import opened Options
  import opened Trees
  import opened ScanSpec
  import opened ScanShape
  import X = FileXferSpec

  /** The two ways into the scan engine: an event, and the start of an operation. What is
      said about the composition holds for any engine that obeys the rules below, and the
      scan engine of ScanSpec does. */
  datatype Engine = Engine(step: (Scan, Event) -> Scan, start: (Op, seq<Tree>, Setup, Env) -> Scan)

  const SCAN: Engine := Engine((s, e) => Step(s, e), (op, sel, setup, env) => Start(op, sel, setup, env))

  /** History of the latest transfer: what it found when its request was granted, the names it was
      requested with, the messages about it since then, and what is or was last left to read of a
      file that is sent. */
  datatype Trace = Trace(from: X.Xfer, remote: string, local: string, msgs: seq<X.Event>, left: X.Bytes)

  datatype Joint = Joint(scan: Scan, xfer: X.Xfer, trace: Trace)

  /** The text of a path. */
  function Text(p: Path): string {
    if p == [] then "" else if |p| == 1 then p[0] else p[0] + "\\" + Text(p[1..])
  }

  /** The name of the item on the server. */
  function RemoteName(n: Paths, it: Item): string { n.remote + Text(it.At()) }

  /** The name of the local file of the item. */
  function LocalName(n: Paths, it: Item): string { n.local + Text(it.At()) }

  // --- Calls of the engine ------------------------------------------------------------

  /** Requests that fill the transfer slot if they are not refused. */
  predicate Begins(a: Action) { a.Recv? || a.Send? }

  function AwaitOf(a: Action): Pending
    requires Begins(a)
  {
    if a.Recv? then AwaitRecv(a.it) else AwaitSend(a.it)
  }

  predicate Refuses(a: Action) { a.RecvRefused? || a.SendRefused? }

  /** What one primitive update of the engine does to the transfer. */
  function Call(n: Paths, x: X.Xfer, a: Action): X.Xfer {
    match a
    case Recv(it, _) => X.RecvFile(x, RemoteName(n, it), LocalName(n, it), true).0
    case Send(it, _) => X.SendFile(x, RemoteName(n, it), LocalName(n, it), true).0
    case Abort(_) => X.AbortTransfer(x, true).0
    case _ => x
  }

  function Calls(n: Paths, x: X.Xfer, log: seq<Action>): X.Xfer {
    if log == [] then x else Call(n, Calls(n, x, log[..|log| - 1]), log[|log| - 1])
  }

  /** The engine saw what the calls returned: a request it took for granted was granted. */
  predicate Granted(n: Paths, x: X.Xfer, a: Action) {
    match a
    case Recv(it, _) => X.RecvFile(x, RemoteName(n, it), LocalName(n, it), true).1
    case Send(it, _) => X.SendFile(x, RemoteName(n, it), LocalName(n, it), true).1
    case _ => true
  }

  predicate AllGranted(n: Paths, x: X.Xfer, log: seq<Action>) {
    forall k | 0 <= k < |log| :: Granted(n, Calls(n, x, log[..k]), log[k])
  }

  /** The updates that made the history log out of one with n entries. */
  function News(n: nat, log: seq<Action>): seq<Action> {
    if n <= |log| then log[n..] else []
  }

  /** The last update filled the slot. */
  predicate Filled(news: seq<Action>) { news != [] && Begins(news[|news| - 1]) }

  function Opened(n: Paths, x: X.Xfer, a: Action): Trace
    requires Begins(a)
  {
    var local := LocalName(n, a.it);
    Trace(x, RemoteName(n, a.it), local, [], if a.Send? && local in x.files then x.files[local] else [])
  }

  /** The engine got from a history of n entries to the state s, and x is the transfer before
      its calls. */
  function Called(j: Joint, x: X.Xfer, n: nat, s: Scan): Joint {
    var news := News(n, s.log);
    Joint(s, Calls(s.setup.paths, x, news),
          if Filled(news) then Opened(s.setup.paths, x, news[|news| - 1]) else j.trace)
  }

  // --- Events -------------------------------------------------------------------------

  predicate AboutTransfer(e: Event) { e.EofEvent? || e.FailEvent? || e.ChunkEvent? }

  predicate FromServer(m: X.Event) { m.Header? || m.Data? || m.End? || m.Aborted? || m.Accept? }

  /** The engine waits for a transfer. */
  predicate Transferring(s: Scan) { s.pending != [] && Transfer(s.pending[0]) }

  predicate Sends(s: Scan) { s.pending != [] && s.pending[0].AwaitSend? }

  predicate Receives(s: Scan) { s.pending != [] && s.pending[0].AwaitRecv? }

  /** What the engine makes of the notice n about its transfer p. */
  function Heard(n: X.Notice, p: Pending, env: Env): Event {
    match n
    case RecvChunk(_) => ChunkEvent(p, env)
    case SendChunk(_) => ChunkEvent(p, env)
    case RecvEndOfFile => EofEvent(p, env)
    case SendEndOfFile => EofEvent(p, env)
    case _ => FailEvent(p)
  }

  /** The engine handles the event e when the transfer stands at x. */
  function React(g: Engine, j: Joint, x: X.Xfer, e: Event): Joint {
    Called(j, x, |j.scan.log|, g.step(j.scan, e))
  }

  predicate ToldMore(x: X.Xfer, y: X.Xfer) { |y.told| > |x.told| }

  function LastTold(y: X.Xfer): X.Notice
    requires y.told != []
  {
    y.told[|y.told| - 1]
  }

  /** The transfer told the window what it did on its way from j.xfer to x. */
  function Notified(g: Engine, j: Joint, x: X.Xfer, env: Env): Joint {
    if ToldMore(j.xfer, x) && j.scan.pending != [] then
      React(g, j, x, Heard(LastTold(x), j.scan.pending[0], env))
    else j.(xfer := x)
  }

  /** One turn of the send loop. A packet that cannot be sent sets the abort mark, which the
      loop looks at before anything else happens. */
  function LoopTurn(x: X.Xfer, t: X.Tick): X.Xfer {
    if !(x.slot.Some? && x.slot.value.sendReady) then x
    else
      var y := X.Turn(x, t).0;
      if !t.sendOk && y.slot.Some? && y.slot.value.sendReady then X.Turn(y, t).0 else y
  }

  datatype JointEvent =
    | Other(e: Event)                      // an event that is not about the transfer
    | Server(m: X.Event, env: Env)         // a message about the transfer
    | Turn(t: X.Tick, env: Env)            // a turn of the send loop
    | Begin(op: Op, sel: seq<Tree>, setup: Setup, env: Env)   // the user starts an operation

  /** The transfer after its own part of the event. */
  function Moved(x: X.Xfer, e: JointEvent): X.Xfer {
    match e
    case Server(m, _) => X.Step(x, m)
    case Turn(t, _) => LoopTurn(x, t)
    case _ => x
  }

  /** What the file being sent has left to read; a header message replaces its handle. */
  function Unread(x: X.Xfer, left: X.Bytes): X.Bytes {
    if x.slot.Some? && x.slot.value.file.Some? && x.slot.value.file.value.Reading? then
      x.slot.value.file.value.rest
    else left
  }

  function Noted(r: Trace, x: X.Xfer, e: JointEvent): Trace {
    r.(msgs := if e.Server? then r.msgs + [e.m] else r.msgs, left := Unread(x, r.left))
  }

  function Then(g: Engine, j: Joint, e: JointEvent): Joint {
    match e
    case Other(se) => React(g, j, j.xfer, se)
    case Begin(op, sel, setup, env) => Called(j, j.xfer, 0, g.start(op, sel, setup, env))
    case _ =>
      var x := Moved(j.xfer, e);
      Notified(g, j.(trace := Noted(j.trace, x, e)), x, e.env)
  }

  /** The updates of the engine in the event. */
  function NewsIn(g: Engine, j: Joint, e: JointEvent): seq<Action> {
    News(if e.Begin? then 0 else |j.scan.log|, Then(g, j, e).scan.log)
  }

  /** When the event can happen. The server answers the transfer the engine waits for; a
      cancel is the engine's own, from its reaction to a chunk; a request the engine took
      for granted was granted. */
  ghost predicate Possible(g: Engine, j: Joint, e: JointEvent) {
    && (match e
        case Other(se) => Enabled(j.scan, se) && !AboutTransfer(se)
        case Server(m, _) => FromServer(m) && j.xfer.slot.Some? && Transferring(j.scan)
        case Turn(t, _) => j.xfer.slot.Some? && j.xfer.slot.value.sendReady && !t.cancel
        case Begin(op, sel, _, _) => j.scan.op == NoOp && op != NoOp && sel != [] && Forest(sel))
    && AllGranted(Then(g, j, e).scan.setup.paths, Moved(j.xfer, e), NewsIn(g, j, e))
  }

  // --- Sessions -----------------------------------------------------------------------

  function Connected(files: map<string, X.Bytes>): Joint {
    var x := X.Xfer(None, files, [], []);
    Joint(Fresh(NoOp, NO_SETUP), x, Trace(x, "", "", [], []))
  }

  /** A session: operations are started one after the other and any possible events happen. */
  ghost predicate Session(g: Engine, j: Joint, es: seq<JointEvent>) {
    es == [] ||
    (Session(g, j, es[..|es| - 1]) && Possible(g, Later(g, j, es[..|es| - 1]), es[|es| - 1]))
  }

  function Later(g: Engine, j: Joint, es: seq<JointEvent>): Joint {
    if es == [] then j else Then(g, Later(g, j, es[..|es| - 1]), es[|es| - 1])
  }

  ghost predicate Reachable(g: Engine, j: Joint) {
    exists files, es :: Session(g, Connected(files), es) && j == Later(g, Connected(files), es)
  }

  lemma Snoc(g: Engine, j: Joint, es: seq<JointEvent>, e: JointEvent)
    ensures Later(g, j, es + [e]) == Then(g, Later(g, j, es), e)
    ensures Session(g, j, es + [e]) <==> Session(g, j, es) && Possible(g, Later(g, j, es), e)
  {
    assert (es + [e])[..|es|] == es;
  }

  // --- The rules for an engine --------------------------------------------------------

  /** The updates after log[..n] that reached the state t. Only the last one may fill the slot,
      and exactly then the engine waits for a transfer, that one; none aborts a transfer; and an
      end-of-file is recorded for the item done only. */
  ghost predicate Calm(n: nat, t: Scan, done: Option<Item>) {
    && n <= |t.log|
    && (forall k | n <= k < |t.log| :: !t.log[k].Abort? && (t.log[k].Eof? ==> done == Some(t.log[k].it)))
    && (forall k | n <= k < |t.log| - 1 :: !Begins(t.log[k]))
    && (Transferring(t) ==> |t.log| > n && Begins(t.log[|t.log| - 1]))
    && (|t.log| > n && Begins(t.log[|t.log| - 1]) ==> t.pending == [AwaitOf(t.log[|t.log| - 1])])
  }

  /** How the engine may get from s to t in the event e: a chunk is heeded only in a cancelled
      operation, which then aborts the transfer and ends. */
  ghost predicate Reacts(s: Scan, e: Event, t: Scan) {
    && Shape(t) && s.log <= t.log
    && match e
       case CancelEvent => t == s.(cancel := true)
       case ChunkEvent(p, _) =>
         if s.cancel then
           t.op == NoOp && News(|s.log|, t.log) == [Abort(p.it), Finish(s.todo != [] || s.del != [])]
         else t == s
       case EofEvent(p, _) => Calm(|s.log|, t, Some(p.it))
       case _ => Calm(|s.log|, t, None)
  }

  ghost predicate Obeys(g: Engine) {
    && (forall s: Scan, e: Event | Shape(s) && Enabled(s, e) :: Reacts(s, e, g.step(s, e)))
    && (forall op: Op, sel: seq<Tree>, setup: Setup, env: Env | op != NoOp && sel != [] && Forest(sel) ::
          Calm(0, g.start(op, sel, setup, env), None) && Shape(g.start(op, sel, setup, env)))
  }
}
