/**
 One file transfer at a time over a connection, filexfer.c: the record kept while a file is
 received or sent, the messages about it, and what each of them does. A handler is a function
 of the state here; the class FileXfer runs the same steps in place.
*/
module FileXferSpec {
  import opened Options

  type Bytes = seq<bv8>

  /** A file being sent is read from, one being received is written to. Unset is the -1 that a
      receive starts with: it is no open file, but no null handle either. */
  datatype Handle = Unset | Reading(rest: Bytes) | Writing

  /** The record FXCDFILE; None is the null handle, which the source takes for "not open". */
  datatype CdFile = CdFile(fname: string, recv: bool, file: Option<Handle>, sendReady: bool, sendAbort: bool)

  /** What goes to the server. */
  datatype Out =
    | Request(remote: string)
    | Offer(remote: string)
    | HeaderReply(ok: bool)
    | Packet(data: Bytes)
    | Eof
    | Abort

  /** What the window is told. */
  datatype Notice =
    | RecvReadFail
    | RecvCreateFail
    | RecvWriteFail
    | RecvChunk(n: nat)
    | RecvEndOfFile
    | SendReadFail
    | SendWriteFail
    | SendChunk(n: nat)
    | SendEndOfFile

  /** The connection's transfer, the local files, what was sent and what the window was told. */
  datatype Xfer = Xfer(slot: Option<CdFile>, files: map<string, Bytes>, wire: seq<Out>, told: seq<Notice>)

  /** sz_rfbBlockSize. */
  const BLOCK: nat := 8192

  function Send(x: Xfer, m: Out, ok: bool): Xfer {
    if ok then x.(wire := x.wire + [m]) else x
  }

  function Tell(x: Xfer, n: Notice): Xfer {
    x.(told := x.told + [n])
  }

  /** fxClean: the transfer is over; a received file is deleted unless the handle is null. */
  function Clean(x: Xfer): Xfer {
    match x.slot
    case None => x
    case Some(cd) =>
      x.(slot := None, files := if cd.file.Some? && cd.recv then x.files - {cd.fname} else x.files)
  }

  // --- Requests of the window ---------------------------------------------------------

  /** fxRecvFile: refused while another transfer is in the slot. */
  function RecvFile(x: Xfer, remote: string, local: string, sendOk: bool): (Xfer, bool) {
    RecvFileWith(x, Some(Unset), remote, local, sendOk)
  }

  /** The same for a record that starts with the handle h; the null handle is what the rest of
      the source expects. */
  function RecvFileWith(x: Xfer, h: Option<Handle>, remote: string, local: string, sendOk: bool): (Xfer, bool) {
    if x.slot.Some? || !sendOk then (x, false)
    else (Send(x.(slot := Some(CdFile(local, true, h, false, false))), Request(remote), true), true)
  }

  /** fxSendFile: refused while another transfer is in the slot or if there is no such file. */
  function SendFile(x: Xfer, remote: string, local: string, sendOk: bool): (Xfer, bool) {
    if x.slot.Some? || local !in x.files || !sendOk then (x, false)
    else
      (Send(x.(slot := Some(CdFile(remote, false, Some(Reading(x.files[local])), false, false))),
            Offer(remote), true), true)
  }

  /** fxAbortFileTransfer: a file that is being sent is aborted by the send loop. */
  function AbortTransfer(x: Xfer, sendOk: bool): (Xfer, bool) {
    match x.slot
    case None => (x, false)
    case Some(cd) =>
      if cd.sendReady then (x.(slot := Some(cd.(sendAbort := true))), true)
      else if !sendOk then (x, false)
      else (Clean(Send(x, Abort, true)), true)
  }

  // --- Messages of the server ---------------------------------------------------------

  /** rfbFileHeader: the file of a receive is created, or replaced if it exists. */
  function FileHeader(x: Xfer, size: int, openOk: bool, sendOk: bool): Xfer {
    match x.slot
    case None => x
    case Some(cd) =>
      if size == -1 then Tell(Clean(Send(x, HeaderReply(false), sendOk)), RecvReadFail)
      else if !openOk then Tell(Clean(x), RecvCreateFail)
      else
        Send(x.(slot := Some(cd.(file := Some(Writing))), files := x.files[cd.fname := []]), HeaderReply(true), sendOk)
  }

  /** rfbFilePacket: only a file that is open for writing can be written. */
  function FilePacket(x: Xfer, data: Bytes, writeOk: bool): Xfer {
    match x.slot
    case None => x
    case Some(cd) =>
      if cd.file.None? then x
      else if cd.file.value.Writing? && writeOk && cd.fname in x.files then
        Tell(x.(files := x.files[cd.fname := x.files[cd.fname] + data]), RecvChunk(|data|))
      else Tell(Clean(x), RecvWriteFail)
  }

  /** rfbEndOfFile: the handle is taken out of the record first, so the file stays. */
  function EndOfFile(x: Xfer): Xfer {
    match x.slot
    case None => x
    case Some(cd) =>
      if cd.file.None? then x
      else Tell(Clean(x.(slot := Some(cd.(file := None)))), RecvEndOfFile)
  }

  /** rfbAbortFileTransfer: the server gives up a file it sends. */
  function ServerAbort(x: Xfer): Xfer {
    if x.slot.Some? && x.slot.value.recv then Tell(Clean(x), RecvReadFail) else x
  }

  /** rfbFileAcceptHeader: the server takes or refuses the offered file. */
  function AcceptHeader(x: Xfer, size: int): Xfer {
    if size == -1 then Tell(Clean(x), SendWriteFail)
    else if x.slot.Some? then x.(slot := Some(x.slot.value.(sendReady := true)))
    else x
  }

  // --- The send loop of fxWaitForMessage ----------------------------------------------

  /** What happens around one turn of the loop: does reading work, how much is read at most,
      does sending work, does the window cancel when it is told of the chunk, and are there
      incoming data. */
  datatype Tick = Tick(readOk: bool, chunk: nat, sendOk: bool, cancel: bool, incoming: bool)

  /** DosRead gives between one byte and a full block unless the file is at its end. */
  function ChunkSize(t: Tick, rest: Bytes): (n: nat)
    requires rest != []
    ensures 1 <= n <= 8192 && n <= |rest|
  {
    var most := if |rest| < BLOCK then |rest| else BLOCK;
    if t.chunk == 0 then 1 else if t.chunk > most then most else t.chunk
  }

  function RestLength(x: Xfer): nat {
    if x.slot.Some? && x.slot.value.file.Some? && x.slot.value.file.value.Reading? then
      |x.slot.value.file.value.rest|
    else 0
  }

  /** One packet: the state after it and whether the loop goes on. */
  function SendPacket(x: Xfer, t: Tick): (r: (Xfer, bool))
    requires x.slot.Some? && x.slot.value.file.Some? && x.slot.value.file.value.Reading?
    requires x.slot.value.file.value.rest != [] && x.slot.value.sendReady
    ensures r.0.slot.Some? && r.0.slot.value.sendReady && RestLength(r.0) < RestLength(x)
  {
    var cd := x.slot.value;
    var rest := cd.file.value.rest;
    var n := ChunkSize(t, rest);
    var read := cd.(file := Some(Reading(rest[n..])));
    if t.sendOk then
      (Tell(Send(x, Packet(rest[..n]), true), SendChunk(n)).
         (slot := Some(read.(sendAbort := cd.sendAbort || t.cancel))), !t.incoming)
    else
      (x.(slot := Some(read.(sendAbort := true))), true)
  }

  /** One turn of the loop, and whether another one follows. */
  function Turn(x: Xfer, t: Tick): (r: (Xfer, bool))
    requires x.slot.Some? && x.slot.value.sendReady
    ensures r.1 ==> r.0.slot.Some? && r.0.slot.value.sendReady && RestLength(r.0) < RestLength(x)
  {
    var cd := x.slot.value;
    if cd.sendAbort then (Clean(Send(x, Abort, t.sendOk)), false)
    else if cd.file.None? || !cd.file.value.Reading? || !t.readOk then (Tell(Clean(x), SendReadFail), false)
    else if cd.file.value.rest == [] then (Tell(Clean(Send(x, Eof, t.sendOk)), SendEndOfFile), false)
    else SendPacket(x, t)
  }

  /** The loop from its turn i on. */
  function Pump(x: Xfer, env: nat -> Tick, i: nat): Xfer
    requires x.slot.Some? && x.slot.value.sendReady
    decreases RestLength(x)
  {
    var r := Turn(x, env(i));
    if r.1 then Pump(r.0, env, i + 1) else r.0
  }

  /** fxWaitForMessage. */
  function WaitForMessage(x: Xfer, env: nat -> Tick): Xfer {
    if x.slot.Some? && x.slot.value.sendReady then Pump(x, env, 0) else x
  }

  // --- Runs ---------------------------------------------------------------------------

  /** Everything that can happen to a transfer once it was requested. */
  datatype Event =
    | Header(size: int, openOk: bool, replyOk: bool)
    | Data(data: Bytes, writeOk: bool)
    | End
    | Aborted
    | Accept(size: int)
    | Cancel(sendOk: bool)
    | Wait(env: nat -> Tick)

  function Step(x: Xfer, e: Event): Xfer {
    match e
    case Header(size, openOk, replyOk) => FileHeader(x, size, openOk, replyOk)
    case Data(data, writeOk) => FilePacket(x, data, writeOk)
    case End => EndOfFile(x)
    case Aborted => ServerAbort(x)
    case Accept(size) => AcceptHeader(x, size)
    case Cancel(sendOk) => AbortTransfer(x, sendOk).0
    case Wait(env) => WaitForMessage(x, env)
  }

  function Run(x: Xfer, es: seq<Event>): Xfer {
    if es == [] then x else Step(Run(x, es[..|es| - 1]), es[|es| - 1])
  }
}
