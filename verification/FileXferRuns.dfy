/**
 What holds of a transfer over every sequence of messages, cancels and turns of the send
 loop: the packets of an offered file, and the local file of a receive.
*/
module FileXferRuns {
  import opened Options
  import opened FileXferSpec

  function Final(m: Out): bool { m.Eof? || m.Abort? }

  /** The file data sent since the latest request. */
  function Sent(w: seq<Out>): Bytes {
    if w == [] then []
    else
      var m := w[|w| - 1];
      if m.Request? || m.Offer? then []
      else if m.Packet? then Sent(w[..|w| - 1]) + m.data
      else Sent(w[..|w| - 1])
  }

  /** The number of terminators sent since the latest request. */
  function Terminators(w: seq<Out>): nat {
    if w == [] then 0
    else
      var m := w[|w| - 1];
      if m.Request? || m.Offer? then 0
      else Terminators(w[..|w| - 1]) + if Final(m) then 1 else 0
  }

  /** The latest request, for a file or for the reception of one. */
  function Asked(w: seq<Out>): Option<Out> {
    if w == [] then None
    else
      var m := w[|w| - 1];
      if m.Request? || m.Offer? then Some(m) else Asked(w[..|w| - 1])
  }

  function Count(told: seq<Notice>, n: Notice): nat {
    if told == [] then 0
    else Count(told[..|told| - 1], n) + if told[|told| - 1] == n then 1 else 0
  }

  lemma SendAdds(x: Xfer, m: Out, ok: bool)
    ensures Send(x, m, ok).wire == if ok then x.wire + [m] else x.wire
    ensures ok && m.Packet? ==> Sent(Send(x, m, ok).wire) == Sent(x.wire) + m.data
    ensures ok && (Final(m) || m.HeaderReply?) ==> Sent(Send(x, m, ok).wire) == Sent(x.wire)
    ensures !ok || (!m.Request? && !m.Offer?) ==> Asked(Send(x, m, ok).wire) == Asked(x.wire)
    ensures ok && !m.Request? && !m.Offer? ==>
              Terminators(Send(x, m, ok).wire) == Terminators(x.wire) + if Final(m) then 1 else 0
  {
    if ok { assert (x.wire + [m])[..|x.wire|] == x.wire; }
  }

  lemma TellAdds(x: Xfer, n: Notice, m: Notice)
    ensures Count(Tell(x, n).told, m) == Count(x.told, m) + if n == m then 1 else 0
  {
    assert (x.told + [n])[..|x.told|] == x.told;
  }

  // --- Sending ------------------------------------------------------------------------

  /** Where the sending of a file with the contents c stands. No end of file had been told
      more than told times when it was offered. */
  ghost predicate SendState(t: Xfer, c: Bytes, told: nat) {
    && Sent(t.wire) <= c
    && (t.slot.Some? ==>
          && !t.slot.value.recv
          && Terminators(t.wire) == 0
          && Count(t.told, SendEndOfFile) == told
          && (t.slot.value.file.Some? && t.slot.value.file.value.Reading? && !t.slot.value.sendAbort ==>
                Sent(t.wire) + t.slot.value.file.value.rest == c))
    && (t.slot.None? ==>
          && Terminators(t.wire) <= 1
          && (Terminators(t.wire) == 1 ==> t.wire != [] && Final(t.wire[|t.wire| - 1]))
          && (Terminators(t.wire) == 1 && t.wire[|t.wire| - 1].Eof? ==> Sent(t.wire) == c)
          && told <= Count(t.told, SendEndOfFile) <= told + 1
          && (Count(t.told, SendEndOfFile) == told + 1 ==> Sent(t.wire) == c))
  }

  /** The transfer ends, with a last message or without, and the window may be told. */
  lemma EndKeeps(t: Xfer, c: Bytes, told: nat, m: Option<Out>, n: Option<Notice>)
    requires SendState(t, c, told) && t.slot.Some?
    requires m.Some? ==> Final(m.value) || m.value.HeaderReply?
    requires (m.Some? && m.value.Eof?) || n == Some(SendEndOfFile) ==> Sent(t.wire) == c
    ensures
      var u := Clean(if m.Some? then Send(t, m.value, true) else t);
      SendState(if n.Some? then Tell(u, n.value) else u, c, told)
  {
    var v := if m.Some? then Send(t, m.value, true) else t;
    if m.Some? { SendAdds(t, m.value, true); }
    if n.Some? { TellAdds(Clean(v), n.value, SendEndOfFile); }
  }

  lemma PacketKeeps(t: Xfer, c: Bytes, told: nat, tick: Tick)
    requires SendState(t, c, told) && t.slot.Some? && t.slot.value.sendReady && !t.slot.value.sendAbort
    requires t.slot.value.file.Some? && t.slot.value.file.value.Reading? && t.slot.value.file.value.rest != []
    ensures SendState(SendPacket(t, tick).0, c, told)
  {
    var rest := t.slot.value.file.value.rest;
    var n := ChunkSize(tick, rest);
    assert rest == rest[..n] + rest[n..];
    assert Sent(t.wire) + rest == Sent(t.wire) + rest[..n] + rest[n..];
    SendAdds(t, Packet(rest[..n]), true);
    TellAdds(Send(t, Packet(rest[..n]), true), SendChunk(n), SendEndOfFile);
  }

  lemma TurnKeeps(t: Xfer, c: Bytes, told: nat, tick: Tick)
    requires SendState(t, c, told) && t.slot.Some? && t.slot.value.sendReady
    ensures SendState(Turn(t, tick).0, c, told)
  {
    var cd := t.slot.value;
    if cd.sendAbort {
      EndKeeps(t, c, told, if tick.sendOk then Some(Abort) else None, None);
    } else if cd.file.None? || !cd.file.value.Reading? || !tick.readOk {
      EndKeeps(t, c, told, None, Some(SendReadFail));
    } else if cd.file.value.rest == [] {
      assert Sent(t.wire) + [] == Sent(t.wire);
      EndKeeps(t, c, told, if tick.sendOk then Some(Eof) else None, Some(SendEndOfFile));
    } else {
      PacketKeeps(t, c, told, tick);
    }
  }

  lemma {:induction false} PumpKeeps(t: Xfer, c: Bytes, told: nat, env: nat -> Tick, i: nat)
    requires SendState(t, c, told) && t.slot.Some? && t.slot.value.sendReady
    ensures SendState(Pump(t, env, i), c, told)
    decreases RestLength(t)
  {
    TurnKeeps(t, c, told, env(i));
    var r := Turn(t, env(i));
    if r.1 { PumpKeeps(r.0, c, told, env, i + 1); }
  }

  lemma HeaderKeeps(t: Xfer, c: Bytes, told: nat, e: Event)
    requires SendState(t, c, told) && t.slot.Some? && e.Header?
    ensures SendState(Step(t, e), c, told)
  {
    if e.size == -1 {
      EndKeeps(t, c, told, if e.replyOk then Some(HeaderReply(false)) else None, Some(RecvReadFail));
    } else if !e.openOk {
      EndKeeps(t, c, told, None, Some(RecvCreateFail));
    } else {
      SendAdds(t, HeaderReply(true), e.replyOk);
    }
  }

  lemma DataKeeps(t: Xfer, c: Bytes, told: nat, e: Event)
    requires SendState(t, c, told) && t.slot.Some? && e.Data?
    ensures SendState(Step(t, e), c, told)
  {
    var cd := t.slot.value;
    if cd.file.Some? {
      if cd.file.value.Writing? && e.writeOk && cd.fname in t.files {
        TellAdds(t, RecvChunk(|e.data|), SendEndOfFile);
      } else {
        EndKeeps(t, c, told, None, Some(RecvWriteFail));
      }
    }
  }

  lemma OtherKeeps(t: Xfer, c: Bytes, told: nat, e: Event)
    requires SendState(t, c, told) && t.slot.Some? && (e.End? || e.Aborted? || e.Accept? || e.Cancel?)
    ensures SendState(Step(t, e), c, told)
  {
    if e.End? && t.slot.value.file.Some? {
      EndKeeps(t, c, told, None, Some(RecvEndOfFile));
    } else if e.Accept? && e.size == -1 {
      EndKeeps(t, c, told, None, Some(SendWriteFail));
    } else if e.Cancel? && !t.slot.value.sendReady && e.sendOk {
      EndKeeps(t, c, told, Some(Abort), None);
    }
  }

  /** Without a transfer only a refusal says something. */
  lemma QuietSame(t: Xfer, e: Event)
    requires t.slot.None?
    ensures Step(t, e) == if e.Accept? && e.size == -1 then Tell(t, SendWriteFail) else t
  {
  }

  lemma QuietKeeps(t: Xfer, c: Bytes, told: nat, e: Event)
    requires SendState(t, c, told) && t.slot.None?
    ensures SendState(Step(t, e), c, told)
  {
    QuietSame(t, e);
    TellAdds(t, SendWriteFail, SendEndOfFile);
  }

  lemma StepKeeps(t: Xfer, c: Bytes, told: nat, e: Event)
    requires SendState(t, c, told)
    ensures SendState(Step(t, e), c, told)
  {
    if t.slot.None? {
      QuietKeeps(t, c, told, e);
    } else {
      match e
      case Header(_, _, _) => HeaderKeeps(t, c, told, e);
      case Data(_, _) => DataKeeps(t, c, told, e);
      case Wait(env) =>
        if t.slot.value.sendReady { PumpKeeps(t, c, told, env, 0); }
      case _ => OtherKeeps(t, c, told, e);
    }
  }

  lemma {:induction false} RunKeeps(t: Xfer, c: Bytes, told: nat, es: seq<Event>)
    requires SendState(t, c, told)
    ensures SendState(Run(t, es), c, told)
  {
    if es != [] {
      RunKeeps(t, c, told, es[..|es| - 1]);
      StepKeeps(Run(t, es[..|es| - 1]), c, told, es[|es| - 1]);
    }
  }

  /** Whatever happens after a file was offered: the packets are a prefix of the file, at most
      one terminator is sent and nothing follows it, and end-of-file is only sent, and only
      told to the window, when the packets are the whole file. */
  lemma SendsPrefixThenOneEnd(x: Xfer, remote: string, local: string, es: seq<Event>)
    requires SendFile(x, remote, local, true).1
    ensures
      var t := Run(SendFile(x, remote, local, true).0, es);
      var c := x.files[local];
      && Sent(t.wire) <= c
      && Terminators(t.wire) <= 1
      && (Terminators(t.wire) == 1 ==> Final(t.wire[|t.wire| - 1]) && t.slot.None?)
      && (Terminators(t.wire) == 1 && t.wire[|t.wire| - 1].Eof? ==> Sent(t.wire) == c)
      && (Count(t.told, SendEndOfFile) != Count(x.told, SendEndOfFile) ==>
            Count(t.told, SendEndOfFile) == Count(x.told, SendEndOfFile) + 1 && Sent(t.wire) == c)
  {
    var t := SendFile(x, remote, local, true).0;
    assert t.wire[|t.wire| - 1] == Offer(remote);
    assert Sent(t.wire) + x.files[local] == x.files[local];
    RunKeeps(t, x.files[local], Count(x.told, SendEndOfFile), es);
  }

  /** No trouble, no cancel and nothing to read from the server. */
  predicate Smooth(t: Tick) { t.readOk && t.sendOk && !t.cancel && !t.incoming }

  lemma SmoothTurn(t: Xfer, tick: Tick)
    requires t.slot.Some? && t.slot.value.sendReady && !t.slot.value.sendAbort
    requires t.slot.value.file.Some? && t.slot.value.file.value.Reading?
    requires Smooth(tick)
    ensures
      var (u, more) := Turn(t, tick);
      var rest := t.slot.value.file.value.rest;
      && more == (rest != [])
      && (!t.slot.value.recv ==> u.files == t.files)
      && Count(u.told, SendEndOfFile) == Count(t.told, SendEndOfFile) + (if more then 0 else 1)
      && if more then
           && u.slot.value == t.slot.value.(file := u.slot.value.file)
           && u.slot.value.file.Some? && u.slot.value.file.value.Reading?
           && Sent(u.wire) + u.slot.value.file.value.rest == Sent(t.wire) + rest
         else
           && u.slot.None? && u.wire != [] && u.wire[|u.wire| - 1] == Eof
           && Sent(u.wire) == Sent(t.wire) + rest
  {
    var rest := t.slot.value.file.value.rest;
    if rest == [] {
      SendAdds(t, Eof, true);
      TellAdds(Clean(Send(t, Eof, true)), SendEndOfFile, SendEndOfFile);
      assert Sent(t.wire) + rest == Sent(t.wire);
    } else {
      var n := ChunkSize(tick, rest);
      assert rest == rest[..n] + rest[n..];
      assert Sent(t.wire) + rest == Sent(t.wire) + rest[..n] + rest[n..];
      SendAdds(t, Packet(rest[..n]), true);
      TellAdds(Send(t, Packet(rest[..n]), true), SendChunk(n), SendEndOfFile);
    }
  }

  /** The send loop may go on reading and sending. */
  predicate Pumping(t: Xfer) {
    && t.slot.Some? && t.slot.value.sendReady && !t.slot.value.sendAbort
    && t.slot.value.file.Some? && t.slot.value.file.value.Reading?
  }

  /** From t to u the rest of the file and the end-of-file message were sent, and told once. */
  ghost predicate Pumped(t: Xfer, u: Xfer)
    requires Pumping(t)
  {
    && u.slot.None? && u.wire != [] && u.wire[|u.wire| - 1] == Eof
    && Sent(u.wire) == Sent(t.wire) + t.slot.value.file.value.rest
    && Count(u.told, SendEndOfFile) == Count(t.told, SendEndOfFile) + 1
    && (!t.slot.value.recv ==> u.files == t.files)
  }

  lemma TurnThenPumped(t: Xfer, tick: Tick, v: Xfer)
    requires Pumping(t) && Smooth(tick)
    requires var (u, more) := Turn(t, tick); if more then Pumping(u) && Pumped(u, v) else u == v
    ensures Pumped(t, v)
  {
    SmoothTurn(t, tick);
  }

  lemma TurnPumps(t: Xfer, tick: Tick)
    requires Pumping(t) && Smooth(tick) && Turn(t, tick).1
    ensures Pumping(Turn(t, tick).0)
  {
    SmoothTurn(t, tick);
  }

  /** With a server that accepts and no trouble, one visit of the send loop sends the rest of
      the file and the end-of-file message. */
  lemma {:induction false} PumpsAll(t: Xfer, env: nat -> Tick, i: nat)
    requires Pumping(t) && forall j :: Smooth(env(j))
    ensures Pumped(t, Pump(t, env, i))
    decreases RestLength(t)
  {
    assert Smooth(env(i));
    var (u, more) := Turn(t, env(i));
    if more {
      TurnPumps(t, env(i));
      PumpsAll(u, env, i + 1);
    }
    TurnThenPumped(t, env(i), Pump(t, env, i));
  }

  // --- Receiving ----------------------------------------------------------------------

  /** The concatenation of the packets that followed the latest accepted header. */
  function Payload(es: seq<Event>): Option<Bytes> {
    if es == [] then None
    else
      var before := Payload(es[..|es| - 1]);
      match es[|es| - 1]
      case Header(size, openOk, _) => if size != -1 && openOk then Some([]) else before
      case Data(data, _) => if before.Some? then Some(before.value + data) else None
      case _ => before
  }

  /** What a receive starts with: the -1 of the source or the null handle it expects. */
  predicate Blank(h: Option<Handle>) { h.None? || h.value.Unset? }

  /** The local files while a transfer that started with the handle h is going on. */
  ghost predicate Filling(x: Xfer, local: string, h: Option<Handle>, t: Xfer, got: Option<Bytes>) {
    && Blank(h)
    && t.slot.Some? && t.slot.value.recv && t.slot.value.fname == local
    && t.slot.value.file == (if got.Some? then Some(Writing) else h)
    && t.files == (if got.Some? then x.files[local := got.value] else x.files)
    && Count(t.told, RecvEndOfFile) == Count(x.told, RecvEndOfFile)
  }

  /** The local files after a transfer that ended with the event e. With the -1 of the source an
      end of file counts even if no header came, and a file of that name is deleted even if it
      was never opened. */
  ghost predicate Over(x: Xfer, local: string, h: Option<Handle>, t: Xfer, got: Option<Bytes>, e: Event) {
    && t.slot.None?
    && (e.End? ==> (got.Some? || h.Some?) && t.files == if got.Some? then x.files[local := got.value] else x.files)
    && (!e.End? ==> t.files == if got.Some? || h.Some? then x.files - {local} else x.files)
    && Count(t.told, RecvEndOfFile) == Count(x.told, RecvEndOfFile) + if e.End? then 1 else 0
  }

  lemma Rewrite(files: map<string, Bytes>, local: string, a: Bytes, b: Bytes)
    ensures files[local := a][local := b] == files[local := b]
    ensures files[local := a] - {local} == files - {local}
  {
  }

  lemma FailEnds(x: Xfer, local: string, h: Option<Handle>, t: Xfer, got: Option<Bytes>, e: Event, m: Option<Out>, n: Option<Notice>)
    requires Filling(x, local, h, t, got) && !e.End? && n != Some(RecvEndOfFile)
    ensures
      var u := Clean(if m.Some? then Send(t, m.value, true) else t);
      Over(x, local, h, if n.Some? then Tell(u, n.value) else u, got, e)
  {
    if got.Some? { Rewrite(x.files, local, got.value, []); }
    if n.Some? { TellAdds(Clean(if m.Some? then Send(t, m.value, true) else t), n.value, RecvEndOfFile); }
  }

  lemma HeaderStep(x: Xfer, local: string, h: Option<Handle>, t: Xfer, es: seq<Event>, e: Event)
    requires Filling(x, local, h, t, Payload(es)) && e.Header?
    ensures
      var u := Step(t, e);
      if u.slot.Some? then Filling(x, local, h, u, Payload(es + [e])) else Over(x, local, h, u, Payload(es), e)
  {
    assert (es + [e])[..|es|] == es;
    var got := Payload(es);
    if e.size == -1 {
      FailEnds(x, local, h, t, got, e, if e.replyOk then Some(HeaderReply(false)) else None, Some(RecvReadFail));
    } else if !e.openOk {
      FailEnds(x, local, h, t, got, e, None, Some(RecvCreateFail));
    } else if got.Some? {
      Rewrite(x.files, local, got.value, []);
    }
  }

  lemma DataStep(x: Xfer, local: string, h: Option<Handle>, t: Xfer, es: seq<Event>, e: Event)
    requires Filling(x, local, h, t, Payload(es)) && e.Data?
    ensures
      var u := Step(t, e);
      if u.slot.Some? then Filling(x, local, h, u, Payload(es + [e])) else Over(x, local, h, u, Payload(es), e)
  {
    assert (es + [e])[..|es|] == es;
    var got := Payload(es);
    if got.Some? {
      if e.writeOk {
        Rewrite(x.files, local, got.value, got.value + e.data);
        TellAdds(t.(files := t.files[local := t.files[local] + e.data]), RecvChunk(|e.data|), RecvEndOfFile);
      } else {
        FailEnds(x, local, h, t, got, e, None, Some(RecvWriteFail));
      }
    } else if h.Some? {
      FailEnds(x, local, h, t, got, e, None, Some(RecvWriteFail));
    }
  }

  /** An end of file, and the turns of the send loop on a file that is received. */
  lemma EndStep(x: Xfer, local: string, h: Option<Handle>, t: Xfer, es: seq<Event>, e: Event)
    requires Filling(x, local, h, t, Payload(es)) && e.End?
    ensures
      var u := Step(t, e);
      if u.slot.Some? then Filling(x, local, h, u, Payload(es + [e])) else Over(x, local, h, u, Payload(es), e)
  {
    assert (es + [e])[..|es|] == es;
    if Payload(es).Some? || h.Some? {
      TellAdds(Clean(t.(slot := Some(t.slot.value.(file := None)))), RecvEndOfFile, RecvEndOfFile);
    }
  }

  lemma WaitStep(x: Xfer, local: string, h: Option<Handle>, t: Xfer, es: seq<Event>, e: Event)
    requires Filling(x, local, h, t, Payload(es)) && e.Wait?
    ensures
      var u := Step(t, e);
      if u.slot.Some? then Filling(x, local, h, u, Payload(es + [e])) else Over(x, local, h, u, Payload(es), e)
  {
    assert (es + [e])[..|es|] == es;
    var got := Payload(es);
    if t.slot.value.sendReady {
      var tick := e.env(0);
      if t.slot.value.sendAbort {
        FailEnds(x, local, h, t, got, e, if tick.sendOk then Some(Abort) else None, None);
      } else {
        FailEnds(x, local, h, t, got, e, None, Some(SendReadFail));
      }
    }
  }

  lemma GiveUpStep(x: Xfer, local: string, h: Option<Handle>, t: Xfer, es: seq<Event>, e: Event)
    requires Filling(x, local, h, t, Payload(es)) && (e.Aborted? || e.Accept? || e.Cancel?)
    ensures
      var u := Step(t, e);
      if u.slot.Some? then Filling(x, local, h, u, Payload(es + [e])) else Over(x, local, h, u, Payload(es), e)
  {
    assert Payload(es + [e]) == Payload(es) by { assert (es + [e])[..|es|] == es; }
    if e.Cancel? {
      FailEnds(x, local, h, t, Payload(es), e, Some(Abort), None);
    } else {
      FailEnds(x, local, h, t, Payload(es), e, None, Some(if e.Aborted? then RecvReadFail else SendWriteFail));
      GivesUp(t, e);
    }
  }

  lemma GivesUp(t: Xfer, e: Event)
    requires t.slot.Some? && t.slot.value.recv && (e.Aborted? || e.Accept?)
    ensures Step(t, e) ==
            if e.Aborted? then Tell(Clean(t), RecvReadFail)
            else if e.size == -1 then Tell(Clean(t), SendWriteFail)
            else t.(slot := Some(t.slot.value.(sendReady := true)))
  {
  }

  lemma ReceiveStep(x: Xfer, local: string, h: Option<Handle>, t: Xfer, es: seq<Event>, e: Event)
    requires Filling(x, local, h, t, Payload(es))
    ensures
      var u := Step(t, e);
      if u.slot.Some? then Filling(x, local, h, u, Payload(es + [e])) else Over(x, local, h, u, Payload(es), e)
  {
    match e
    case Header(_, _, _) => HeaderStep(x, local, h, t, es, e);
    case Data(_, _) => DataStep(x, local, h, t, es, e);
    case End => EndStep(x, local, h, t, es, e);
    case Wait(_) => WaitStep(x, local, h, t, es, e);
    case _ => GiveUpStep(x, local, h, t, es, e);
  }

  /** Without a transfer, events only change what the window is told. */
  lemma QuietStep(t: Xfer, e: Event)
    requires t.slot.None?
    ensures
      var u := Step(t, e);
      u.slot == t.slot && u.files == t.files && u.wire == t.wire &&
      Count(u.told, RecvEndOfFile) == Count(t.told, RecvEndOfFile)
  {
    QuietSame(t, e);
    TellAdds(t, SendWriteFail, RecvEndOfFile);
  }

  /** So after a transfer ended nothing changes until the next request. */
  lemma {:induction false} QuietRun(t: Xfer, es: seq<Event>)
    requires t.slot.None?
    ensures
      var u := Run(t, es);
      u.slot == t.slot && u.files == t.files && u.wire == t.wire &&
      Count(u.told, RecvEndOfFile) == Count(t.told, RecvEndOfFile)
  {
    if es != [] {
      QuietRun(t, es[..|es| - 1]);
      QuietStep(Run(t, es[..|es| - 1]), es[|es| - 1]);
    }
  }

  /** Whatever happens after a file was requested: while the transfer goes on the local file
      holds the packets so far. If it ended by the end-of-file message and a header had come, the
      file holds exactly the packets before it; if it ended otherwise a file that was opened is
      gone. Before the header it depends on the handle h: a null handle lets nothing happen to the
      files, and with the -1 of the source an end of file ends the transfer without a file, and a
      failure deletes a file of that name that was there before. */
  lemma {:induction false} ReceivesAllOrNothing(x: Xfer, h: Option<Handle>, remote: string, local: string, es: seq<Event>)
    requires Blank(h) && RecvFileWith(x, h, remote, local, true).1
    ensures
      var s := RecvFileWith(x, h, remote, local, true).0;
      var t := Run(s, es);
      if t.slot.Some? then Filling(x, local, h, t, Payload(es))
      else exists k | 0 <= k < |es| ::
             && Filling(x, local, h, Run(s, es[..k]), Payload(es[..k]))
             && Over(x, local, h, t, Payload(es[..k]), es[k])
    decreases |es|
  {
    var s := RecvFileWith(x, h, remote, local, true).0;
    if es != [] {
      var before, e := es[..|es| - 1], es[|es| - 1];
      assert es == before + [e];
      ReceivesAllOrNothing(x, h, remote, local, before);
      var t := Run(s, before);
      if t.slot.Some? {
        ReceiveStep(x, local, h, t, before, e);
      } else {
        var k :| 0 <= k < |before| && Filling(x, local, h, Run(s, before[..k]), Payload(before[..k])) &&
                 Over(x, local, h, t, Payload(before[..k]), before[k]);
        QuietStep(t, e);
        assert es[..k] == before[..k] && es[k] == before[k];
      }
    }
  }

  // --- Where the handle of the source matters -----------------------------------------

  /** Two transfers that differ in the handle of a receive that was not opened. */
  predicate Alike(t: Xfer, u: Xfer) {
    && t.files == u.files && t.wire == u.wire && t.told == u.told
    && (t.slot.Some? <==> u.slot.Some?)
    && (t.slot.Some? ==>
          t.slot.value == u.slot.value.(file := t.slot.value.file)
          && (t.slot.value.file == u.slot.value.file
              || (t.slot.value.recv && t.slot.value.file == Some(Unset) && u.slot.value.file == None)))
  }

  /** The event ends a receive that was not opened, other than by an end of file. */
  predicate GivesItUp(t: Xfer, e: Event)
    requires t.slot.Some?
  {
    match e
    case Header(size, openOk, _) => size == -1 || !openOk
    case Aborted => true
    case Accept(size) => size == -1
    case Cancel(sendOk) => !t.slot.value.sendReady && sendOk
    case Wait(_) => t.slot.value.sendReady
    case _ => false
  }

  /** The handle makes a difference for a receive that was not opened exactly if data or an end of
      file come before the header, or it is given up while there is a file of its name. */
  lemma HandleMatters(t: Xfer, e: Event)
    requires t.slot.Some? && t.slot.value.recv && t.slot.value.file == Some(Unset)
    ensures
      var u := t.(slot := Some(t.slot.value.(file := None)));
      Alike(Step(t, e), Step(u, e)) <==>
      !(e.Data? || e.End? || (GivesItUp(t, e) && t.slot.value.fname in t.files))
  {
    var u := t.(slot := Some(t.slot.value.(file := None)));
    if t.slot.value.fname in t.files {
      assert t.slot.value.fname !in t.files - {t.slot.value.fname};
    } else {
      assert t.files - {t.slot.value.fname} == t.files;
    }
    if e.Data? { DataMatters(t, u, e); }
  }

  /** Data before the header fail with the one handle and are ignored with the other. */
  lemma DataMatters(t: Xfer, u: Xfer, e: Event)
    requires t.slot.Some? && t.slot.value.file == Some(Unset) && u.slot.Some? && u.slot.value.file == None && e.Data?
    ensures Step(t, e).slot.None? && Step(u, e) == u
  {
  }

  // --- What the server is told --------------------------------------------------------

  /** A granted request is for the remote name and takes the empty slot for the local file; a
      refused one changes nothing. */
  lemma RequestsName(x: Xfer, remote: string, local: string, sendOk: bool)
    ensures
      var (t, ok) := RecvFile(x, remote, local, sendOk);
      && (ok <==> x.slot.None? && sendOk)
      && (!ok ==> t == x)
      && (ok ==>
            && Asked(t.wire) == Some(Request(remote)) && |t.wire| == |x.wire| + 1 && x.wire <= t.wire
            && t.files == x.files && t.told == x.told
            && Filling(x, local, Some(Unset), t, None) && !t.slot.value.sendReady && !t.slot.value.sendAbort)
  {
  }

  /** A granted offer is for the remote name, and the local file is what is read. */
  lemma OffersName(x: Xfer, remote: string, local: string, sendOk: bool)
    ensures
      var (t, ok) := SendFile(x, remote, local, sendOk);
      && (ok <==> x.slot.None? && local in x.files && sendOk)
      && (!ok ==> t == x)
      && (ok ==>
            && Asked(t.wire) == Some(Offer(remote)) && |t.wire| == |x.wire| + 1 && x.wire <= t.wire
            && t.files == x.files && t.told == x.told
            && SendState(t, x.files[local], Count(x.told, SendEndOfFile)) && Sent(t.wire) == []
            && t.slot.value.file == Some(Reading(x.files[local])) && !t.slot.value.sendReady && !t.slot.value.sendAbort)
  {
    var (t, ok) := SendFile(x, remote, local, sendOk);
    if ok {
      assert t.wire[|t.wire| - 1] == Offer(remote);
      assert Sent(t.wire) + x.files[local] == x.files[local];
    }
  }

  lemma TurnAsks(t: Xfer, tick: Tick)
    requires t.slot.Some? && t.slot.value.sendReady
    ensures Asked(Turn(t, tick).0.wire) == Asked(t.wire)
  {
    SendAdds(t, Abort, tick.sendOk);
    SendAdds(t, Eof, tick.sendOk);
    var cd := t.slot.value;
    if cd.file.Some? && cd.file.value.Reading? && cd.file.value.rest != [] {
      SendAdds(t, Packet(cd.file.value.rest[..ChunkSize(tick, cd.file.value.rest)]), true);
    }
  }

  lemma {:induction false} PumpAsks(t: Xfer, env: nat -> Tick, i: nat)
    requires t.slot.Some? && t.slot.value.sendReady
    ensures Asked(Pump(t, env, i).wire) == Asked(t.wire)
    decreases RestLength(t)
  {
    TurnAsks(t, env(i));
    var r := Turn(t, env(i));
    if r.1 { PumpAsks(r.0, env, i + 1); }
  }

  lemma StepAsks(t: Xfer, e: Event)
    ensures Asked(Step(t, e).wire) == Asked(t.wire)
  {
    match e
    case Header(size, _, replyOk) => SendAdds(t, HeaderReply(size != -1), replyOk);
    case Cancel(sendOk) => SendAdds(t, Abort, true);
    case Wait(env) => if t.slot.Some? && t.slot.value.sendReady { PumpAsks(t, env, 0); }
    case _ =>
  }

  /** Whatever happens to a transfer, nothing else is asked for. */
  lemma {:induction false} RunAsks(t: Xfer, es: seq<Event>)
    ensures Asked(Run(t, es).wire) == Asked(t.wire)
  {
    if es != [] {
      RunAsks(t, es[..|es| - 1]);
      StepAsks(Run(t, es[..|es| - 1]), es[|es| - 1]);
    }
  }

  /** The server is told that a file was taken if and only if its contents may come now: the
      transfer goes on with an empty local file. It is told that the file was refused when it
      reported an error itself, and nothing when the file cannot be opened. */
  lemma HeaderIsAnswered(t: Xfer, e: Event)
    requires t.slot.Some? && e.Header? && e.replyOk
    ensures
      var u := Step(t, e); var more := u.wire[|t.wire|..]; var cd := t.slot.value;
      && t.wire <= u.wire
      && (more == [HeaderReply(true)] <==> u.slot == Some(cd.(file := Some(Writing))))
      && (more == [HeaderReply(true)] <==> e.size != -1 && e.openOk)
      && (more == [HeaderReply(true)] ==> u.files == t.files[cd.fname := []] && u.told == t.told)
      && (more == [HeaderReply(false)] <==> e.size == -1)
      && |more| <= 1
      && (more != [HeaderReply(true)] ==> u.slot.None?)
  {
  }

  /** The window is told of every packet that is written, of the end, and of each failure, which
      ends the transfer, its kind: the server cannot read, the file cannot be created or written
      here, or cannot be written there. */
  lemma EventsAreTold(t: Xfer, e: Event)
    requires t.slot.Some? && !e.Wait?
    ensures
      var u := Step(t, e); var more := u.told[|t.told|..];
      && t.told <= u.told && |more| <= 1
      && (more != [] && !more[0].RecvChunk? ==> u.slot.None?)
      && (u.slot.None? && !e.Cancel? ==> more != [])
      && (more == [RecvReadFail] <==> (e.Header? && e.size == -1) || (e.Aborted? && t.slot.value.recv))
      && (more == [RecvCreateFail] <==> e.Header? && e.size != -1 && !e.openOk)
      && (more == [RecvWriteFail] <==> e.Data? && u.slot.None?)
      && (more == [SendWriteFail] <==> e.Accept? && e.size == -1)
      && (more == [RecvEndOfFile] <==> e.End? && t.slot.value.file.Some?)
      && (forall n :: more == [RecvChunk(n)] ==> e.Data? && n == |e.data|)
  {
  }

  /** The same of a turn of the send loop: after a packet the window is told its length, and the
      loop goes on unless data have come in; a packet that cannot be sent is not told, and the
      next turn gives the transfer up; a file that cannot be read ends it. */
  lemma TurnsAreTold(t: Xfer, tick: Tick)
    requires t.slot.Some? && t.slot.value.sendReady && !t.slot.value.sendAbort
    ensures
      var (u, goesOn) := Turn(t, tick); var more := u.told[|t.told|..]; var said := u.wire[|t.wire|..];
      && t.told <= u.told && t.wire <= u.wire && |more| <= 1 && |said| <= 1
      && (more == [SendReadFail] <==> !Pumping(t) || !tick.readOk)
      && (more == [SendEndOfFile] <==> Pumping(t) && tick.readOk && t.slot.value.file.value.rest == [])
      && (more == [SendReadFail] || more == [SendEndOfFile] ==> u.slot.None? && !goesOn)
      && (more == [] <==> u.slot.Some? && !tick.sendOk)
      && (more == [] ==> said == [] && goesOn && u.slot.value.sendAbort)
      && (u.slot.Some? && tick.sendOk ==>
            && |said| == 1 && said[0].Packet? && more == [SendChunk(|said[0].data|)] && (goesOn <==> !tick.incoming)
            && (u.slot.value.sendAbort <==> tick.cancel))
  {
  }

  /** A cancelled transfer is aborted: at once if the server did not accept it yet, and else when
      the send loop comes by, before any other packet; and the window is told nothing. */
  lemma CancelAborts(t: Xfer, env: nat -> Tick)
    requires t.slot.Some? && env(0).sendOk
    ensures
      var u := Step(Step(t, Cancel(true)), Wait(env));
      && u.slot.None? && u.wire == t.wire + [Abort] && u.told == t.told
      && u.files == Clean(t).files
  {
  }

  /** The call says whether the transfer is being aborted: not if there is none, and if the server
      did not accept it yet, only if the message could be sent; otherwise nothing changes. */
  lemma AbortSays(t: Xfer, sendOk: bool)
    ensures
      var (u, ok) := AbortTransfer(t, sendOk);
      && (ok <==> t.slot.Some? && (sendOk || t.slot.value.sendReady))
      && (!ok ==> u == t)
      && (ok ==> u.slot.None? || u.slot.value.sendAbort)
      && (ok && u.slot.None? <==> ok && !t.slot.value.sendReady)
  {
  }
}
