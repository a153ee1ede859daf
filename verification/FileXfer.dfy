/**
 filexfer.c in place: the record of the current transfer is an object that the requests of
 the window, the messages of the server and the send loop update. Every method does the step
 of the same name in FileXferSpec.
*/
module FileXferModule {
  import opened Options
  import opened Spec = FileXferSpec

  /** FXCDFILE. */
  class Record {
    const fname: string
    const recv: bool
    var file: Option<Handle>
    var sendReady: bool
    var sendAbort: bool

    constructor (fname: string, recv: bool, file: Option<Handle>)
      ensures this.fname == fname && this.recv == recv && this.file == file
      ensures !sendReady && !sendAbort
    {
      this.fname, this.recv, this.file := fname, recv, file;
      sendReady, sendAbort := false, false;
    }

    function View(): CdFile
      reads this
    {
      CdFile(fname, recv, file, sendReady, sendAbort)
    }
  }

  class FileXfer {
    /** The client data with the tag _TAG_FILE_DATA. */
    var cdFile: Record?
    var files: map<string, Bytes>
    var wire: seq<Out>
    var told: seq<Notice>

    function View(): Xfer
      reads this, cdFile
    {
      Xfer(if cdFile == null then None else Some(cdFile.View()), files, wire, told)
    }

    constructor (files: map<string, Bytes>)
      ensures View() == Xfer(None, files, [], [])
    {
      this.cdFile, this.files, this.wire, this.told := null, files, [], [];
    }

    /** _sendRFBFilexferMsg. */
    method SendMsg(m: Out, ok: bool) returns (sent: bool)
      modifies this`wire
      ensures View() == Send(old(View()), m, ok) && sent == ok
    {
      if ok { wire := wire + [m]; }
      return ok;
    }

    method Notify(n: Notice)
      modifies this`told
      ensures View() == Tell(old(View()), n)
    {
      told := told + [n];
    }

    /** fxClean. */
    method Clean()
      modifies this
      ensures View() == Spec.Clean(old(View())) && cdFile == null
    {
      if cdFile != null {
        if cdFile.file.Some? && cdFile.recv {
          files := files - {cdFile.fname};
        }
        cdFile := null;
      }
    }

    method RecvFile(remote: string, local: string, sendOk: bool) returns (ok: bool)
      modifies this
      ensures (View(), ok) == Spec.RecvFile(old(View()), remote, local, sendOk)
      ensures ok ==> wire == old(wire) + [Request(remote)] && cdFile.fname == local && cdFile.recv
      ensures ok ==> fresh(cdFile)
      ensures !ok ==> cdFile == old(cdFile)
    {
      if cdFile != null { return false; }
      cdFile := new Record(local, true, Some(Unset));
      ok := SendMsg(Request(remote), sendOk);
      if !ok { cdFile := null; }
    }

    method SendFile(remote: string, local: string, sendOk: bool) returns (ok: bool)
      modifies this
      ensures (View(), ok) == Spec.SendFile(old(View()), remote, local, sendOk)
      ensures ok ==> wire == old(wire) + [Offer(remote)] && cdFile.file == Some(Reading(files[local])) && !cdFile.recv
      ensures ok ==> fresh(cdFile)
      ensures !ok ==> cdFile == old(cdFile)
    {
      if cdFile != null || local !in files { return false; }
      cdFile := new Record(remote, false, Some(Reading(files[local])));
      ok := SendMsg(Offer(remote), sendOk);
      if !ok { cdFile := null; }
    }

    method AbortFileTransfer(sendOk: bool) returns (ok: bool)
      modifies this, cdFile
      ensures (View(), ok) == AbortTransfer(old(View()), sendOk)
      ensures cdFile == null || cdFile == old(cdFile)
    {
      if cdFile == null { return false; }
      if cdFile.sendReady {
        cdFile.sendAbort := true;
        return true;
      }
      ok := SendMsg(Abort, sendOk);
      if !ok { return false; }
      Clean();
    }

    // --- _cbRFBMessage ----------------------------------------------------------------

    method FileHeader(size: int, openOk: bool, sendOk: bool)
      modifies this, cdFile
      ensures View() == Spec.FileHeader(old(View()), size, openOk, sendOk)
      ensures cdFile == null || cdFile == old(cdFile)
    {
      if cdFile == null { return; }
      if size == -1 {
        var _ := SendMsg(HeaderReply(false), sendOk);
        Clean();
        Notify(RecvReadFail);
        return;
      }
      if !openOk {
        Clean();
        Notify(RecvCreateFail);
        return;
      }
      cdFile.file := Some(Writing);
      files := files[cdFile.fname := []];
      var _ := SendMsg(HeaderReply(true), sendOk);
    }

    method FilePacket(data: Bytes, writeOk: bool)
      modifies this
      ensures View() == Spec.FilePacket(old(View()), data, writeOk)
      ensures cdFile == null || cdFile == old(cdFile)
    {
      if cdFile == null || cdFile.file.None? { return; }
      if !(cdFile.file.value.Writing? && writeOk && cdFile.fname in files) {
        Clean();
        Notify(RecvWriteFail);
        return;
      }
      files := files[cdFile.fname := files[cdFile.fname] + data];
      Notify(RecvChunk(|data|));
    }

    method EndOfFile()
      modifies this, cdFile
      ensures View() == Spec.EndOfFile(old(View()))
      ensures cdFile == null || cdFile == old(cdFile)
    {
      if cdFile == null || cdFile.file.None? { return; }
      cdFile.file := None;
      Clean();
      Notify(RecvEndOfFile);
    }

    method ServerAbort()
      modifies this
      ensures View() == Spec.ServerAbort(old(View()))
      ensures cdFile == null || cdFile == old(cdFile)
    {
      if cdFile != null && cdFile.recv {
        Clean();
        Notify(RecvReadFail);
      }
    }

    method AcceptHeader(size: int)
      modifies this, cdFile
      ensures View() == Spec.AcceptHeader(old(View()), size)
      ensures cdFile == null || cdFile == old(cdFile)
    {
      if size == -1 {
        Clean();
        Notify(SendWriteFail);
      } else if cdFile != null {
        cdFile.sendReady := true;
      }
    }

    // --- fxWaitForMessage -------------------------------------------------------------

    method WaitForMessage(env: nat -> Tick)
      modifies this, cdFile
      ensures View() == Spec.WaitForMessage(old(View()), env)
      ensures cdFile == null || cdFile == old(cdFile)
    {
      if cdFile == null || !cdFile.sendReady { return; }
      ghost var start := View();
      var i := 0;
      while !cdFile.sendAbort
        invariant cdFile != null && cdFile == old(cdFile) && cdFile.sendReady
        invariant Pump(View(), env, i) == Pump(start, env, 0)
        decreases RestLength(View()), if cdFile.sendAbort then 0 else 1
      {
        var t := env(i);
        if cdFile.file.None? || !cdFile.file.value.Reading? || !t.readOk {
          Clean();
          Notify(SendReadFail);
          return;
        }
        var rest := cdFile.file.value.rest;
        if rest == [] {
          var _ := SendMsg(Eof, t.sendOk);
          Clean();
          Notify(SendEndOfFile);
          return;
        }
        var n := ChunkSize(t, rest);
        cdFile.file := Some(Reading(rest[n..]));
        var sent := SendMsg(Packet(rest[..n]), t.sendOk);
        if sent {
          Notify(SendChunk(n));
          if t.cancel { cdFile.sendAbort := true; }
          if t.incoming { return; }
        } else {
          cdFile.sendAbort := true;
        }
        i := i + 1;
      }
      var _ := SendMsg(Abort, env(i).sendOk);
      Clean();
    }
  }
}
