# Proofs about the VNC viewer's file manager and its neighbours

The project models, in Dafny, the recursive copy, move and delete engine of the VNC Viewer for
OS/2 together with the transfer protocol and the list it rests on, and some self-contained parts
of the viewer, the server and the keyboard tool. Code that changes things step by step is a class
or a state machine; each class method is proved equal to a step of a function, and what the source
is meant to guarantee is proved about all runs of those functions.

## What is modelled

**The scan engine** (`VNCViewer/fxdlg.c`). `Trees` holds finite directory trees, `ScanSpec` the
window procedures as functions of the scan data (`lsScan`, `lsScanDel`, the total, the flags, the
cancel mark), built from one primitive update per visible effect; the list of updates is the
history of an operation. `ScanEngineModule` has the same handlers in place, with their loops, and
`ScanLists` holds the two work lists for it in the intrusive lists of `VNCViewer/linkseq.h`.
A run is a start followed by any sequence of events that answer something outstanding: listing
entries, replies, failures, buttons, Cancel. System calls, replies and answers are parameters of the
events and arbitrary. `ScanShape` and `ScanRuns` give the invariant and the induction over runs.
On top of them: `ScanOrder` and `ScanDeletes` (deletions), `ScanCopies` (what a copy makes),
`ScanHistory` (order of making, transferring, deleting), `ScanConserve` (nothing is lost or handled
twice), `ScanOverwrite` (consent), `ScanReasons` (why each update happens), `ScanDues` and `ScanWork`
(what exactly happens in each event, in terms of what the user said), `ScanTotal` (the progress
total), `ScanProgress` and `ScanTermination` (every run is bounded), `ScanHangs` (exactly when one
hangs), `ScanSmooth` (operations in which nothing goes wrong), `ScanUploads` (refused directories).

**The transfer protocol** (`VNCViewer/filexfer.c`). `FileXferSpec` is the transfer record with the
local files, the messages sent and the notices to the window; `FileXferModule` does the same in
place, with the send loop; `FileXferRuns` is about every sequence of messages, cancels and turns.

**Both together.** `Compose` joins the engine and the transfer record: requests of the engine
fill the slot, notices of the protocol become events of the engine, which may issue the next request
before the call returns. A session is any number of operations, one after the other. The results
hold for any engine that keeps the rules of `Compose`, and `ComposeEngine` proves that the scan engine
does. `ComposeRuns` is the invariant of sessions, `ComposeSessions` ties the scan data of a session to
a run of the operation that was started last, `ComposeRequests` says what requests find in the slot,
`ComposeContents` what was transferred when a transfer counts as finished, `ComposeMoves` what a move
deletes, and `ComposeCopies` what a download leaves in the local files at its end. `ComposeHangs` and
`ComposeLoss` show sessions that hang and that lose files.

**The intrusive list** (`VNCViewer/linkseq.h`). `LinkSeqModule` has the pointer-to-pointer structure
on the heap: a cell is the list's own pointer or the next pointer of a node. A node carries an item of
the file manager, the record that the links are embedded in.

**The logon handshake and the mouse** (`VNCViewer/clntconn.c`). `Logon` interleaves the steps of the
two threads; the RFB thread takes the record without the mutex, so the copy, the release and the
clearing of the pointer are steps of their own. `Mouse` is the button mask.

**The names header** (`KbdXKey/namestbl.c`). `NamesSpec` cuts lines, passes over comments and builds
the tree, `NamesTable` does it with a cursor and growing children, `NamesValues` says how numbers are
written, and `NamesText` is the round trip.

**Log rotation** (`VNCServer/log.c`) is `LogRotation`; **the access list** (`VNCServer/config.c`) is
`AclSpec` (decisions), `AclModule` (the array) and `AclText` (the INI form).

## Where the source departs from its intent

- `hFile` starts at -1 while "not open" is tested against the null handle
  (`VNCViewer/filexfer.c:618`, `VNCViewer/filexfer.c:319`, `VNCViewer/filexfer.c:352`,
  `VNCViewer/filexfer.c:518`). The model has that third value. So a receive that is given up before its
  header deletes a local file of its name, a packet before the header fails its write, and end-of-file
  before the header counts as a finished receive, after which a move deletes a remote file of which
  nothing came. `FileXferRuns` says for both handles what a receive leaves and exactly when they differ,
  `ComposeContents` that a finished download has its whole contents if and only if a header came, and
  `ComposeLoss` has a session that loses the file.
- An error of DosFindNext ends the search loop like the end of the directory does
  (`VNCViewer/fxdlg.c:897-918`), so a partial listing is taken for complete. In the model a search may
  break off behind any entry; the entries behind it are missed, which `ScanConserve` counts.
- The kind check of the logon record reads the caller's record before it is filled
  (`VNCViewer/clntconn.c:177`); its outcome is free in the model. `_cbRFBGetCredential` asks for a
  password, not a credential (`VNCViewer/clntconn.c:540`); the model takes the kind as a parameter.
- The answer to making a remote directory is not looked at: an upload goes on after a refusal
  (`VNCViewer/fxdlg.c:2416-2452`). `ScanUploads` says when exactly a file is sent into a directory
  that was made, and gives a run in which it is not.
- The progress total counts files that were dropped because of their long names, and skips of other
  things than queued files distort it; `ScanTotal` has the exact condition.
- A failed directory search, or a delete request that cannot be sent while `lsScan` is empty, leaves
  the operation with nothing pending; it then hangs for ever (`ScanHangs` has the exact condition).
- The answer to a deletion is said to be impossible for a head that is not a directory
  (`VNCViewer/fxdlg.c:2393-2394`), but that branch only prints a message and is the ordinary case when
  a move deletes its files; the model does not count it as one of the impossible branches.
- End-of-file from the server is accepted while a file is being sent
  (`VNCViewer/filexfer.c:342-382`), and the window then hears of the end of a transfer that was not
  complete; a move deletes the source all the same. `ComposeLoss` has such a session, and
  `ComposeContents` proves that an upload taken for finished was sent whole if and only if it did not
  end that way with something left to send.
- A packet that cannot be sent makes the send loop give the transfer up without telling the window
  (`VNCViewer/filexfer.c:889-900`), and the operation then waits for ever. `ComposeHangs` proves that
  this is exactly when the engine waits for a transfer that is gone.
- A cancelled transfer that the server had accepted keeps the transfer slot until the send loop comes
  by, so a request issued in between is refused as being in progress. `ComposeRequests` proves that
  the slot is filled for a request exactly then, and has a session in which it happens.
- An accept message without a transfer dereferences a null pointer
  (`VNCViewer/filexfer.c:422`); the model ignores the message.
- A range is written with spaces around the hyphen and cannot be read back, and the single address
  255.255.255.255 is taken for an error (`common/utils.c:1032-1036`, `common/utils.c:1171-1174`).
  `AclText` proves which rules survive; a comment gains a space with every store and load.
- A value of 32 characters passes the first length test of a define (`KbdXKey/namestbl.c:113`), but the
  second test refuses them.
- A comment that begins behind the name of an #ifdef, behind an #endif or behind the value of a define
  and goes on to the next line is not seen there (`KbdXKey/namestbl.c:209-222`).
- If the name of the log file has one of the rotation numbers as its extension, rotation deletes or
  renames the log itself (`VNCServer/log.c:134-151`).

## Model

| member | source | states |
|---|---|---|
| ScanOrder.DeletesChildrenFirst | VNCViewer/fxdlg.c:489-577 | in every run, whatever is skipped, refused, cancelled or failing, no deletion is followed by the deletion of something below it |
| ScanDeletes.ExactlyOneDelete | VNCViewer/fxdlg.c:2295-2306 | a delete or move that ends with nothing skipped, dropped, failed or left queued issues exactly one delete for every entry of the selected subtrees and none for any other path |
| ScanDeletes.NeverTwice | VNCViewer/fxdlg.c:922-953 | in every run no path is deleted twice, none outside the selection is deleted, and copies delete nothing |
| ScanCopies.ExactlyOneCopy | VNCViewer/fxdlg.c:2258-2373 | a copy that ends with nothing skipped, dropped, failed or left queued makes or transfers every path of the selection exactly once and no other path |
| ScanCopies.CopiesEveryEntry | VNCViewer/fxdlg.c:2258-2373 | in such a copy every directory entry of the selected subtrees was made as a directory and every file entry transferred as a file |
| ScanCopies.CopiedOnce | VNCViewer/fxdlg.c:2295-2306 | in every run, disturbed or not, no path is made or transferred twice, nor while it is still queued |
| ScanConserve.NothingLost | VNCViewer/fxdlg.c:599-733 | at every moment each entry of the selection is either still queued, below the part of the head not yet listed, or settled once; an end that leaves nothing queued has settled all |
| ScanHistory.DirectoriesTopDown | VNCViewer/fxdlg.c:2273-2309 | in every copy or move a directory below the selection is made only after its parent was |
| ScanHistory.FilesAfterDirectories | VNCViewer/fxdlg.c:2509-2545 | no transfer starts before the last directory was listed, made and left |
| ScanHistory.MoveKeepsUntransferred | VNCViewer/fxdlg.c:2337-2373 | a move deletes a source file only after the end-of-file of a transfer of that very file that was started before |
| ScanOverwrite.OverwritesWithConsent | VNCViewer/fxdlg.c:648-692 | a transfer that is recorded as going onto an existing file starts only directly after an OK for that file or after an ALL, and never after a NONE; what is recorded is what the calls returned (ScanReasons.EverythingHasReasons) |
| ScanOverwrite.ReplacesDirectoriesWithConsent | VNCViewer/fxdlg.c:814-826 | in every upload a directory that the remote panel shows is listed, and so copied, only after an OK for that very directory with nothing but its own entries in between |
| ScanReasons.EverythingHasReasons | VNCViewer/fxdlg.c:599-958 | in every run and for every event each update is justified by what the calls of that event returned, by the panel and by what the user said before: a transfer onto a file that exists only right after OK for it or after ALL, and never after NONE; a question only where it is in the way and unanswered; a pass only after NONE; an early end only if cancelled or if nothing can be sent; and so on for all updates |
| ScanReasons.StartHasReasons | VNCViewer/fxdlg.c:1723-1751 | the same for the first step of an operation |
| ScanWork.EventsDoTheirWork | VNCViewer/fxdlg.c:2056-2551 | in every run an event records its answer and then ends a cancelled operation, and in any other does exactly what is due, in the words of the user and the panel: which files are asked about, passed over, transferred or refused, how a directory is listed entry by entry, what is deleted, and where the loop stops |
| ScanWork.StartDoesItsWork | VNCViewer/fxdlg.c:1723-1751 | the first step does exactly what is due to the selection |
| ScanWork.ButtonsAreHeeded | VNCViewer/fxdlg.c:2065-2083 | unless Cancel was clicked meanwhile, OK and ALL in an overwrite box make the transfer of that very file, or its refusal, the next thing that happens, and NONE makes it passed over if it is still there |
| ScanWork.CancelledExactly | VNCViewer/fxdlg.c:2085-2100 | an operation that goes on is marked as cancelled if and only if Cancel was clicked in the progress window or in a box |
| ScanWork.EndsEarlyOnlyIf | VNCViewer/fxdlg.c:960-1012 | an operation ends with something left queued only if it was cancelled or something could not be sent |
| ScanWork.LeavesNothingBehind | VNCViewer/fxdlg.c:461-487 | when an operation is over the scan data are as before it, flags, total and cancel mark included |
| ScanSmooth.SmoothRunsDoItAll | VNCViewer/fxdlg.c:560-576 | an operation that nobody cancels and in which every call succeeds and nothing is in the way asks nothing and leaves nothing out; once only idle events can happen it is over, a copy has made every directory and transferred every file, and a move or a delete has issued one deletion for every entry |
| ScanTotal.TotalIsDoneAndQueued | VNCViewer/fxdlg.c:572-576 | while an operation runs the total is the bytes done plus the bytes queued, modulo 2^64, if and only if the recorded drift is nil |
| ScanTotal.NoDrift | VNCViewer/fxdlg.c:1014-1034 | there is no drift as long as only queued files are skipped, nothing with bytes is dropped for its name, and directories carry no size |
| ScanTotal.TooLongNameDrifts | VNCViewer/fxdlg.c:753-761 | a concrete upload in which a name does not fit and the total is too large |
| ScanTermination.RunsAreBounded | VNCViewer/fxdlg.c:599-733 | the number of answers and the number of updates of a run are bounded by a number fixed by the selection, the retry loops included |
| ScanTermination.OneThingAtATime | VNCViewer/fxdlg.c:560-576 | in every reachable state `lsScan` is directories before files, and the operation is over with empty lists, or waits for exactly one thing that concerns the right item, or hangs |
| ScanHangs.HangsExactly | VNCViewer/fxdlg.c:599-733 | a run is hung if and only if the start or one of its events took a step that, after the names dropped, files passed over and local deletions, came to a local directory whose search failed or to a deletion from `lsScanDel` that could not be requested |
| ScanHangs.WorkingRunsEnd | VNCViewer/fxdlg.c:960-1012 | when searches and sends succeed every run either has exactly one thing outstanding and can go on, or is over with both lists empty; together with the bound every such operation ends |
| ScanTermination.Answerable | VNCViewer/fxdlg.c:2056-2126 | whatever is outstanding can be answered, and the answer is a counted event |
| ScanHangs.StepHangsExactly | VNCViewer/fxdlg.c:887-891 | the same for one step from any state: it neither ends the operation nor leaves anything outstanding if and only if it is not cancelled and stops at such a directory or deletion |
| ScanHangs.FailedSearchHangs | VNCViewer/fxdlg.c:887-891 | deleting a local directory that cannot be searched hangs at once |
| ScanHangs.FailedDeleteHangs | VNCViewer/fxdlg.c:707-729 | a concrete deletion of an empty remote directory that hangs when the connection fails after the listing |
| ScanTermination.HungForever | VNCViewer/fxdlg.c:722-728 | in a hung operation nothing can happen any more but clicks on Cancel without effect |
| ScanTermination.NeverWtf | VNCViewer/fxdlg.c:2267-2271 | the branches that the source believes impossible are never taken |
| ScanUploads.SendsIntoMadeDirectory | VNCViewer/fxdlg.c:2488-2551 | when a file is sent the making of its directory was answered, and with success if and only if not with failure |
| ScanUploads.RefusedDirectoryIsIgnored | VNCViewer/fxdlg.c:2416-2452 | a concrete run in which the server refuses a directory and a file is sent into it |
| ScanRuns.Always | VNCViewer/fxdlg.c:2056-2551 | every handler is a chain of permitted updates, so what each of them keeps holds in every state of every run, together with the shape of the state |
| ScanShape.ShapeKept | VNCViewer/fxdlg.c:489-577 | every permitted update keeps directories before files, one thing outstanding at most, and its answer concerning the head |
| ScanLists.WorkLists.AddScan | VNCViewer/fxdlg.c:560-575 | a new node carries the item behind the directory at the head, at the front or at the end of `lsScan`, and the pointers of both lists stay right |
| ScanLists.WorkLists.KeepScan | VNCViewer/fxdlg.c:2295-2306 | the head node of `lsScan` becomes the first of `lsScanDel`, and the pointers of both lists stay right |
| ScanLists.WorkLists.PopScan | VNCViewer/fxdlg.c:463-475 | the head node leaves `lsScan`, and `lsScanDel` is untouched |
| ScanEngineModule.ScanEngine.FilesAdd | VNCViewer/fxdlg.c:489-577 | the new state is that of the specification: directories directly behind a directory at the head, files to the end, dot entries and empty names left out, the total wrapped at 64 bits |
| ScanEngineModule.ScanEngine.FilesClean | VNCViewer/fxdlg.c:461-487 | both lists are emptied item by item and the data reset |
| ScanEngineModule.ScanEngine.SkipNext | VNCViewer/fxdlg.c:1014-1034 | the head of `lsScan`, or else of `lsScanDel`, leaves and its size leaves the total |
| ScanEngineModule.ScanEngine.SendRequest | VNCViewer/fxdlg.c:599-733 | the loop that passes over files after a NONE makes the one request, question or stall of the specification |
| ScanEngineModule.ScanEngine.LocalRequest | VNCViewer/fxdlg.c:735-958 | the loop over local items makes the deletions, drops, listings and the one request of the specification |
| ScanEngineModule.ScanEngine.ListHead | VNCViewer/fxdlg.c:875-919 | the search loop queues every entry that was found and fits, up to an error of the search, and posts the end of the list all the same |
| ScanEngineModule.ScanEngine.DeleteListed | VNCViewer/fxdlg.c:922-953 | the deletion loop over `lsScanDel` stops at the first file that cannot be deleted |
| ScanEngineModule.ScanEngine.NextStep | VNCViewer/fxdlg.c:960-1012 | cancel or the end of the requests clean the operation up, anything else leaves it waiting |
| ScanEngineModule.ScanEngine.Begin | VNCViewer/fxdlg.c:1723-1751 | the selection is loaded and the first step made |
| ScanEngineModule.ScanEngine.FindData | VNCViewer/fxdlg.c:2199-2256 | an entry of the directory at the head is queued, dot entries are not |
| ScanEngineModule.ScanEngine.EndOfList | VNCViewer/fxdlg.c:2258-2320 | the copy of the directory is made first, and a failure of it is asked about before the head leaves |
| ScanEngineModule.ScanEngine.EndOfLocalList | VNCViewer/fxdlg.c:2488-2551 | the directory leaves the queue when its making is requested, and a request that fails ends the operation |
| ScanEngineModule.ScanEngine.EndOfFile | VNCViewer/fxdlg.c:2337-2373 | the head leaves; in a move it is remembered for deletion |
| ScanEngineModule.ScanEngine.DeleteResult | VNCViewer/fxdlg.c:2375-2414 | the item leaves the list it is on, and a failed deletion is asked about |
| ScanEngineModule.ScanEngine.MkDirResult | VNCViewer/fxdlg.c:2416-2452 | the next step follows whatever the answer |
| ScanEngineModule.ScanEngine.TransferFailed | VNCViewer/fxdlg.c:1036-1051 | the failure box names the item that a skip would remove |
| ScanEngineModule.ScanEngine.FileChunk | VNCViewer/fxdlg.c:2322-2335 | a cancelled operation aborts its transfer and ends |
| ScanEngineModule.ScanEngine.MsgBoxDismiss | VNCViewer/fxdlg.c:2056-2126 | each button sets the flags, skips or cancels as specified, and the next step follows |
| ScanEngineModule.ScanEngine.Handle | VNCViewer/fxdlg.c:2056-2551 | every event that can come, Cancel included, takes what it answers from what is outstanding and does to the scan data what one step of the runs does |
| FileXferRuns.SendsPrefixThenOneEnd | VNCViewer/filexfer.c:834-911 | after any interleaving of messages, cancels and turns the packets sent are a prefix of the file, at most one terminator was sent and nothing after it, and end-of-file is sent and told only when the packets are the whole file |
| FileXferRuns.PumpsAll | VNCViewer/filexfer.c:850-895 | an accepted send without trouble sends the rest of the file and the end-of-file message in one visit of the loop |
| FileXferRuns.ReceivesAllOrNothing | VNCViewer/filexfer.c:245-404 | for the handle of the source and for a null handle, after any sequence of events: a receive holds the packets since its header, or ended by end-of-file with exactly those in the file, or ended otherwise with an opened file deleted; one that was not opened leaves the file untouched with the null handle, and with that of the source deletes it unless end-of-file ended it |
| FileXferRuns.HandleMatters | VNCViewer/filexfer.c:618 | for a receive that was not opened an event has the same effect under the handle of the source and under a null handle, if and only if it is no packet, no end-of-file and does not give up a receive whose file exists |
| FileXferRuns.QuietRun | VNCViewer/filexfer.c:253-257 | without a transfer in the slot no sequence of events changes files, sends anything or tells of a received file |
| FileXferRuns.RequestsName | VNCViewer/filexfer.c:597-650 | a request is granted if and only if the slot is empty and it can be sent; then just a request for the remote name is added to what was sent, and the slot is to fill the local file; otherwise nothing changes |
| FileXferRuns.OffersName | VNCViewer/filexfer.c:734-831 | the same of an offer, which also needs the local file, and reads that file |
| FileXferRuns.RunAsks | VNCViewer/filexfer.c:245-424 | after any sequence of messages, cancels and turns the latest request or offer is the one the transfer began with |
| FileXferRuns.HeaderIsAnswered | VNCViewer/filexfer.c:260-302 | the server is told that its file was taken if and only if the transfer goes on with an empty local file, that it was refused if and only if it reported an error itself, and nothing else |
| FileXferRuns.EventsAreTold | VNCViewer/filexfer.c:245-424 | the window is told each packet that is written, the end, and each failure by its own notice, at most one per message, and a transfer never ends in silence but by its own cancellation |
| FileXferRuns.TurnsAreTold | VNCViewer/filexfer.c:850-900 | the same for the turns of the send loop, and when the loop goes on |
| FileXferRuns.CancelAborts | VNCViewer/filexfer.c:652-674 | a cancelled transfer is aborted towards the server, at once or when the send loop comes by and before any other packet, and the window is told nothing |
| FileXferRuns.AbortSays | VNCViewer/filexfer.c:652-674 | the call succeeds if and only if there is a transfer that the server accepted or the message could be sent, and changes nothing otherwise |
| FileXferModule.FileXfer.RecvFile | VNCViewer/filexfer.c:597-650 | a receive takes the empty slot for the local name and asks the server for the remote one; an occupied slot or a failed send leaves everything as it was |
| FileXferModule.FileXfer.SendFile | VNCViewer/filexfer.c:734-831 | an offer takes the empty slot with the whole local file to read and is sent with the remote name; otherwise nothing changes |
| FileXferModule.FileXfer.AbortFileTransfer | VNCViewer/filexfer.c:652-674 | an accepted send is only marked, any other transfer is aborted and cleared |
| FileXferModule.FileXfer.Clean | VNCViewer/filexfer.c:512-528 | the slot is emptied, and the file of a receive deleted unless its handle is null; the -1 of a receive that was never opened is not null |
| FileXferModule.FileXfer.FileHeader | VNCViewer/filexfer.c:245-304 | refusal and failure clear the transfer, success creates or empties the file |
| FileXferModule.FileXfer.FilePacket | VNCViewer/filexfer.c:306-340 | a packet is appended to an open file; a failed write, as to a file that is not open yet, clears the transfer |
| FileXferModule.FileXfer.EndOfFile | VNCViewer/filexfer.c:342-382 | whatever the handle is, but null, the file stays, the slot is empty and the window is told after that |
| FileXferModule.FileXfer.ServerAbort | VNCViewer/filexfer.c:384-404 | only a receive is given up |
| FileXferModule.FileXfer.AcceptHeader | VNCViewer/filexfer.c:408-424 | acceptance makes the send ready, refusal clears it |
| FileXferModule.FileXfer.WaitForMessage | VNCViewer/filexfer.c:834-911 | the send loop is the specification's recursion over turns: packets until the end, an error, a cancel or incoming data |
| ComposeRequests.RequestsFindTheSlotFilled | VNCViewer/filexfer.c:597-609 | in every session of any engine that keeps the rules a request finds the slot filled if and only if a transfer that the server had accepted was cancelled and the send loop did not come by since then |
| ComposeRequests.RequestInNotice | VNCViewer/filexfer.c:868-877 | a request issued from inside a notice of the transfer, as after end-of-file, always finds the slot empty |
| ComposeRequests.ScanRequests | VNCViewer/filexfer.c:755-759 | both hold of the scan engine: the slot is filled for its requests in exactly that case |
| ComposeRequests.CancelledUploadBlocksTheNext | VNCViewer/filexfer.c:652-674 | a concrete session: an accepted upload is cancelled at its first chunk, and the next upload is refused because the slot still holds the first |
| ComposeContents.FinishedUploads | VNCViewer/filexfer.c:342-382 | an upload that the engine takes for finished was sent whole if and only if the send loop ended it, or an end-of-file message came when nothing was left to send |
| ComposeContents.FinishedDownloads | VNCViewer/filexfer.c:306-382 | a download that the engine takes for finished was ended by an end-of-file message; the local file holds exactly the packets since its header and no other file changed, if and only if there was a header, and else all files are as they were |
| ComposeMoves.MovesDeleteWhatWasTransferred | VNCViewer/fxdlg.c:2337-2373 | in every session, when a move deletes a file, an event of that very move had finished its transfer, and all of it was sent or received then if and only if the server did not end the transfer early |
| ComposeCopies.DownloadsStay | VNCViewer/fxdlg.c:2337-2373 | in every session and whatever goes wrong, the local file of each file that the latest operation, a download, recorded as transferred holds exactly the packets received for it, unless the server ended its transfer early |
| ComposeCopies.UndisturbedDownloadsArrive | VNCViewer/fxdlg.c:2337-2373 | when a download copy ends with nothing skipped, dropped, failed or left queued, every directory entry of the selected subtrees was made and every file entry is there with exactly the packets received for it, unless the server ended its transfer early |
| ComposeLoss.EndMessagesLoseFiles | VNCViewer/filexfer.c:342-382 | a concrete session in which two files are moved to a server that answers with end-of-file, no packet is sent, and both source files are deleted |
| ComposeLoss.EndMessageLosesDownload | VNCViewer/filexfer.c:342-382 | a concrete session in which a file is moved from a server that answers with end-of-file instead of a header, no local file is made, and the deletion of the remote file is requested |
| ComposeContents.FinishedByNotice | VNCViewer/fxdlg.c:2337-2373 | the end of a transfer is recorded only for the item that is waited for, in an end-of-file notice, and with the slot empty |
| ComposeSessions.SessionsAreRuns | VNCViewer/fxdlg.c:1723-1751 | in every session the scan data are those of a run of the operation that the user started last, with its selection and setup, so that all results about runs hold in sessions |
| ComposeSessions.SessionsDeleteOnce | VNCViewer/fxdlg.c:922-953 | in every session the operation started last deletes no path twice, none outside its selection, and as a copy none at all |
| ComposeSessions.SessionsDeleteExactly | VNCViewer/fxdlg.c:2295-2306 | in every session, when the delete or move started last ended with nothing skipped, dropped, failed or left queued, it issued exactly one delete for every path of its selection and none for others |
| ComposeSessions.SessionsNameFiles | VNCViewer/fxdlg.c:608-699 | in every session, while a transfer is awaited, the latest request or offer names the path of its item below the remote directory of the operation, and the file that is filled or read is that of the path below the local one |
| ComposeEngine.ScanObeys | VNCViewer/fxdlg.c:2322-2373 | the scan engine issues at most one transfer request per event, as its last update, waits for a transfer exactly then, and aborts only at a chunk in a cancelled operation |
| ComposeRuns.SessionKeeps | VNCViewer/filexfer.c:755-759 | in every session the transfer in the slot is the one the engine waits for and stands as its messages say, but for two exact exceptions: a cancelled one was left there, or a packet could not be sent |
| ComposeHangs.WaitsInVainExactly | VNCViewer/filexfer.c:879-900 | a session of the scan engine waits for a transfer that is gone if and only if a packet could not be sent; in all others it waits for a transfer exactly while one is alive |
| ComposeHangs.DroppedPacketHangs | VNCViewer/filexfer.c:889-900 | once a packet could not be sent, nothing can happen in the operation any more but clicks on Cancel without effect |
| ComposeHangs.PacketIsDropped | VNCViewer/filexfer.c:889-900 | a concrete session in which that happens |
| LinkSeqModule.LinkSeq.Add | VNCViewer/linkseq.h:68-74 | the sequence grows at its end and every cell stays right |
| LinkSeqModule.LinkSeq.AddFirst | VNCViewer/linkseq.h:87-94 | the sequence grows at its front |
| LinkSeqModule.LinkSeq.AddAfter | VNCViewer/linkseq.h:76-85 | the node is inserted behind the given one |
| LinkSeqModule.LinkSeq.AddBefore | VNCViewer/linkseq.h:96-105 | the node is inserted in front of the given one |
| LinkSeqModule.LinkSeq.Remove | VNCViewer/linkseq.h:37-45 | the node leaves the sequence and is unlinked; an unlinked node changes nothing |
| LinkSeqModule.LinkSeq.Replace | VNCViewer/linkseq.h:46-55 | the new node takes the place of the old one |
| LinkSeqModule.LinkSeq.Move | VNCViewer/linkseq.h:120-129 | the other list's nodes are appended and it is left empty |
| LinkSeqModule.LinkSeq.Free | VNCViewer/linkseq.h:23-31 | every node is unlinked and handed over exactly once, in order |
| LinkSeqModule.LinkSeq.ForEach | VNCViewer/linkseq.h:109-117 | the nodes up to the first refusal are visited, and only visited nodes may leave |
| LinkSeqModule.LinkSeq.NodesDistinct | VNCViewer/linkseq.h:4-13 | no node is in a list twice: it follows from the back pointers |
| LinkSeqModule.LinkSeq.SelfPoints | VNCViewer/linkseq.h:4-13 | each back pointer names the cell that points at its node and the last cell is null |
| LinkSeqModule.LinkSeq.ValidChain | VNCViewer/linkseq.h:35-36 | following the next pointers visits exactly the sequence |
| LinkSeqModule.ChainUnique | VNCViewer/linkseq.h:35-36 | the pointers determine the sequence |
| LinkSeqModule.KeptAre | VNCViewer/linkseq.h:109-117 | what is left of the visited nodes are those the visitor did not unlink |
| Logon.HandsOverCurrentRecords | VNCViewer/clntconn.c:148-195 | in every interleaving in which no request begins after a failed wait, so in all in which no wait fails, a record that is handed over was submitted during that request, before its wait was over unless another one had been submitted before, has its kind and is handed over once; what is handed over is undefined if and only if a second submission crossed the copy |
| Logon.SecondSubmissionCanSpoil | VNCViewer/clntconn.c:1610-1647 | a concrete interleaving of two submissions and the unlocked take that hands over undefined memory |
| Logon.FailedWaitLetsRecordThrough | VNCViewer/clntconn.c:166-172 | a concrete interleaving in which, with a library that asks again after a failed wait, a record of the earlier request and of the wrong kind is used |
| Logon.RunKeeps | VNCViewer/clntconn.c:131-140 | as long as no wait fails every step keeps the invariant about who may be where, what the shared pointer and the copies hold, which submissions cross the copy, and how often was submitted |
| Logon.LogonHandsOver | VNCViewer/clntconn.c:131-195 | from every state of rest a request to which one record of its kind is submitted while it waits hands over that record and is at rest again |
| Logon.OthersAreRefused | VNCViewer/clntconn.c:1612-1630 | a record of the other kind, or one that nobody asked for, changes nothing |
| Logon.StopEndsRequest | VNCViewer/clntconn.c:148-195 | a request that is stopped while it waits ends with nothing handed over |
| Mouse.Input.SendMouseEvent | VNCViewer/clntconn.c:1649-1688 | the mask and the messages sent are those that the history of events asks for |
| Mouse.LastShowsHeldButtons | VNCViewer/clntconn.c:1675-1684 | the last message shows exactly the ordinary buttons whose latest event was a press, and a wheel press is followed at once by its release at the same place |
| Mouse.LastShowsButtons | VNCViewer/clntconn.c:1661-1668 | in the last message bit 0, 1 and 2 is set if and only if the latest accepted event with the code 1 for left, 3 for middle and 2 for right was a press, and no other bit is |
| Mouse.EventSends | VNCViewer/clntconn.c:1653-1686 | an event sends nothing while the connection is for viewing only or not ready, and else one message at (x, height - y - 1), with one before it for a press of the wheel in which just bit 4 for code 5, or bit 3 for any other, is set in addition |
| Mouse.ClickedMore | VNCViewer/clntconn.c:1679-1684 | the messages of one more event keep every wheel press directly before its release |
| NamesText.RoundTrip | KbdXKey/namestbl.c:165-267 | reading the text of any trees gives the trees with their child counts and the numbers that the values spell, and leaves nothing, whatever the case of the directives, and whatever white space, comments, and lines that are no directives or defines without a number stand between the lines, and white space and comments between the words, behind the values and, up to the end of the line, behind each ifdef and endif |
| NamesValues.ReadsNumbers | common/utils.c:562-590 | every spelling of a number, decimal, octal or hexadecimal, with or without a plus, zeros in front and capital letters, is read as that number, cut to 32 bits |
| NamesValues.ReadsNothingElse | KbdXKey/namestbl.c:113-126 | a value is read if and only if it is such a spelling of fewer than 24 characters |
| NamesText.LookupInText | KbdXKey/namestbl.c:320-345 | looking a value up in that tree agrees with a flat scan of the lines |
| NamesText.CommentBehindIfdefIsNotSeen | KbdXKey/namestbl.c:213-222 | a comment that begins behind the name of an ifdef line and goes on to the next lines is not seen, and those lines are read as text |
| NamesText.NoiseSkipped | KbdXKey/namestbl.c:180-207 | blanks, line comments and block comments over any number of lines do not change what is read |
| NamesSpec.TreeIsFlatScan | KbdXKey/namestbl.c:165-267 | for any lines the entries of the tree are those of the flat scan of what was read |
| NamesSpec.FindAgreesWithScan | KbdXKey/namestbl.c:320-345 | the search gives the define that is listed first among those with the value |
| NamesTable.ReadNode | KbdXKey/namestbl.c:165-267 | the recursive reader consumes the lines up to its end and has counted its children |
| NamesTable.ScanLine | KbdXKey/namestbl.c:180-207 | the jumps inside a line end with the meaning of the line |
| NamesTable.Children.InsertNode | KbdXKey/namestbl.c:65-99 | the node is appended with its decorated name and counted |
| NamesTable.Children.InsertDefine | KbdXKey/namestbl.c:104-163 | a define is appended and counted if its value is a number |
| NamesTable.FindDefine | KbdXKey/namestbl.c:320-345 | the recursive loop returns the first entry with the value in the order of the text |
| LogRotation.Log.LogStr | VNCServer/log.c:110-171 | for any name of the log the files are those of one rotation, if the file was full, and the trimmed record; the history grows by that record |
| LogRotation.Log.Rotate | VNCServer/log.c:119-156 | for any name of the log the renaming loop is the specified shift, and no rename lands on a file that exists |
| LogRotation.Log.FilesAreTheEnd | VNCServer/log.c:110-171 | the files from the oldest to the newest are the end of the initial contents and all records, cut between records |
| LogRotation.RotationDropsTheOldest | VNCServer/log.c:126-153 | rotation drops the oldest file's contents and keeps the order of all others |
| LogRotation.RotationMovesUp | VNCServer/log.c:126-153 | every file moves up by one name and the log's own name is free, for all files, if and only if no rotation name is the log's name |
| LogRotation.LogStaysSmall | VNCServer/log.c:110-131 | where rotation works the log is never longer than the limit by more than its last record; below the limit nothing is renamed, and from it on the log begins anew and its contents are the first of the other files |
| LogRotation.ExtensionReplaced | common/utils.c:1696-1744 | the extension is what follows the last point that no separator follows; it is replaced, and where there is none one is added |
| LogRotation.DecimalReads | VNCServer/log.c:128-140 | the extension of the k-th file is k in decimal digits without a zero in front |
| LogRotation.NumberedNameLosesTheNewest | VNCServer/log.c:134-151 | a concrete log whose name is a rotation name loses its newest text |
| LogRotation.Log.Trim | VNCServer/log.c:163-167 | the white space at both ends of a record is removed and nothing else |
| AclSpec.CheckIsFirst | VNCServer/config.c:531-550 | the answer is that of the lowest-indexed enabled rule whose two ends enclose the address, ends included, or that there is no such rule, or that there are no rules |
| AclSpec.InsertDecides | VNCServer/config.c:397-422 | a new rule decides exactly the addresses it contains that no rule before it catches |
| AclSpec.ExchangeDecides | VNCServer/config.c:450-463 | moving a rule changes a decision exactly if both rules catch the address, none before does, and they disagree |
| AclSpec.DisjointRulesCommute | VNCServer/config.c:450-463 | rules that do not overlap can be exchanged without effect |
| AclModule.Acl.Insert | VNCServer/config.c:397-422 | the item is inserted in place, growing the array by sixteen; an index past the end appends |
| AclModule.Acl.Move | VNCServer/config.c:450-463 | neighbours are exchanged unless the wrapped index is past the end |
| AclModule.Acl.Check | VNCServer/config.c:531-550 | the loop gives the answer of the first matching rule, or that there is none or no list |
| AclModule.Acl.StoreAll | VNCServer/config.c:319-329 | the texts of the rules that have one, in order |
| AclModule.Acl.LoadAll | VNCServer/config.c:177-212 | the list is rebuilt from the texts that can be read, in order |
| AclText.ReloadedIs | VNCServer/config.c:465-529 | storing and loading gives a rule back, but for its comment, exactly if its range is everything, a readable address or a network |
| AclText.LoadKeepsDecision | VNCServer/config.c:319-329 | storing and loading keeps the rule for an address exactly if its first rule survives or the surviving rules after it say the same |
| AclText.ReadableListKeepsAll | VNCServer/config.c:177-212 | if all enabled rules are readable every decision survives |
| AclText.HyphenRangeIsForgotten | VNCServer/config.c:319-329 | a concrete list that denies an address and lets it in after loading |
| AclText.BlockIsMask | common/utils.c:1148-1169 | the bit test of the printing recognises exactly the networks |
| AclText.NetworkRange | common/utils.c:1097-1112 | the text of a network is read back as its two addresses |
| AclText.ReadsMask | common/utils.c:1040-1076 | a mask is read if and only if it is a run of ones and then zeros |
| AclText.ReadsNetwork | common/utils.c:1097-1112 | an address with a mask or with a prefix length stands for the aligned block around it, whichever of its addresses is written |
| AclText.ReadsHyphen | common/utils.c:1114-1124 | two addresses with a hyphen and no spaces between them stand for all between, if they are in order and neither is the error value of inet_addr |
| AclText.PartsMustFit | common/utils.c:1018-1052 | a network is refused if a part of it is missing or longer than an address |

## Left out

- FileXferModule.FileXfer.AcceptHeader: an acceptance without a transfer has no effect, while the source dereferences a null pointer.
- ScanTotal.NoDrift: a sufficient condition, since drifts can cancel each other; the exact condition is the recorded drift of ScanTotal.TotalIsDoneAndQueued.
- ComposeMoves.MovesDeleteWhatWasTransferred: deletions of local files by the engine are in its history but not taken out of the files that the transfers read and write.
- FileXferRuns.ReceivesAllOrNothing: a write that succeeds is taken to write everything, as the source ignores the number of bytes written.
- Logon.HandsOverCurrentRecords: safety only, and for a library that does not begin a request after one of this connection failed, as the VNC library does not for passwords (libvncserver/libvncclient/rfbproto.c:565-576); a submission between the change of state and the reset of the event is lost, and the request then waits on.
- LogRotation.Log.LogStr: renames and deletions of existing files are taken to succeed.
- LogRotation.Log.FilesAreTheEnd: for log names that are no rotation name; LogRotation.RotationMovesUp shows that rotation works for exactly those.
- LogRotation.RotationDropsTheOldest: the same.
- NamesText.RoundTrip: comments that begin behind an ifdef, an endif or a define and go on to the next line are not part of the text, because the source does not see them there, and every line must fit the buffer of 1024 characters.
- NamesTable.ReadNode: children are a sequence with a counter; the next and last pointers of the C lists and the parent pointers are not modelled.
- NamesTable.Children.InsertNode: the same; appending through the last pointer is appending to that sequence.
- NamesTable.Children.InsertDefine: the same.
- AclModule.Acl.Move: the index must be one of the list, since the source reads the item before it checks.
- AclModule.Acl.StoreAll: the keys of the INI section are left out; the texts are taken to be listed in the order in which they were written.
- lnkseqFirstToEnd (VNCViewer/linkseq.h:57-66) leaves the moved node's back pointer stale and is used by no code.
- aclRemove (VNCServer/config.c:424-448) shrinks the array before shifting it and is called by no code.
- logSet: settings are fixed while a log is used; the 32-bit overflow of the size limit is not modelled.
- ComposeSessions.SessionsNameFiles: the texts of list, make-directory and delete requests are not modelled, only the items they are about; and the time that an offer carries behind the name is left out.
- Windows, containers, menus, message boxes, timers and painting appear only as events and answers; file times and attributes are left out.
- Sockets, character conversion, encryption, the INI file and memory allocation are parameters or taken to succeed; the prefix-length form of a mask and the dotted form of an address are functions with an inverse.
- Listings that the user asks for, and their first answer that switches the controls on again (VNCViewer/fxdlg.c:2188), do not overlap with an operation.
- Messages about a cancelled transfer that arrive after a new one started are taken not to occur, and an abort message is taken to be sent.
- Renaming, making single directories, drives, chat, password storage, the keyboard and the dialogs would only add simple members.
