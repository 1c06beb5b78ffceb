# Verified models of benchpod-cli

The CLI talks to a bench pod, a small device that programs and debugs a target board. This project models
the client's side of those conversations together with the device state each one drives, and proves what
every run of them keeps. A run includes everything that can go wrong on the way: lost, late or refused
replies, failed writes, unplugged pods, any order of goroutine steps.

- `NorPod`, `SpiLink`, `SpiFlash`, `SpiWriting`, `SpiSession`, `SpiProgramming`: programming a SPI NOR part through the pod: erase, write, read, the session around them, and the pod itself.
- `OpenOcdBridge`, `DapFraming`, `FailureScanning`: the bridge between OpenOCD and the pod's debug probe: the verdict over all interleavings, the two frame translators, the stderr scanner.
- `UploadPod`, `UploadSafety`, `UploadRuns`, `UploadExchange`, `ConsoleUpload`: uploading an image over the USB console.
- `LanUpload`, `BlobInstall`: uploading over the pod's network API, and installing a release's blobs.
- `TcpSession`, `PodClient`: the JSON API: one session of paired replies, reassembling samples, dialing.
- `LanTls`, `TicketCache`, `LanTickets`: TLS with certificates pinned on first use, and the two-level session ticket cache.
- `BridgeWatch`: the USB bridge that lends the pod a proxy and takes it back.
- `ConsoleText`, `PolicyReply`: reading a reply out of raw console output.
- `Bytes`, `Base64Url`, `Text`, `Sequences`, `Iteration`, `Outcomes`: bytes, base64url, strings, sequences, repeated steps, results.

Code that works on values is modelled by functions. Code that changes state in place is a class whose methods
are proved against a step function of that state, and the theorems about whole runs are lemmas about the step
functions. The environment is a choice at each step: a `Fate` of a command, an event on the wire, or a
nondeterministic assignment in a method.

## Where the code does something other than is written down

Each of these is a lemma with the exact condition, or with a run that shows it.

- `OpenOcdBridge.EarlyEndCanSucceed`: the copy from the pod may end before OpenOCD's exit is recorded and the
  verdict still be nil. What decides is when the pump reads the flag (`OpenOcdBridge.VerdictExact`).
- `OpenOcdBridge.StuckIff`, `OpenOcdBridge.HangHappens`: when the accept fails while OpenOCD runs, two calls of cmd.Wait are
  under way; only one gets the result of the context's watcher, and if it is the waiter's, runBridge never returns.
- `OpenOcdBridge.LeakedConnection`, `OpenOcdBridge.LeakHappens`: when the select takes the exit although Accept has
  succeeded, OpenOCD's connection is never closed.
- `UploadRuns.DoneIsTrueIff`: `uploadChunk` takes any `upload-data ok` for its own frame's, and any status for this
  upload's, so over its attempts a chunk can be reported as done that the pod has not received. It cannot, exactly when
  no such line that covers the chunk is still to be read and no shorter frame is in flight. Two runs on a late console
  lead to a wire that fails this: `UploadSafety.ResentFrameMisleads`, and `UploadRuns.StaleReplies`, after which the
  first wait cannot mislead and a later one can (`UploadRuns.RetryBeforeOk`). A whole upload is safe all the same,
  because the pod checks the image at `upload-end`.
- `LanTls.StrangerIsPinned`: a certificate is pinned while the handshake is still under way, before the server has
  shown that it holds its key. A handshake that breaks off after that leaves the pin behind, though the dial fails, and
  the genuine pod is then refused. `LanTls.StoreIsExpectedOrUnseen` says exactly when the store has such a pin.
- `LanTls.DowngradeIff`: a pin store that cannot be read counts as no pin, so a pinned pod can then be dialed in
  plaintext.
- `TicketCache.TruthfulIff`: a ticket that cannot be serialised or saved leaves an older one in the file, which comes
  back once memory has dropped the key, and a file that cannot be removed keeps its tickets after a pin change
  (`TicketCache.TicketOutlivesForget`). Tickets in memory never expire. `TicketCache.FileSessionCache.Put` crashes when
  the path of the file cannot be resolved, as with no home directory and a CA file in place of pins.
- `BlobInstall.UnheardInstall`, `UploadSafety.UnheardCommit`: when only the reply to an upload's commit is lost or cannot
  be read, the blob is installed although the upload fails and the returned list does not have it; over a late console
  it may be installed after the error (`UploadSafety.CommitAfterTheError`). `LanUpload.CommitInstalls` and
  `UploadSafety.CarriedOutIff` say exactly when. `BlobInstall.ConvergesIff`: two entries for one slot that disagree
  never converge.
- `BridgeWatch.OverwritesIff`: an answer about the proxy that does not decode counts as no proxy, and the pod's own is then
  overwritten, and cleared at the end (`BridgeWatch.GarbledAnswerLosesTheProxy`). `BridgeWatch.OnePodWhenDecoded`: the pod keeps the bridge's proxy exactly when a set request took effect and its
  reply was lost, as in `BridgeWatch.LostReplyKeepsTheProxy`. `BridgeWatch.SecondPodForgetsTheFirst`: with two pods in turn the first one keeps it.
- `SpiSession.LostRefusalStopsTheOther`: another client's session is stopped when the reply that refuses ours is lost.
  `SpiSession.LateCommandIff`: the first connection is closed only after the cleanup, so a spi_start that did not get
  through in time may be taken after the spi_stop and leave the pod armed (`SpiSession.LateBeforeReleaseIff`: also before the release).
- `PolicyReply.WithoutEchoIff`: a set whose echo was lost is not seen to succeed, as its reply is taken for the echo.
- The scanner's comment calls its tail the longest marker less one; the constant is 32.
  `FailureScanning.MarkersNeed18` says which tails are enough.

## Model

| member | source | states |
|---|---|---|
| `FailureScanning.ScanIsSearch` | internal/openocd/openocd.go:56-70 | for any stream cut into any writes, matched is set exactly when a marker occurs in the whole stream, and the tail is its last 32 bytes |
| `FailureScanning.TailSufficesIff` | internal/openocd/openocd.go:52-54 | for a single marker: a tail finds it in every cut of every stream if and only if it keeps the marker's length less one |
| `FailureScanning.MarkersNeed18` | internal/openocd/openocd.go:36-54 | for the two markers the code looks for: a tail finds one in every cut of every stream if and only if it keeps 18 characters |
| `FailureScanning.MarkersAreFound` | internal/openocd/openocd.go:36-39 | the constant tail is long enough for the two markers the code looks for |
| `FailureScanning.FailureScanner.Write` | internal/openocd/openocd.go:56-70 | one write moves the scanner by the step the search theorem is about and passes the bytes on |
| `DapFraming.ReadHeadExact` | internal/openocd/dap.go:77-128 | a pump reads a packet at the front of its stream exactly when that packet's whole frame is there |
| `DapFraming.ReadsMaximalPrefix` | internal/openocd/dap.go:77-128 | what a pump reads is well formed, framed it is a prefix of the stream, and what follows starts with no complete frame |
| `DapFraming.ReadingIsUnique` | internal/openocd/dap.go:77-128 | any split of a stream into frames and a remainder that starts with none has these packets |
| `DapFraming.StopIff` | internal/openocd/dap.go:77-128 | why a pump stops, told by what it has not taken: the end of the stream exactly after nothing or a header without its payload, a bad signature or a length over 1024 exactly as a whole header shows it, else a truncation |
| `DapFraming.UnreadFollows` | internal/openocd/dap.go:77-128 | that is what follows the frames of the packets read |
| `DapFraming.OutputMonotone` | internal/openocd/dap.go:77-128 | more input only adds output at the end |
| `DapFraming.PodThereAndBack` | internal/openocd/dap.go:77-128 | pod frames to OpenOCD's and back are the pod's complete frames; the identity exactly on streams of well-formed frames |
| `DapFraming.OpenOcdThereAndBack` | internal/openocd/dap.go:77-128 | OpenOCD frames to the pod's and back keep every payload in order, as responses |
| `DapFraming.ReadFull` | internal/openocd/dap.go:80-96 | over any read sizes the buffer gets the next bytes of the stream; else it says whether nothing came, something came, or the read failed |
| `DapFraming.CopyOpenOcdToPod` | internal/openocd/dap.go:77-99 | the pump writes the re-framed prefix and returns why the first frame it did not forward could not be read; it reports a write failure exactly when a write failed, and has then written a prefix of that |
| `DapFraming.CopyPodToOpenOcd` | internal/openocd/dap.go:106-128 | the same for the other direction |
| `OpenOcdBridge.VerdictExact` | internal/openocd/openocd.go:155-229 | over every interleaving each verdict is returned if and only if the steps of the run explain it; nil means connected, exited 0, and the pump read the flag after it was stored |
| `OpenOcdBridge.DroppedPodNeverSucceeds` | internal/openocd/openocd.go:191-220 | a pump that saw the flag false always turns the verdict into an error |
| `OpenOcdBridge.EarlyEndCanSucceed` | internal/openocd/openocd.go:191-229 | a run that returns nil although the copy from the pod ended before the exit was recorded |
| `OpenOcdBridge.LeakedConnection` | internal/openocd/openocd.go:166-182 | after the return OpenOCD's connection is open exactly in runs whose select took the exit although Accept had succeeded |
| `OpenOcdBridge.LeakHappens` | internal/openocd/openocd.go:155-182 | a run, for any exit status, that returns and leaves the connection open |
| `OpenOcdBridge.ReturnsJoined` | internal/openocd/openocd.go:186-213 | a bridge that was set up returns only when both copies have ended, OpenOCD has exited and that is recorded, and the listener and both connections are closed |
| `OpenOcdBridge.ClosesInOrder` | internal/openocd/openocd.go:206-212 | in every run main closes OpenOCD's connection only after OpenOCD has exited and that is recorded, the pod's only after that, and waits for the copies only then |
| `OpenOcdBridge.OwnStepsBounded` | internal/openocd/openocd.go:155-229 | the bridge takes at most 14 steps of its own in any run |
| `OpenOcdBridge.StuckIff` | internal/openocd/openocd.go:155-229 | once OpenOCD has exited and until the bridge has returned, some step of its own is enabled if and only if it is not this: the accept failed, main called cmd.Wait before OpenOCD was reaped, and the waiter's cmd.Wait got the one result |
| `OpenOcdBridge.LostResultHangs` | internal/openocd/openocd.go:164-171 | then runBridge never returns, whatever happens next |
| `OpenOcdBridge.HangHappens` | internal/openocd/openocd.go:164-171 | a run, for any exit status, in which that happens |
| `OpenOcdBridge.ClosedMeansOwnSteps` | internal/openocd/openocd.go:206-229 | with both connections closed every step counts down to the return |
| `NorPod.WriteTaken` | internal/spiflash/spiflashtest/fake.go:114-134 | a chunk encoded as the client does is taken as those bytes, programmed, and with verify reads back equal |
| `NorPod.FakePod.Command` | internal/spiflash/spiflashtest/fake.go:47-138 | the pod's command over its byte array: erase whole sectors, write by clearing bits, sessions and refusals |
| `SpiFlash.EraseRequestsBounded` | internal/spiflash/spiflash.go:159-184 | for arbitrary replies every erase request is inside the range with a length of 1 byte to 1 MB, and there are at most ceil(n / 1 MB) |
| `SpiFlash.EraseProgressMonotone` | internal/spiflash/spiflash.go:159-184 | for arbitrary replies the reported progress strictly rises and ends at n |
| `SpiFlash.HonestEraseHull` | internal/spiflash/spiflash.go:159-184 | with honest replies the erased pieces are adjacent and disjoint and cover exactly the touched sectors |
| `SpiFlash.Erase` | internal/spiflash/spiflash.go:159-184 | the loop is such a run, and succeeds exactly when every command did and the end was reached |
| `SpiFlash.HonestWrite` | internal/spiflash/spiflash.go:200-225 | a successful write programs the image; verified, or on an erased range, memory is the old memory with the image in place |
| `SpiFlash.FailedWrite` | internal/spiflash/spiflash.go:200-225 | a write that fails at a chunk leaves the chunks before it programmed, that chunk programmed or untouched, and everything beyond as before, also when the range runs past the part; verified or over erased bytes the earlier chunks are the image |
| `SpiFlash.Write` | internal/spiflash/spiflash.go:200-225 | the loop is such a run, chunk after chunk, and succeeds exactly when all were accepted |
| `SpiFlash.Read` | internal/spiflash/spiflash.go:124-153 | the loop reads chunk after chunk, succeeds exactly when every command did, then has exactly an honest pod's bytes of the range, and changes nothing; when all its commands are answered by an armed pod that has the range, it succeeds |
| `SpiWriting.SpliceIntoErased` | cmd/benchpod-cli/spiflash.go:279-305 | the image over erased sectors: image in the range, 0xFF in the rest of the touched sectors, old bytes elsewhere |
| `SpiWriting.StepInside` | cmd/benchpod-cli/spiflash.go:279-305 | no command inside the range changes a byte outside its sectors, whatever its fate |
| `SpiWriting.SpiWrite` | cmd/benchpod-cli/spiflash.go:279-315 | nil with an erase leaves exactly that, verified or not; nothing outside the touched sectors ever changes, however it fails; it fails as not identified, no flash or not fitting exactly as the reply to the id, or its failure, says; the id, the erases and the writes go out in that order and each phase stops at its first failure; and when every command is answered it returns nil if and only if the pod is armed, the part is there and large enough, and, without an erase but with verify, the image can be programmed over what is there |
| `SpiProgramming.SessionWrite` | cmd/benchpod-cli/spiflash.go:143-176 | spiWrite inside a session: success means the image is in place, the pod disarmed and the reset released; on every path the commands come in the session's order and only the touched sectors change; the end is decided by the session's failures and spiWrite's, and when every command is answered it succeeds if and only if the engine was free and the part can take the image |
| `SpiProgramming.SpiWriteThenRead` | cmd/benchpod-cli/spiflash.go:279-366 | after a successful spiWrite that erased or verified, reading any part of the range of an honest pod returns that part of the image; when every command is answered and the part can take the image, both succeed |
| `SpiProgramming.WriteThenRead` | internal/spiflash/spiflash.go:124-225 | the same after Write, verified or over an erased range; answered by an armed pod that can take it, both succeed |
| `SpiSession.CleanupExactly` | internal/spiflash/spiflash.go:245-286 | spi_stop is sent once if and only if spi_start was sent and not refused as busy; the release once if and only if reset was to be held |
| `SpiSession.CleanupOrder` | internal/spiflash/spiflash.go:245-286 | on the wire: reset held, spi_start, the work, spi_stop, reset released |
| `SpiSession.PodLeftSafe` | internal/spiflash/spiflash.go:245-286 | when the cleanup reaches the pod reset is released, the pod is not left armed by us, and another client's armed session stays armed exactly when we did not stop it |
| `SpiSession.LateCommandIff` | internal/spiflash/spiflash.go:245-286 | when a command still on its way is taken after the cleanup, the pod is armed exactly if it was anyway or that command is spi_start and the engine is free, reset is held exactly if it was anyway or that command holds it, and the memory is as it was |
| `SpiSession.LateBeforeReleaseIff` | internal/spiflash/spiflash.go:245-286 | when it is taken between spi_stop and the release, the pod is armed under the same condition, and the reset and the memory are as they would have been |
| `SpiSession.LateStartHappens` | internal/spiflash/spiflash.go:245-286 | a session after which a late spi_start leaves the pod armed |
| `SpiSession.BusyRefusalSparesTheOther` | internal/spiflash/spiflash.go:245-286 | a session whose spi_start the pod answered is refused as busy exactly when another client had the engine, and then leaves that client's session, the memory and the engine as they were |
| `SpiSession.LostRefusalStopsTheOther` | internal/spiflash/spiflash.go:276-285 | if the busy reply is lost, the cleanup stops the other session |
| `SpiSession.LostRefusalHappens` | internal/spiflash/spiflash.go:276-285 | a session in which that happens |
| `SpiSession.Session` | internal/spiflash/spiflash.go:245-286 | with any list of flash commands as fn: what it sends is in that order, cleanup goes over a connection that works, and nil means nothing failed, and each other error its phase; fn's commands go out as given until one fails |
| `UploadPod.OneCommandOneFate` | internal/serialconsole/upload_test.go:19-237 | on a calm console with prompt replies what the client sees and the pod does is explained by one fate of the one command |
| `UploadSafety.OkMeansEffect` | internal/serialconsole/upload.go:141-192 | whatever is lost or late, an ok to begin, end or commit means the pod began, checked or committed this very upload, and nothing of it is left on the wire |
| `UploadSafety.ChunkKept` | internal/serialconsole/upload.go:268-340 | while one chunk is sent, resent and asked about, the staged prefix stays the data's, and an ok or a status never says more than was received |
| `UploadSafety.OkIsTrueIff` | internal/serialconsole/upload.go:280-296 | for a single wait, whatever is on the wire: an ok to the frame just sent means the chunk landed in every run if and only if the pod has it, or the first answer to be read is not an ok and no shorter frame in flight can make it one |
| `UploadSafety.ResentFrameMisleads` | internal/serialconsole/upload.go:276-305 | how a wire on which that fails comes about on a late console with nothing owed: two timeouts, a resent chunk, and the ok to its first copy |
| `UploadSafety.OkToBegin` | internal/serialconsole/upload.go:141-157 | whatever else is on the wire, if no upload-begin and no answer to one is: an ok to upload-begin means the pod began this upload, and leaves nothing on its way but log lines |
| `UploadRuns.DoneIsTrueIff` | internal/serialconsole/upload.go:276-307 | whatever is on the wire: no number of attempts (frame, wait, and a status query when no reply comes) can end in done without the pod having received up to the chunk's end, if and only if the pod has it already, or no ok to a frame and no status that far is still to be read and no frame in flight that the pod would take ends before it |
| `UploadRuns.FiveAttemptsIff` | internal/serialconsole/upload.go:276-307 | the same for the five attempts of the code, when at most four lines are still to be read |
| `UploadRuns.StaleReplies` | internal/serialconsole/upload.go:276-307 | a run of the code on a late console with nothing owed that is truly done and leaves a retry to be read, and an ok behind it |
| `UploadRuns.RetryBeforeOk` | internal/serialconsole/upload.go:276-307 | from such a wire an ok to the next chunk's first frame is the truth, yet the five attempts can end in done without the chunk |
| `UploadExchange.RunChunked` | internal/serialconsole/upload.go:268-307 | during an upload, every such run of at most five attempts keeps the upload this one; done means received up to the chunk's end if nothing on the wire could report it falsely; on a calm, prompt console the wire is calm again, and only five faults or a refusal prevent done |
| `UploadExchange.CalmChunkLands` | internal/serialconsole/upload.go:276-307 | on a calm, prompt console a chunk that meets fewer than five faults, none of them a refusal, is done and the console calm again; with everything before it received, it is received |
| `UploadExchange.AsksAsked` | internal/serialconsole/upload.go:313-340 | what uploadReceived returns is no more than the pod has received if nothing about another frame was owed; on a calm console it fails only by a fault |
| `UploadSafety.CommittedExactly` | internal/serialconsole/upload.go:141-192 | if no other image of that length has the digest, the committed image is the data |
| `UploadSafety.CarriedOutIff` | internal/serialconsole/upload.go:181-190 | on any console, however the wait for its reply ends: a commit in flight alone has been carried out, at most once, if and only if the pod executed it, answered or not |
| `UploadSafety.FollowOneCommit` | internal/serialconsole/upload.go:181-190 | a commit in flight alone changes the slots at most once and is answered ok only if it did |
| `UploadSafety.UnheardCommit` | internal/serialconsole/upload.go:181-190 | a run on a prompt console that ends without a reply and with the image committed |
| `UploadSafety.CommitAfterTheError` | internal/serialconsole/upload.go:181-190 | a run on a late console in which the image is committed after the error was reported |
| `UploadExchange.EndActsGuarded` | internal/serialconsole/upload.go:172-184 | the acts of an upload have a commit only right after upload-end was answered ok, and no frame after it |
| `ConsoleUpload.Console.AwaitLine` | internal/serialconsole/upload.go:346-365 | the read loop ends with the first wanted line of what the pod prints, or by its deadline |
| `ConsoleUpload.Console.UploadReceived` | internal/serialconsole/upload.go:313-340 | one status query, and the count of the first status line read after it, none when the write fails or no line comes; what that count is worth is `UploadExchange.AsksAsked` |
| `ConsoleUpload.Console.UploadChunk` | internal/serialconsole/upload.go:268-307 | a run of at most five attempts, the one those theorems are about, with what `UploadExchange.RunChunked` says of it: done means received up to the chunk's end if nothing on the wire could report it falsely; at most five frames, none resent blindly and none after a status shows the chunk landed; how it ended shows in its last act: done after an ok or a status that far, refused exactly after an error reply, a write failure or giving up after a frame, and after anything else five frames have gone out, a retry or busy before that being followed by another frame |
| `ConsoleUpload.Console.UploadSigSupported` | internal/serialconsole/upload.go:197-208 | asks once per session; later calls send nothing and answer the same |
| `ConsoleUpload.Console.SendUploadSig` | internal/serialconsole/upload.go:244-266 | on a calm console: sent means the pod holds the whole manifest text, not sent means it holds none of it unless two commands met a fault |
| `ConsoleUpload.Console.UploadSigned` | internal/serialconsole/upload.go:127-192 | if no upload-begin and no answer to one is on the wire: nil means the pod committed an image of the data's length and digest, and unless begin failed another upload can follow; if no commit was in flight either, every other slot is unchanged and a failure before commit changes no slot; on a calm console the committed image is the data itself and only faults make it fail; how it ended shows in its last act, an abort exactly when a chunk failed; every frame is one of the 512-byte pieces of the image; and on a calm, prompt console where nothing goes wrong it succeeds, the manifest goes out exactly when there is one and the firmware takes it, and the pod's check of it is reported as ok |
| `LanUpload.ChunkCovers` | cmd/benchpod-cli/blobs_target.go:153-163 | one more chunk where the last ended keeps the chunks contiguous, disjoint and equal to the data so far |
| `LanUpload.CommitInstalls` | cmd/benchpod-cli/blobs_target.go:172-178 | an accepted commit of a staged image installs the data; one that is not accepted installs it if and only if its reply was lost or cannot be read, and else changes nothing |
| `LanUpload.LanBlobs.UploadSigned` | cmd/benchpod-cli/blobs_target.go:130-179 | installed means the slot holds the data; commit only after "verified"; the lines sent are the script up to the failing one, then an abort on a session that works, none after a failed begin or commit; which end it is follows exactly from the fates of its lines |
| `BlobInstall.ConvergesIff` | cmd/benchpod-cli/blobs.go:117-136 | after a complete install nothing is left to install if and only if no two entries for one slot disagree |
| `BlobInstall.RerunResumes` | cmd/benchpod-cli/blobs.go:117-199 | with distinct names, after an install that stopped at k a rerun has exactly the rest to do |
| `BlobInstall.OthersUntouched` | cmd/benchpod-cli/blobs.go:173-198 | a slot no entry names keeps what it reports |
| `BlobInstall.InstallConverges` | cmd/benchpod-cli/blobs.go:146-199 | what is left to install is what the returned list lacks, less the one upload that failed though the pod carried out its commit |
| `BlobInstall.UnheardInstall` | cmd/benchpod-cli/blobs.go:173-198 | an install over the network that fails, returns an empty list, and leaves nothing to install |
| `BlobInstall.BlobsToInstall` | cmd/benchpod-cli/blobs.go:117-136 | the entries with something to install whose known slot is empty or holds something else, in manifest order |
| `BlobInstall.ToInstallIff` | cmd/benchpod-cli/blobs.go:117-136 | an entry is to be installed exactly when it has a size and a file, the pod lists a slot of its name, and that slot's last line shows another size or digest, or with force |
| `BlobInstall.ToInstallSelects` | cmd/benchpod-cli/blobs.go:117-136 | those entries come in the manifest's order |
| `BlobInstall.FilterSelects` | cmd/benchpod-cli/blobs.go:157-169 | --only keeps exactly the entries with one of the names, in their order |
| `BlobInstall.BlobTarget.Upload` | cmd/benchpod-cli/blobs_target.go:22-179 | over the console or the network: the list shows the blob installed exactly when the pod carried out the commit, always when the upload succeeds, and over the network else exactly when the commit's reply was lost or cannot be read; over a way in that was ready and on which nothing goes wrong it succeeds and leaves it ready |
| `BlobInstall.BlobTarget.InstallBlobsList` | cmd/benchpod-cli/blobs.go:146-199 | over either way in, the returned list is the installed prefix, all of it on success; the slots hold exactly that prefix and the pod has carried out exactly its commits, or one more if the failed upload's was carried out; limited to some names it installs no other, touches no other slot, and when it is through everything to install under those names is in the list; it stops at a blob that cannot be read or does not match, and at an upload only when something went wrong |
| `TcpSession.OkAnswersOwnRequest` | internal/tcpclient/session.go:54-90 | in every run an ok result is the reply to the request just sent |
| `TcpSession.PairedAlways` | internal/tcpclient/session.go:54-106 | a session that is not broken owes no reply |
| `TcpSession.BrokenExactly` | internal/tcpclient/session.go:54-106 | a session is broken exactly from the first I/O failure on |
| `TcpSession.BrokenIsSilent` | internal/tcpclient/session.go:57-59 | a broken session never touches the wire or succeeds again |
| `TcpSession.OkIff` | internal/tcpclient/session.go:57-89 | in every run a command succeeds if and only if no earlier one failed in I/O and its reply says ok, and reports the pod's refusal if and only if it says error; a refusal leaves the session usable |
| `TcpSession.PairingNeedsTheFlag` | internal/tcpclient/session.go:57-81 | in every run of a session without the broken flag an ok is the reply to its own request if and only if no earlier request that reached the pod was left unanswered; after that every ok answers an earlier one |
| `TcpSession.Session.Command` | internal/tcpclient/session.go:54-90 | one command over the connection is that step, with failures at any point; it succeeds exactly when a line was read that says ok, and breaks the session exactly on an I/O failure, and reports an I/O failure exactly when a write or a read failed |
| `PodClient.DecodedIff` | internal/tcpclient/client.go:147-160 | a text decodes to samples exactly when it decodes to their little-endian bytes |
| `PodClient.GoodIff` | internal/tcpclient/client.go:113-142 | a packet adds samples exactly when its status is ok or chunk and its b64, or without one its data, can be read as those |
| `PodClient.PartsComplete` | internal/tcpclient/client.go:97-143 | an array split over any number of packets, mixing base64url with any padding and decimal, joins to itself |
| `PodClient.ReadSamples` | internal/tcpclient/client.go:113-142 | succeeds exactly when some packet ends the array and all up to it are good, and returns what they add; never a part; an error reply or one that does not parse makes it fail |
| `PodClient.DialWithRetry` | internal/tcpclient/client.go:205-231 | attempts are a backoff apart, each but the first was due before the deadline, their number is bounded by the budget, and it gives up only when cancelled or out of time |
| `LanTls.NoDowngradeInAnyRun` | internal/tcpclient/tls.go:107-160 | in any run of dials and pin changes, with a readable store, an auto dial is plaintext only if no certificate is expected of the pod |
| `LanTls.TlsAsExpectedInAnyRun` | internal/tcpclient/tls.go:107-184 | in any run, for every address, mode and network, TLS is with the expected certificate if there is one, else with the recorded one |
| `LanTls.StoreIsExpectedOrUnseen` | internal/tcpclient/tls.go:162-222 | after every run an expected certificate is in the store, and the store has one that is not expected exactly when it came first in a handshake that broke off and no handshake has completed since |
| `LanTls.StrangerIsPinned` | internal/tcpclient/tls.go:171-182 | a first dial answered with a certificate and a hang-up fails, and the genuine pod is refused from then on |
| `LanTls.DialKeepsPins` | internal/tcpclient/tls.go:417-437 | a dial changes and removes no pin, and adds its own address's only on its first TLS connection or in a handshake that breaks off |
| `LanTls.DowngradeIff` | internal/tcpclient/tls.go:133-153 | a pinned pod is dialed in plaintext exactly when the store could not be read where it matters |
| `LanTls.PinStays` | internal/tcpclient/tls.go:387-437 | only SetPin and DeletePin ever change or remove a pin |
| `LanTls.FirstUseBinds` | internal/tcpclient/tls.go:417-437 | after a pod's first TLS connection every later one presents the same certificate until its pin is changed |
| `LanTls.TlsOnIsNeverPlain` | internal/tcpclient/tls.go:107-160 | with TLS required no dial is plaintext, for every address, state and network |
| `LanTls.PlainIff` | internal/tcpclient/tls.go:107-160 | when a dial of any mode ends in plaintext: only on the given address, and exactly when the plan has nothing else or may fall back |
| `LanTls.TlsIff` | internal/tcpclient/tls.go:107-184 | when a dial of any mode ends in TLS, on which address and with which certificate: exactly when mode and address ask for TLS, the port answers, the certificate is accepted by the CA file or the pin, and the handshake completes |
| `LanTls.ShakesIff` | internal/tcpclient/tls.go:107-160 | when a dial gets as far as a handshake |
| `LanTls.MismatchIff` | internal/tcpclient/tls.go:417-437 | when a dial is refused for its certificate: exactly when another one is pinned and the store can be read |
| `LanTls.RemembersIff` | internal/tcpclient/tls.go:132-182 | what a dial remembers: a pod without TLS exactly when the quick probe of an unpinned one is refused, and a pin exactly when an unknown pod presents a certificate that can be recorded |
| `LanTls.PinnedPodStaysOnTls` | internal/tcpclient/tls.go:107-184 | from any state, while a pod's pin is left alone, no auto dial with a readable store is plaintext, and TLS is with the pinned certificate |
| `LanTls.LanClient.Dial` | internal/tcpclient/tls.go:132-184 | one dial over the pin store and the noTLS memo, handshakes that break off included: its outcome and the state it leaves |
| `LanTls.LanClient.SetPinFingerprint` | internal/tcpclient/tls.go:387-397 | records the pin, and forgets the saved sessions even if the pin is then not saved |
| `LanTls.LanClient.DeletePinOf` | internal/tcpclient/tls.go:400-414 | removes the pin and the saved sessions; without a pin it changes nothing |
| `TicketCache.TruthfulIff` | internal/tcpclient/tls_sessions.go:83-150 | a call keeps every later Get truthful, whatever clean calls come between, if and only if it is not one of three file failures; after one of those an eviction is enough for a Get to return a replaced, removed or forgotten ticket |
| `TicketCache.TicketOutlivesForget` | internal/tcpclient/tls_sessions.go:141-150 | a run in which a ticket is returned after a pin change whose file could not be removed |
| `TicketCache.GetIsLastPut` | internal/tcpclient/tls_sessions.go:83-137 | in every clean run Get misses or returns the last Put of its key, with no nil Put or forget since |
| `TicketCache.NoTicketSurvivesForget` | internal/tcpclient/tls_sessions.go:141-150 | a ticket returned after a forget was put after it |
| `TicketCache.FileSessionCache.Get` | internal/tcpclient/tls_sessions.go:83-112 | looks in memory, then in the file, and keeps what it found there in memory |
| `TicketCache.FileSessionCache.Put` | internal/tcpclient/tls_sessions.go:114-137 | stores in memory and rewrites the file without what has expired; crashes exactly when a ticket that serialises meets the nil map of an unresolved path |
| `TicketCache.LookupIff` | internal/tcpclient/tls_sessions.go:83-112 | Get returns a ticket exactly when memory has it, or memory has nothing for the key and the file's line for it can be read, decodes and is no more than an hour old |
| `TicketCache.PurgeIff` | internal/tcpclient/tls_sessions.go:56-61 | a rewrite of the file keeps exactly the lines of the last hour |
| `TicketCache.GetRemembers` | internal/tcpclient/tls_sessions.go:83-112 | a Get changes nothing but that what it found is then in memory, whatever becomes of the file |
| `TicketCache.FreshTicketIsFound` | internal/tcpclient/tls_sessions.go:83-137 | in every run with working files a Get within an hour of the last Put of its key returns that ticket, whatever memory has dropped in between |
| `LanTickets.NoTicketSurvivesPinChange` | internal/tcpclient/tls.go:387-414 | in one run of dials, pin changes and ticket calls with working files, a ticket returned after a pin change was put after it |
| `BridgeWatch.NeverOverwrites` | cmd/benchpod-cli/usbbridge_watch.go:191-206 | when the pods' answers decode, a proxy that was there at the start is there at the end of every run |
| `BridgeWatch.OverwritesIff` | cmd/benchpod-cli/usbbridge_watch.go:191-225 | a round changes a proxy that is there exactly when the pod's answer did not decode, the listener was up and the set request took effect with another proxy |
| `BridgeWatch.RestoredIff` | cmd/benchpod-cli/usbbridge_watch.go:129-250 | in every run, undecodable answers, kept proxies and failed clears included: a pod's proxy is as at the start exactly when it is cleared and had none, or nothing was set on it, or what was last set on it is what it had |
| `BridgeWatch.RestoredWhenDecoded` | cmd/benchpod-cli/usbbridge_watch.go:129-250 | when answers decode, without keep and without a reported clear failure: exactly when no set request on it was lost after taking effect, and it is the last pod set if it was set |
| `BridgeWatch.OnePodRestoredIff` | cmd/benchpod-cli/usbbridge_watch.go:129-250 | with one pod, in every run over any number of replugs: everything is as at the start exactly when that pod is put back |
| `BridgeWatch.OnePodWhenDecoded` | cmd/benchpod-cli/usbbridge_watch.go:129-250 | when its answers decode, without keep and without a reported clear failure: exactly when no set request's reply was lost |
| `BridgeWatch.GarbledAnswerLosesTheProxy` | cmd/benchpod-cli/usbbridge_watch.go:191-249 | a one-round run in which the pod's own proxy is overwritten and cleared and the bridge reports nothing |
| `BridgeWatch.LostReplyKeepsTheProxy` | cmd/benchpod-cli/usbbridge_watch.go:215-249 | a run in which that happens: the pod keeps the proxy and the bridge reports nothing |
| `BridgeWatch.OnceIsOneRound` | cmd/benchpod-cli/usbbridge_watch.go:134-143 | without --watch the first round decides |
| `BridgeWatch.PickFinds` | cmd/benchpod-cli/usbbridge_watch.go:89-112 | a named pod is picked exactly when a link leads to it |
| `BridgeWatch.PickIff` | cmd/benchpod-cli/usbbridge_watch.go:89-112 | without a name the only link is picked, with one the first that leads to it |
| `BridgeWatch.ServesIff` | cmd/benchpod-cli/usbbridge_watch.go:152-228 | a round gets to serve exactly when a pod is picked and answers, the listener is up, and the pod takes the proxy or seems to have it |
| `BridgeWatch.OtherProxyIff` | cmd/benchpod-cli/usbbridge_watch.go:191-206 | it leaves a pod alone exactly when its answer shows another proxy |
| `BridgeWatch.ObstacleIff` | cmd/benchpod-cli/usbbridge_watch.go:152-225 | when each other reason stops a round short |
| `BridgeWatch.RoundIff` | cmd/benchpod-cli/usbbridge_watch.go:191-228 | when a round sets the proxy, on which pod, and when the bridge knows of it |
| `BridgeWatch.WatchStopsIff` | cmd/benchpod-cli/usbbridge_watch.go:139-240 | with --watch the bridge stops exactly at the round it serves and is told to stop, or cannot serve and is given up, and gives no reason of its own |
| `BridgeWatch.OnceStopsWith` | cmd/benchpod-cli/usbbridge_watch.go:139-240 | without it the reason is the first round's obstacle, or that the link went away |
| `BridgeWatch.ExitIff` | cmd/benchpod-cli/usbbridge_watch.go:145-250 | the exit reports a failed clear exactly when one was owed and not answered well, and else the reason the bridge stopped |
| `BridgeWatch.Bridge.WatchBridge` | cmd/benchpod-cli/usbbridge_watch.go:129-250 | the loop over rounds and the final clear leave the settings and the exit those theorems are about |
| `PolicyReply.OutputLines` | internal/serialconsole/policy.go:67-77 | with any runs of CR and LF as line ends, blank lines, prompt junk and trailing space the parser sees exactly the printed texts that are not blank |
| `PolicyReply.ReplyAfterEcho` | internal/serialconsole/policy.go:67-107 | logs, echo, logs, reply, logs: the reply is found, even when the echo of a set is identical to it |
| `PolicyReply.WithoutEchoIff` | internal/serialconsole/policy.go:81-87 | without the echo the reply is found exactly when it differs from the command line |
| `PolicyReply.PolicyReadBack` | internal/serialconsole/policy.go:92-106 | a policy and its key count are read back as printed |
| `PolicyReply.RefusalReadBack` | internal/serialconsole/policy.go:93-99 | a refusal is read back with its reason |
| `PolicyReply.BareRefusal` | internal/serialconsole/policy.go:93-99 | a refusal without a reason is read as "refused" |
| `PolicyReply.ReplyHasWord` | internal/serialconsole/policy.go:85-93 | a reply line always has a first word, so indexing it cannot fail |
| `PolicyReply.ParsePolicyReply` | internal/serialconsole/policy.go:67-107 | the loop reads the answer of the clean lines that end at any CR or LF |
| `PolicyReply.PolicyRoundTrip` | internal/serialconsole/policy.go:67-107 | for a whole printed transcript, blank lines and any line ends included, it returns exactly the reply's meaning |
| `ConsoleText.NormalisedLines` | internal/serialconsole/policy.go:68-77 | replacing CRLF and CR and splitting at LF gives the clean lines of a text whose lines end at any CR or LF |
| `Base64Url.RoundTrip` | internal/spiflash/spiflash.go:309-315 | every byte string survives encoding and decoding with any trailing padding |
| `Base64Url.CanonicalText` | internal/spiflash/spiflash.go:312-315 | an accepted text is what the encoder writes exactly when it has no padding or line breaks and clear spare bits |
| `Base64Url.ManifestHalvesRejoin` | internal/serialconsole/upload.go:247-266 | the two upload-sig halves rejoin and decode to the manifest, and each fits a console line |

## Left out

- `SpiFlash.Erase` and the other flash operations work on unbounded integers: the command line admits no size over 2^31, so an address plus a length never overflows. Only the sum of two reported 64-bit values wraps, as it does in the code.
- `NorPod.FakePod.Command` refuses an address outside the part, where the pod of the Go tests fails on its slice.
- `LanTls.LanClient.Dial` is one dial at a time: two dials or processes that race on the pin file or the noTLS memo are not modelled. Fingerprints are strings and case folding is that of ASCII.
- `PodClient.DialWithRetry` returns the attempts it made; the connection itself is not modelled.
- `ConsoleUpload.Console.UploadSigned`: a failed write reaches the pod as a whole command or not at all. Half a frame, after which the pod would take later lines as frame bytes, is not modelled; nor are console lines broken up by log output.
- `LanUpload.LanBlobs.UploadSigned`: a pod that leaves the state out of its reply to ota_end makes the upload fail as not verified although nothing else went wrong.
- `BlobInstall.BlobTarget.InstallBlobsList`: how the way in is chosen, the exchange that lists the slots, the slots' state words and the signature check before an upload are left out; the listing shows what the pod has committed. The names of --only come already trimmed.
- `BridgeWatch.Bridge.WatchBridge` assumes that nobody else changes a pod's proxy while it runs, which the code does not check for at the end.
- `SpiSession.Session` takes the commands of fn as a list; of the functions that decide as they go only spiWrite is modelled inside a session (`SpiProgramming.SessionWrite`).
- `TcpSession.Session.Command`: deadlines and cancellation are failures of the write or the read at any point.
- `ConsoleText.TrimSpace`, `ConsoleText.Fields` and `Text.EqualFold` treat ASCII only.
- SHA-256 is any function; only `UploadSafety.CommittedExactly` assumes that it separates two images.
- Clocks: deadlines, pauses and timeouts are steps that may happen at any time. Only the dial budget and the age of tickets are counted.
- Sockets, serial ports, USB enumeration, mDNS, TLS records, certificates, JSON and files: their outcomes are choices.
- File replacement by rename, and several processes sharing a file.
- Chip erase, part identification beyond presence and size, the capability check, wiring of the SPI session.
- Command-line handling, progress output, hints, reports, sizes and versions in text: single facts about formatting.
