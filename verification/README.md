# Verified model of the HP LaserJet 1020 driver

This project models, in Dafny 4.11, the parts of the driver whose mistakes would be hardest to see and
to undo, and proves what they promise. `dafny verify dfyconfig.toml` checks all of it.

* **Update and rollback** (`UpdateState`, `UpdateHost`, `UpdateFiles`, `UpdateSafety`,
  `UpdateTransaction`, `UpdateRuns`). The journaled transaction runs in small steps on a machine that is
  made of a live installation, a transaction store, a launchd service and two admission gates. Before
  every step the process may be killed, the step may fail, and a running service may write to its own
  data. One invariant, `Safe`, holds at every such instant, and every method keeps it whichever way it
  ends. From it follow the properties over whole histories: what a recovery ends in, which installations
  launchd was ever allowed to start, and when jobs can be submitted.
* **Printing** (`DeviceErrors`, `Identity`, `Usb`, `Device`, `Job`, `Runtime`). The transport answers as
  it likes, except that a bulk transfer says truthfully how much was taken. A ghost trace records uploads,
  print data, drained completion reports, answers about the status and released connections; a ghost wire
  holds the print bytes the printer has taken. The device, the job and the backend each have an invariant
  over these; that of the backend includes that every upload ever made is of the production firmware. The
  monitor thread is any number of atomic steps wherever the job thread does not hold the device lock.
* **PJL status** (`PjlSpec`, `PjlStatus`). The byte-at-a-time framer, which parses destructively in its
  1024-byte buffer, refines a declarative split, filter and fold; and whatever a connection has brought, the
  conditions are those of a single report.
* **Firmware** (`FirmwareStore`, `Metadata`, `Firmware`). Committing a generation under any failure or
  interruption, printing and reading its metadata, and importing and loading it; what loads is characterized
  for every active place, torn or tampered with.
* **Rasters** (`Media`, `Raster`). Admission arithmetic on wrapping `size_t` values.
* **Manual duplex** (`DuplexPlan`, `DuplexWorkflow`). The order of pages and sheets, and the two-pass
  workflow against a service, a clock and a user that may answer anything, in a script of answers that
  decides how it ends.

Nondeterminism stands for the outside world: a value assigned from `*` is whatever the world answers.
`Outcome` says how a step ended: `Done`, `Raised` (the caller sees an error) or `Crashed` (the process is
gone, and the state is what it left behind). The job-state numbers of the duplex workflow are those of
section 5.3.7 of RFC 8011.

Where the code and its documentation disagree, the code is modelled. Five promises do not hold in
general, and the exact condition under which they do is proved instead:

* A cleared update journal does not always leave the service up. `Transaction.Recover` says exactly when
  it does, and `UpdateRuns.PreparedButStopped` walks into the state in which it does not. It takes an
  error inside a recovery of a transaction that had not yet closed admission, never a crash.
* The interface of the firmware store (`include/hplj/firmware.h`) asks for an atomic commit. It is atomic
  under all failures and interruptions exactly if something was in the active place before:
  `AtomicExactlyOverSomething`, with the run of `UnluckyIsTorn` for the other case. What that leaves is
  never loaded (`LoadedIsOneImport`).
* An accepted import need not load again: `ImportThenLoad` gives the condition, `LongVersionNeverLoads`
  an instance, and `ProductionImportLoads` shows that the production list is not affected.
* A completed print job covers all pages of its document exactly if every page callback succeeded
  (`Runtime.Backend.PrintJob`); the end-of-job callback asks for the state of the job and for one page.
  `Runtime.Backend.ShortJob` is a job of two pages that completes with one.
* The duplex workflow is to leave a changed service alone. It cancels exactly if the answer to the
  cleanup's own question names the service it began with (`GiveUp`, `RunWorkflow`), also when the service
  had just been seen changed (`ChangedThenBack`).

## Model

| member | source | states |
|---|---|---|
| UpdateHost.Host.Preflight | scripts/personal_update.py:95-107 | begins nothing unless the service runs and both gates are open |
| UpdateHost.Host.CloseAdmission | scripts/personal_update.py:109-113 | done means hold marker present and both gates shut; wherever it is cut, the marker precedes the queue gate and that the provider gate; it never opens a gate |
| UpdateHost.Host.Stop | scripts/personal_update.py:115-116 | done means disabled and not running; failed or interrupted anywhere it has only taken away |
| UpdateHost.Host.Start | scripts/personal_update.py:118-124 | the hold marker is there before launchd may run anything, and what may run is recorded exactly as it is on disk |
| UpdateHost.Host.Release | scripts/personal_update.py:132-139 | done means no marker and both gates open; wherever it is cut, the marker went first and the queue was opened last; touches no other path and never stops the service |
| UpdateState.HoldIsOnlyAMarker | scripts/personal_update.py:109-139 | setting and clearing the marker are inverse and change nothing else |
| UpdateState.MigrationWritesOneFile | scripts/personal_update.py:252-265 | every file of every path but the version file stays as it was, and that says 1; migrating again, or from version 1, changes nothing |
| UpdateState.MigratesExactly | scripts/personal_update.py:252-265 | from which versions there is a migration, and whose the file is and with which mode |
| UpdateState.SecuredIsPrivate | scripts/personal_update.py:363-367 | the private copy has exactly the files of the payload, owned by root and writable for nobody else, and otherwise unchanged |
| UpdateFiles.Replace | scripts/personal_update.py:228-241 | done means the destination equals the source; cut anywhere, every other path is as it was; works from any leftover siblings |
| UpdateFiles.TakeSnapshot | scripts/personal_update.py:208-226 | done means a verifying snapshot equal to the live installation; never touches live paths or other snapshots |
| UpdateFiles.Restore | scripts/personal_update.py:267-277 | done means the live installation equals the snapshot path by path, whatever partial state it began from; the snapshot is not consumed; one that does not verify touches nothing |
| UpdateFiles.RestoreOne | scripts/personal_update.py:269-276 | replaces or removes one path and leaves all others |
| UpdateSafety.TimeIsSafe | scripts/personal_update.py:172-178 | whatever a running service writes in its own data, a safe state stays safe |
| UpdateSafety.JournalIsSafe | scripts/personal_update.py:188-191 | a record that is sound when its writing begins is safe to have been written, in whatever phase |
| UpdateSafety.StoppedIsSafe | scripts/personal_update.py:228-277 | past the stop, with the service down, any content of the live paths is safe: that is what the replacing steps rely on |
| UpdateSafety.RestartIsSafe | scripts/personal_update.py:118-124 | a power loss in any phase keeps the invariant: only an enabled service returns, and only with its gate as the marker says |
| UpdateSafety.NeverMixed | scripts/personal_update.py:284-406 | in every state and phase, a service that runs or would be run has the program the last command found, or one installation in full, prior or ordered; only it has written to that since it was last started |
| UpdateSafety.StoreTellsGoal | scripts/personal_update.py:370-390 | in the phases with a new installation, the store holds what it was made from: the prior one is the run's snapshot, and the new one its staged payload activated on that, or a retained snapshot |
| UpdateSafety.ClosedUntilCommitted | scripts/personal_update.py:109-139 | from the stop to the commit a service that runs or would be run is held and both gates are shut |
| UpdateSafety.SavingIsSafe | scripts/personal_update.py:208-219 | a new snapshot, complete or not, takes nothing from the retained ones |
| UpdateSafety.ActivationKeepsTheHold | scripts/personal_update.py:377-382 | an activated installation has the new payload and its launchd job, keeps the hold, and differs in no other path but the migrated config |
| UpdateSafety.UpdateChangesTheseFiles | scripts/personal_update.py:358-382 | file by file, what an update leaves: the payload made private, its launchd job, the version file; nothing else has changed |
| UpdateSafety.UpdateIsFeasibleExactly | scripts/personal_update.py:252-265 | an update can be carried out exactly if its payload has a launchd job and the version on disk is 1, 0 or missing, and there is a directory to write it to |
| UpdateTransaction.Transaction.Phase | scripts/personal_update.py:188-191 | the journal changes in one step to exactly the record held by the code, or not at all |
| UpdateTransaction.Transaction.Finish | scripts/personal_update.py:279-282 | the journal never goes without its durable result |
| UpdateTransaction.Transaction.RecoverCommitted | scripts/personal_update.py:289-295 | never stops the service and never replaces a path; done means up, with the recorded outcome |
| UpdateTransaction.Transaction.RecoverPreparing | scripts/personal_update.py:298-300 | leaves the service alone |
| UpdateTransaction.Transaction.RecoverAdmission | scripts/personal_update.py:301-305 | undoes the holds only, and cannot fail while the service runs undisturbed |
| UpdateTransaction.Transaction.RecoverStopping | scripts/personal_update.py:306-315 | restarts the installation found at the stop, unchanged |
| UpdateTransaction.Transaction.RecoverRestoring | scripts/personal_update.py:306-326 | from any of five phases and any partial restoration: the last start is of exactly the prior installation |
| UpdateTransaction.Transaction.RecoverEarly | scripts/personal_update.py:297-305 | before the stop only the journal and the gates change; undisturbed it fails exactly if admission was being closed and the service does not run |
| UpdateTransaction.Transaction.RecoverLate | scripts/personal_update.py:289-326 | cannot fail undisturbed; a commit is neither undone nor made up, and what was not committed ends on the program the order was given on |
| UpdateTransaction.Transaction.Recover | scripts/personal_update.py:284-326 | for every journal: the outcome recorded, the program and the installation left, exactly when it succeeds undisturbed and exactly when the service is up afterwards; however it ends, a commit is never undone and nothing else becomes one; cut anywhere, the invariant holds for the next recovery |
| UpdateTransaction.Transaction.Migrate | scripts/personal_update.py:252-265 | done means the live installation is the migrated one; wherever it is cut, every file but the version file is as it was |
| UpdateTransaction.Transaction.CloseGates | scripts/personal_update.py:370-372 | the journal says stopping only with the hold marker and both gates shut |
| UpdateTransaction.Transaction.Capture | scripts/personal_update.py:374-376 | the journal says backed-up only with a complete snapshot of the stopped installation |
| UpdateTransaction.Transaction.ActivatePayload | scripts/personal_update.py:377-382 | done means exactly the activated installation; the invariant holds between all its steps |
| UpdateTransaction.Transaction.Seal | scripts/personal_update.py:388-390 | the rollback pointer moves to the new snapshot before the commit and to nothing else |
| UpdateTransaction.Transaction.Abandon | scripts/personal_update.py:343-347 | a failed recovery stops what it left running unless that has committed, and changes no path |
| UpdateTransaction.Transaction.Fallback | scripts/personal_update.py:394-406 | an error leads back at once: undisturbed, the program is the one the command found and the service is up; if even that cannot be, the service is stopped |
| UpdateTransaction.Transaction.Attempt | scripts/personal_update.py:357-393 | done means the goal was started and committed, with the prior installation retained; undisturbed, exactly if the order can be carried out on what was found at the stop |
| UpdateTransaction.Transaction.Transact | scripts/personal_update.py:357-406 | the same, and an undisturbed error leaves the program from before, up |
| UpdateTransaction.Transaction.Admit | scripts/personal_update.py:349-357 | a refusal changes nothing; otherwise the order is exactly the payload or the retained snapshot asked for, on the program as it is |
| UpdateTransaction.Transaction.Execute | scripts/personal_update.py:333-406 | one command, from any state a crash may have left: retained snapshots never change, a pending journal is finished and nothing begun; however it ends, the last order is the previous one or exactly this one, and the program it found is live or kept as the prior installation; success means exactly the update or rollback asked for, and undisturbed it succeeds exactly if that can be carried out |
| UpdateRuns.OrderHasACommand | scripts/personal_update.py:333-357 | the order gone by in the end was there from the start, or one of the commands began it on the machine as that command found it |
| UpdateRuns.Live | scripts/personal_update.py:284-406 | any number of commands, crashes, failures and power losses keep the invariant and every retained snapshot, and each state between them follows from the one before |
| UpdateRuns.CrashesThenRecovery | scripts/personal_update.py:284-406 | after any history of crashes one undisturbed recovery clears the journal, service running and accepting, on the program that the last command to begin found, or last started from exactly what it asked for; that command is one of the history, in the state it found |
| UpdateRuns.CrashedCommand | scripts/personal_update.py:284-406 | one command killed anywhere, then any number of recoveries killed anywhere and power losses, then one recovery left alone: the end is the program from before the command or exactly the payload or snapshot it asked for, and the journal that the command left decides which |
| UpdateRuns.OneFailure | scripts/personal_update.py:394-406 | one step of a command fails and nothing else does: the program from before is up, or what was asked for if that had been committed |
| UpdateRuns.RollBackTwice | scripts/personal_update.py:350-354 | rolling a rollback back returns to the installation the first rollback left |
| UpdateRuns.PreparedButStopped | scripts/personal_update.py:297-347 | from a fresh installation, the calls, with a recovery that fails among them, that end with a cleared journal and the service down |
| Identity.PrintedFieldIsFound | src/device.c:8-27 | the parser returns exactly the printed value, wherever the field stands, unless an earlier field has its name |
| Identity.FindField | src/device.c:8-27 | the cursor loop finds the first terminated field of that name |
| Identity.PrinterIsRecognized | src/device.c:37-56 | from an identity as a printer sends it: which makers and which model are the reference printer, and exactly which versions are read |
| Usb.ConnectionsGrow | src/usb_libusb.c:54-71 | the generation never goes back, and is unchanged only if nothing was released |
| Usb.NewDocument | src/usb_libusb.c:54-71 | more completed documents under the same generation come from a report drained since, on that connection |
| Usb.PortBits | src/usb_libusb.c:290-299 | which bit of the port status tells which condition |
| Usb.PortReady | src/usb_libusb.c:290-299 | what the port says of a ready printer, and of one that is not |
| Usb.Transport.Release | src/usb_libusb.c:54-71 | bumps the generation and forgets completions |
| Usb.Transport.BulkWrite | src/usb_libusb.c:233-256 | the bytes handed over are exactly the prefix that is reported; success means all of it |
| Usb.Transport.Upload | src/usb_libusb.c:258-261 | an upload that succeeds has handed over the whole firmware, and one that fails a beginning of it |
| Usb.Transport.Write | src/usb_libusb.c:263-266 | the wire grows by exactly the reported prefix |
| Usb.Transport.ReadStatus | src/usb_libusb.c:278-331 | at most 256 packets drained; the conditions are those of the port and of the messages, and not selected as well if the messages did not fall silent; wire, uploads, connection and generation stay |
| Usb.Transport.Drain | src/usb_libusb.c:278-331 | the messages drained advance the framer by exactly those bytes |
| Device.Printer.Release | src/device.c:75-80 | handles are conserved: opens minus releases is one exactly while open |
| Device.Printer.Identify | src/device.c:37-56 | decides from the identity last read on this very handle |
| Device.Printer.ConnectOnce | src/device.c:82-140 | success leaves an open handle identified as the reference printer; failure none |
| Device.Printer.Connect | src/device.c:149-166 | at most three times is the printer opened; sends and uploads nothing; a failure is left for the caller to retry |
| Device.Printer.VerifyUpload | src/device.c:174-217 | ready only with the expected version read on the open handle |
| Device.Printer.UploadAndVerify | src/device.c:274-299 | one upload at most, none after a successful one, of exactly the given firmware |
| Device.UploadsAreBounded | src/device.c:251-311 | the uploads of one bootstrap are at most three, of the given firmware, and the successful one is the last |
| Device.ErrorsByRank | src/device.c:461-487 | the error is that of the first condition: cover, manual feed, paper, anything else |
| Device.Printer.Bootstrap | src/device.c:219-311 | ready only under exactly the expected version; at most three uploads, each of the given firmware, successful only in full, none after one succeeded, not even across a reconnection; none without firmware or an expected version, and none to a printer that runs firmware |
| Device.Printer.Send | src/device.c:313-383 | writes only when ready, to a printer that reported the stored version on this handle; no more tries than allowed, of which all but the last took nothing; the wire grows by exactly the bytes reported, on every return; a partial transfer demands explicit retry and closes the handle |
| Device.Printer.Revalidate | src/device.c:385-427 | a ready printer stays ready only if it again reports the expected version; each way of losing it has its state and its error |
| Device.Printer.GetStatus | src/device.c:429-449 | success keeps the connection; failure gives it up |
| Device.Printer.Disconnect | src/device.c:451-459 | gives up the handle and forgets the version |
| Media.StandardSizesPrint | src/media.c:8-26 | every listed size prints, and by name, by size and as custom it is the same geometry |
| Media.PixelsOfOffice | src/media.c:8-26 | A4, letter, legal and executive in pixels, A4 also in high resolution |
| Media.PixelsOfSmall | src/media.c:8-26 | A5, A6 and the two B5 sizes in pixels |
| Media.PixelsOfEnvelopes | src/media.c:8-26 | the four envelopes in pixels |
| Media.PixelsOfOthers | src/media.c:8-26 | postcards, fanfold and 16K in pixels |
| Media.CustomSizesThatPrint | src/media.c:79-95 | exactly which custom sizes and resolutions there are |
| Media.BoxIsInsidePage | src/media.c:79-105 | the printable box is not empty and has equal margins inside the page, for every legal size |
| Media.HighResolutionIsTwice | src/media.c:96-103 | the 1200 dpi printable width is twice the 600 dpi one or one more, for every legal size |
| Raster.BoxTestIsImplied | src/encoder.c:36-53 | the later overflow test can never fire after the media equality test |
| Raster.QualitiesByName | src/encoder.c:6-11 | which quality goes with which resolution and density |
| Raster.SizeCheckIsExact | src/encoder.c:77-89 | the wrapping size checks pass exactly when the true product fits |
| Raster.AdmissionIsExact | src/encoder.c:32-89 | the adapter is reached if and only if the raster is well described, item by item, and its bits are all there |
| Raster.AdmittedIsIndexSafe | src/encoder.c:81-92 | every pixel of every page of an admitted raster lies within its bits |
| Job.EncodedPage.Capacity | src/job.c:54-61 | the growth loop ends with enough room, within the allowed maximum or one first block |
| Job.EncodedPage.Collect | src/job.c:43-72 | takes a chunk whole or not at all, and refuses what exceeds the maximum |
| Job.EncodeRaster | src/encoder.c:24-108 | for any adapter: what the page holds is shorter than what was emitted, or the same |
| Job.Job.constructor | src/job.c:90-107 | a new job is accepted with nothing sent and room for 64 MiB a page |
| Job.LegalPathsEnd | src/job.c:109-333 | nothing follows an end, a failure only starts over, and completion, transmission and waiting begin from preparing alone |
| Job.Job.SetState | src/job.c:30-36 | publishes only legal steps |
| Job.Job.Fail | src/job.c:74-88 | failed means nothing sent, failed-partial something; anything sent demands explicit retry |
| Job.Job.Prepare | src/job.c:109-151 | preparing means a ready device under the expected version; sends nothing; refused in any other state without effect |
| Job.Job.Judge | src/job.c:173-190 | a page is sent only if the encoder's count agrees with what arrived; a page that was refused needs no explicit retry |
| Job.Job.SendChunk | src/job.c:205-220 | the wire advances by exactly the next bytes of the page, also on failure, at most 65536 of them; three tries while nothing of the job was sent, then one, and a try is repeated only if it took nothing |
| Job.Job.Transmit | src/job.c:195-222 | success puts exactly the page on the wire; failure a prefix, and ends the job |
| Job.Job.SubmitPage | src/job.c:153-229 | one more page counted exactly on success; nothing but print data in between; failure ends the job; refused in any other state without effect |
| Job.Job.Complete | src/job.c:231-247 | refused without a page or out of turn; completed exactly if not canceled by then, and then the wire holds the whole concatenation of what the encoder emitted, once |
| Job.Job.Retry | src/job.c:249-263 | succeeds exactly for a failed job with explicit retry, of which nothing reached the wire |
| Job.Job.WaitForMedia | src/job.c:265-281 | waits exactly for paper, manual feed or the cover |
| Job.Job.OutputFailed | src/job.c:295-304 | ends a sent job as failed-partial with explicit retry |
| Job.Job.Cancel | src/job.c:306-319 | ended jobs stay as they are, others become canceled, with explicit retry exactly if anything was sent |
| Job.Job.Shutdown | src/job.c:321-333 | leaves an ended job and a released device |
| Job.Run | src/job.c:109-333 | any sequence of calls: legal published path, completed, canceled and failed-partial are absorbing, the wire is a prefix of what was emitted and counted exactly |
| Runtime.HandingCompletesNothing | src/pappl_runtime.c:1121-1128 | sending under the lock neither completes a document nor ends a connection |
| Runtime.PageHasEvidence | src/pappl_runtime.c:473-483 | the comparison with the status from before the page proves a report drained after the page's last byte |
| Runtime.AttestedGrows | src/pappl_runtime.c:1121-1143 | a page that is waited for keeps the reports of the earlier pages apart from its own: each was drained before the next page's end |
| Runtime.AttestedIsEvidence | src/pappl_runtime.c:473-483 | a report before the next page is evidence in the whole history |
| Runtime.ReasonsTellConditions | src/pappl_runtime.c:339-354 | no printer reasons means no condition at all |
| Runtime.ReasonsOfEach | src/pappl_runtime.c:339-354 | what each condition tells the user |
| Runtime.ReasonsAddUp | src/pappl_runtime.c:339-354 | several conditions tell all of it |
| Runtime.LawfulGrows | src/pappl_runtime.c:205-211 | uploads of listed firmware keep the record lawful |
| Runtime.Backend.LoadFirmware | src/pappl_runtime.c:164-220 | whatever is active, only the production firmware becomes available, except to the test device; what is available stays |
| Runtime.Backend.PrepareDevice | src/pappl_runtime.c:222-265 | ready exactly without a device error, and then the device is, under the version of the loaded firmware; bounded uploads of that firmware; without imported firmware nothing is uploaded and a warm printer keeps its identity; every upload ever made is of the production firmware |
| Runtime.Backend.Reflect | src/pappl_runtime.c:381-395 | exactly when a job starts and stops waiting for media |
| Runtime.Backend.StatusReasons | src/pappl_runtime.c:305-362 | no reasons only from a ready device without conditions |
| Runtime.Backend.Interfere | src/pappl_runtime.c:407-444 | the monitor thread never puts a byte on the wire and keeps the device invariant |
| Runtime.Backend.WaitForReady | src/pappl_runtime.c:364-405 | moves the job between its two waiting states only; ready means that the status was asked for last and showed no condition |
| Runtime.Backend.PollOutput | src/pappl_runtime.c:466-505 | printed only by a newer completion on the same connection; given up without a connection that can report |
| Runtime.Backend.WaitForOutput | src/pappl_runtime.c:459-510 | every false return leaves the job canceled or failed-partial with explicit retry |
| Runtime.Backend.StartJob | src/pappl_runtime.c:886-955 | a job begins with nothing sent, and goes on only when prepared on the shared device |
| Runtime.Backend.EndPage | src/pappl_runtime.c:1070-1143 | true means the page was sent after the printer was seen ready, and has completion evidence; false means it was not sent or the job has ended; incomplete rows change nothing at all |
| Runtime.Backend.EndJob | src/pappl_runtime.c:957-973 | completes exactly a job that prepares, has a page and is canceled neither on entry nor then, with a report of its own for every transmitted page; says for every other job what becomes of it |
| Runtime.Backend.PrintPages | src/pappl_runtime.c:975-1143 | if a page callback fails, a page is missing or the job has ended |
| Runtime.Backend.PrintJob | src/pappl_runtime.c:886-1143 | a whole job under any interleaving with the monitor: completed means a report of its own for every transmitted page, drained between its end and the next one's, and exactly the emitted bytes on the wire; it covers all pages exactly if every callback succeeded; a canceled job is never completed, and if every callback succeeded it is one or the other |
| Runtime.Backend.ShortJob | src/pappl_runtime.c:957-1143 | the callbacks that complete a job of two pages with one, the second having broken off while its rows arrived |
| PjlSpec.SegmentsSplit | src/pjl_status.c:95-104 | splitting on form feed loses nothing |
| PjlSpec.ScanAgrees | src/pjl_status.c:37-70 | the line scan with its early exits accepts exactly the bodies with one good code and one good online line |
| PjlSpec.ScanFindsTheReport | src/pjl_status.c:32-70 | the scan finds a report exactly where the declarative definition has one |
| PjlSpec.AtMostOneCondition | src/pjl_status.c:73-92 | the conditions are one flag or none, after any frames |
| PjlSpec.CompletedIsExact | src/pjl_status.c:18-26 | the count of completed documents is the number of exact success frames |
| PjlSpec.PaperRequestIsSticky | src/pjl_status.c:82-92 | a paper request outlives every frame that does not clear it |
| PjlSpec.PaperRequestIsClearedExactly | src/pjl_status.c:73-92 | which frames clear it, if and only if |
| PjlSpec.OneReport | src/pjl_status.c:71-92 | what one report leaves: what it shows itself, unless it is outweighed by a pending request for paper |
| PjlSpec.ConditionsAreOfOneReport | src/pjl_status.c:71-92 | after any frames the conditions are exactly those that a single report shows, the last one that had an effect |
| PjlSpec.OnlyOneRules | src/pjl_status.c:82-92 | there is only one such report |
| PjlSpec.PendingRequestStays | src/pjl_status.c:82-89 | a pending request stays the very same one under everything that does not decide |
| PjlSpec.ReportReadsBack | src/pjl_status.c:27-70 | a printed report reads back, for every code, either line end and all three headers |
| PjlSpec.ManualFeedFrame | src/pjl_status.c:75-79 | a frame, and its condition |
| PjlSpec.MediaEmptyFrame | src/pjl_status.c:75-79 | a frame, and its condition |
| PjlSpec.CoverOpenFrame | src/pjl_status.c:73-74 | a frame, and its condition |
| PjlSpec.FaultFrame | src/pjl_status.c:80-81 | a frame, and its condition |
| PjlSpec.OfflineFrame | src/pjl_status.c:89-92 | a frame, and its condition |
| PjlSpec.ReadyFrame | src/pjl_status.c:89-92 | a frame without any condition |
| PjlSpec.CompletionFrame | src/pjl_status.c:18-26 | the two frames that count a document |
| PjlSpec.MalformedChangesNothing | src/pjl_status.c:37-70 | a frame cut inside a line, or with a repeated code or online line, changes nothing |
| PjlSpec.BrokenCodeSpoils | src/pjl_status.c:48-57 | a code line with anything but five digits spoils its report |
| PjlSpec.BrokenOnlineSpoils | src/pjl_status.c:58-65 | an online line with anything but the two words spoils its report |
| PjlSpec.OtherHeadersChangeNothing | src/pjl_status.c:18-31 | only four first lines have any effect |
| PjlSpec.CutCompletionIsNone | src/pjl_status.c:18-26 | no cut of a completion report inside a line is one |
| PjlStatus.ChunkingIsInvisible | src/pjl_status.c:95-113 | feeding in pieces is feeding at once |
| PjlStatus.StreamingRefinesFolding | src/pjl_status.c:95-113 | the framer ends where splitting, dropping and folding end, for every byte stream |
| PjlStatus.ConditionsOfTheStream | src/pjl_status.c:71-113 | for every byte stream, flag by flag: by which code and online state, of which report, it is up |
| PjlStatus.Status.CutLine | src/pjl_status.c:38-46 | cuts a line in place and leaves the rest of the frame |
| PjlStatus.Status.ReadReport | src/pjl_status.c:32-70 | the destructive reader returns what the frame held before it was cut |
| PjlStatus.Status.ParseFrame | src/pjl_status.c:7-93 | the in-place parser computes the interpretation of the frame as it was |
| PjlStatus.Status.FeedByte | src/pjl_status.c:97-112 | one byte is one step of the abstract framer; the buffer is never overrun |
| PjlStatus.Status.Feed | src/pjl_status.c:95-113 | a call advances the abstract framer by exactly its bytes; left-over bytes of parsed frames are never read |
| FirmwareStore.TornHasNoContents | src/firmware_store.c:42-54 | an interrupted removal is torn exactly between its steps, and then its contents are gone |
| FirmwareStore.LocalStore.WritePrivate | src/firmware_store.c:20-40 | success means the whole file; failure leaves at most a prefix |
| FirmwareStore.LocalStore.RemoveGeneration | src/firmware_store.c:42-54 | how far a removal comes under its answers, and that nothing else changed |
| FirmwareStore.LocalStore.Rollback | src/firmware_store.c:135-141 | does exactly what its answers decide |
| FirmwareStore.LocalStore.Commit | src/firmware_store.c:67-147 | call by call, the commit ends as the specification says for the answers it gets |
| FirmwareStore.CommittingIsSafe | src/firmware_store.c:67-147 | under all answers an active pair stays whole or is replaced whole, and success means the new pair, byte for byte |
| FirmwareStore.AllWellCommits | src/firmware_store.c:67-147 | when every call succeeds, so does the commit, over a pair and over nothing |
| FirmwareStore.UnluckyIsTorn | src/firmware_store.c:135-141 | the run that leaves a torn pair where nothing was active |
| FirmwareStore.FailedSyncIsRolledBack | src/firmware_store.c:135-141 | when only the sync fails, the active place ends as it was, a pair or nothing |
| FirmwareStore.AtomicExactlyOverSomething | src/firmware_store.c:117-141 | a commit is atomic under all answers if and only if something was in the active place |
| FirmwareStore.CommitOne | src/firmware_store.c:67-147 | one more commit on whatever earlier ones left, torn or whole |
| FirmwareStore.CommitAll | src/firmware_store.c:67-147 | over any number of commits on top of earlier ones the active place never mixes two imports, and once whole stays whole |
| Metadata.LinesOfJoined | src/firmware_store.c:103-106 | reading lines undoes printing them |
| Metadata.MatchesOwnKey | src/pappl_runtime.c:146-151 | a line answers to its own name only, whatever its value |
| Metadata.EmptyValueIsNone | src/pappl_runtime.c:146-147 | a line with nothing after its name is passed over |
| Metadata.MetadataValue | src/pappl_runtime.c:132-162 | the cursor loop returns the value of the field that occurs exactly once and fits |
| Metadata.FieldOfEntries | src/pappl_runtime.c:132-162 | for any entries, reading returns exactly what was entered |
| Metadata.PrintedFieldsReadBack | src/firmware_store.c:96-114 | schema, affirmation, source, version and digest read back exactly; no source text can forge a field |
| Metadata.PrintFits | src/firmware_store.c:96-98 | the text always fits the buffer set aside for it |
| Metadata.PrintedText | src/firmware_store.c:103-106 | the text itself |
| Metadata.TextIsPrintable | src/firmware.c:18-34 | which texts are acceptable |
| Firmware.HexDecodes | src/firmware.c:42-50 | the printed digest determines the digest |
| Firmware.Sha256Hex | src/firmware.c:42-50 | the loop fills the buffer with exactly the printed digest and a terminator |
| Firmware.AcceptanceNeedsAffirmationAndListing | src/firmware.c:104-169 | nothing is accepted that was not read whole, affirmed and listed by its content; what is listed with a usable version is |
| Firmware.RefusalsTellWhy | src/firmware.c:104-169 | what each refusal says is so |
| Firmware.ImportFirmware | src/firmware.c:138-188 | a refused import changes nothing; an accepted one commits exactly what was decided, and every end it can come to is given for what was active before, a pair, an odd entry or nothing |
| Firmware.ImportThenLoad | src/pappl_runtime.c:164-220 | an accepted import loads as exactly what was imported, if and only if it is at most 1 MiB with a version of at most 63 characters |
| Firmware.ProductionImportLoads | src/firmware.c:9-16 | whatever the production list accepts loads again |
| Firmware.LongVersionNeverLoads | src/firmware.c:166-169 | a version of 64 characters is accepted and never loads |
| Firmware.LoadedIsOneImport | src/pappl_runtime.c:164-220 | firmware that loads is that of one import, with its own version |
| Firmware.LoadsExactly | src/pappl_runtime.c:164-220 | for every active place, torn or tampered with: exactly what loads from it |
| Firmware.OnlyListedFirmwareLoads | src/firmware.c:9-16 | nothing but the production file, by size and digest, ever loads for a real printer |
| DuplexPlan.FinishedStackReadsInOrder | scripts/manual_duplex.py:27-37 | feeding the stack against the backs puts page f+1 behind page f, so the sheets read 1 to n, for every n |
| DuplexPlan.BlankComesFirst | scripts/manual_duplex.py:32-33 | a single blank, first, exactly for odd n |
| DuplexPlan.EveryPageOnce | scripts/manual_duplex.py:32-33 | both passes together print every page exactly once |
| DuplexPlan.RotationIsSymmetric | scripts/manual_duplex.py:34-37 | changing binding or orientation alone flips the rotation, changing both does not |
| DuplexPlan.PlanReadsInOrder | scripts/manual_duplex.py:27-37 | exactly when there is a plan; its own two passes leave a stack that reads 1 to n, and which bindings turn the backs |
| DuplexPlan.FivePages | scripts/manual_duplex.py:27-37 | a plan, and two numbers of pages without one |
| DuplexPlan.CountIsOneToN | scripts/manual_duplex.py:27-37 | the order that is meant is 1 to n |
| DuplexWorkflow.OneMoreEvent | scripts/manual_duplex.py:76-126 | the safety of a history is kept by every event that has its grounds |
| DuplexWorkflow.PollingEndsInTime | scripts/manual_duplex.py:105-114 | waiting succeeds exactly if some poll sees the job completed while all earlier ones saw the same service, an unfinished job and a clock short of the deadline |
| DuplexWorkflow.TimeRunsFromBeforeTheQuestion | scripts/manual_duplex.py:92-94 | the last moment, and the one that is too late, by the clock |
| DuplexWorkflow.PassByTheClock | scripts/manual_duplex.py:99-114 | the last moment at which a pass may go on, and the one that is too late, counted from before the sending |
| DuplexWorkflow.PassByTheJob | scripts/manual_duplex.py:99-114 | job states, a job number and a service under which a pass fails |
| DuplexWorkflow.Workflow.Deliver | scripts/manual_duplex.py:103-114 | reads the clock, then sends once to a job just created in a service just checked; done exactly if the answers to come let the job complete before the time from that reading is up |
| DuplexWorkflow.Workflow.Confirm | scripts/manual_duplex.py:90-94 | done exactly if the answers are yes and a clock short of the deadline that was set by the reading before the question |
| DuplexWorkflow.Workflow.AwaitReinsertion | scripts/manual_duplex.py:90-98 | done exactly if the confirmation is in time and then the service is unchanged and the front job still completed; the trace shows all of it in that order |
| DuplexWorkflow.Workflow.PrintBoth | scripts/manual_duplex.py:88-115 | fronts, then backs, and completion is said only after both |
| DuplexWorkflow.Workflow.CancelActive | scripts/manual_duplex.py:117-124 | the active job is canceled if and only if the service answers as the same instance |
| DuplexWorkflow.Workflow.GiveUp | scripts/manual_duplex.py:116-126 | the same for the whole cleanup, decided by the first answer after the failure; it asks once, first of all, or says that it could not |
| DuplexWorkflow.Workflow.RunWorkflow | scripts/manual_duplex.py:76-126 | which answers, of all that can be given, let it succeed, exactly; at most two sends, fronts then backs, each to a new job of a service just checked, the backs on grounds that directly precede them; completed exactly on success; from the failure on only the cleanup, which asks for the service first, and at most one cancel, exactly if the answer is the same service |
| DuplexWorkflow.ChangedThenBack | scripts/manual_duplex.py:84-120 | the calls in which a service seen changed and then unchanged has its job canceled |

## Left out

- Durability below a file operation: `os.replace`, rename and unlink are single durable steps; reordering of disk writes at a power loss is not modelled, and neither are the temporary files of `durable_json`.
- Contents of trees: files are digests, owner and group are one number; rejection of links and special files, the free-space and store-permission checks and the flock are not part of this model.
- The queue backup (`queue.json`, `queue.ppd`) in a snapshot: it is saved beside the trees and never restored by the transaction.
- The hold marker lives in the state directory; it is kept apart from the other files of its tree, and equality of installations is meant up to it.
- Host.Stop: the launchctl and CUPS commands behind it, in `scripts/personal_install.py`, are three steps that may each fail.
- Migrate: only the one migration that exists, from version 0 to 1.
- Unfinished print jobs: the two job-list checks are among the steps that may fail.
- UpdateRuns.CrashesThenRecovery: crashes only; for errors of host commands `OneFailure` says what one does in a command, and `Recover` and `PreparedButStopped` what can happen after one in a recovery.
- Real time: sleeps and polling intervals take no part, clocks give arbitrary answers, and a polling loop of the runtime runs any finite number of times before it ends.
- Machine counters such as the USB generation, the number of completed documents and bytes sent are unbounded; sizes in raster admission and only those wrap.
- Usb.Transport.Claim: interface and endpoint selection is an arbitrary answer.
- Runtime.Backend.LoadFirmware: what is active at that moment is an arbitrary answer; `Firmware.Load` is the loader itself.
- Runtime: jobs on a PAPPL device that the backend does not own, the simulated test device, row collection and the web and status callbacks.
- The encoder adapter of foo2zjs: it emits any chunks, may ignore refusals and reports any count.
- Job.Book: the claim about what the encoder emitted, as opposed to what the page buffers kept, assumes that the adapter counted truthfully; `truthful` records whether it did.
- Error detail texts, logging and published messages of the driver.
- FirmwareStore: making and checking the root directory and making the staging one are one call, and so is each sync; removal of the whole store (`hplj_local_remove_all`) and the staging directories that interrupted commits leave behind.
- Firmware: SHA-256 is an arbitrary function to 32 bytes; file ownership and mode checks are not modelled.
- DuplexWorkflow: a failing `publish`, and rendering of the two documents.
- `scripts/personal_install.py`, `scripts/personal_release.py`, `scripts/reconcile_macos_queue.py`, `src/pappl.c`, `src/error.c`, `src/version.c`, `src/diagnostics.c` and `src/duplex_helper.c`: command plumbing, tables and rendering.
