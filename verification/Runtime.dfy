/** The backend that the job thread and the monitor thread share, and the callbacks that print a job.
    Everything between two acquisitions of the device lock is one step; wherever the lock is free, the
    monitor thread may take any number of steps. */
module Runtime {
  import opened DeviceErrors
  import opened Outcomes
  import opened PjlSpec
  import opened Raster
  import opened Usb
  import opened Job
  import Firmware
  import FirmwareStore

  datatype Reason = MediaOut | MediaNeeded | Offline | Other | CoverReason | DoorReason

  lemma {:induction false} EvidenceStays(a: seq<Event>, b: seq<Event>, at: nat)
    requires a <= b && Evidence(a, at)
    ensures Evidence(b, at)
  {
    var j :| at <= j < |a| && a[j].Drained? && a[j].documents > 0 && forall k :: at <= k < j ==> !a[k].Released?;
    assert b[j] == a[j];
  }

  /** Handing print data over neither completes a document nor ends a connection. */
  lemma {:induction false} HandingCompletesNothing(a: seq<Event>, b: seq<Event>)
    requires a <= b && forall k :: |a| <= k < |b| ==> b[k].Handed?
    ensures Documents(a) == Documents(b) && Connections(a) == Connections(b)
    decreases |b|
  {
    if |a| < |b| {
      HandingCompletesNothing(a, b[..|b| - 1]);
    } else {
      assert a == b;
    }
  }

  /** More documents on the connection than before the page began mean a report after the page's end. */
  lemma PageHasEvidence(before: seq<Event>, sent: seq<Event>, seen: seq<Event>, now: seq<Event>)
    requires before <= sent <= seen <= now && forall k :: |before| <= k < |sent| ==> sent[k].Handed?
    requires Connections(seen) == Connections(before) && Documents(before) < Documents(seen)
    ensures Evidence(now, |sent|)
  {
    HandingCompletesNothing(before, sent);
    NewDocument(sent, seen);
    EvidenceStays(seen, now, |sent|);
  }

  /** The trace up to where the page after `i` was sent, or all of it. */
  function Until(trace: seq<Event>, ends: seq<nat>, i: nat): seq<Event> {
    if i + 1 < |ends| && ends[i + 1] <= |trace| then trace[..ends[i + 1]] else trace
  }

  /** Each page has a completion report of its own: it was drained after the end of the page, on the
      connection that it went over, and before the end of the next. */
  ghost predicate Attested(trace: seq<Event>, ends: seq<nat>) {
    forall i :: 0 <= i < |ends| ==> Evidence(Until(trace, ends, i), ends[i])
  }

  lemma AttestedIsEvidence(trace: seq<Event>, ends: seq<nat>)
    requires Attested(trace, ends)
    ensures forall i :: 0 <= i < |ends| ==> Evidence(trace, ends[i])
  {
    forall i | 0 <= i < |ends|
      ensures Evidence(trace, ends[i])
    {
      EvidenceStays(Until(trace, ends, i), trace, ends[i]);
    }
  }

  lemma AttestedStays(before: seq<Event>, now: seq<Event>, ends: seq<nat>)
    requires Attested(before, ends) && before <= now && forall i :: 0 <= i < |ends| ==> ends[i] <= |before|
    ensures Attested(now, ends)
  {
    forall i | 0 <= i < |ends|
      ensures Evidence(Until(now, ends, i), ends[i])
    {
      assert Until(before, ends, i) <= Until(now, ends, i);
      EvidenceStays(Until(before, ends, i), Until(now, ends, i), ends[i]);
    }
  }

  lemma OlderPageStays(start: seq<Event>, sent: seq<Event>, now: seq<Event>, ends: seq<nat>, i: nat)
    requires start <= sent <= now && i < |ends| && (i + 1 < |ends| ==> ends[i + 1] <= |start|)
    requires Evidence(Until(start, ends, i), ends[i])
    ensures Evidence(Until(now, ends + [|sent|], i), (ends + [|sent|])[i])
  {
    var more := ends + [|sent|];
    assert more[i] == ends[i];
    if i + 1 < |ends| {
      assert more[i + 1] == ends[i + 1] && start[..ends[i + 1]] == now[..ends[i + 1]];
    } else {
      assert more[i + 1] == |sent| && now[..|sent|] == sent;
      EvidenceStays(start, sent, ends[i]);
    }
  }

  lemma AttestedGrows(start: seq<Event>, sent: seq<Event>, now: seq<Event>, ends: seq<nat>)
    requires Attested(start, ends) && start <= sent <= now && forall i :: 0 <= i < |ends| ==> ends[i] <= |start|
    requires Evidence(now, |sent|)
    ensures Attested(now, ends + [|sent|])
  {
    var more := ends + [|sent|];
    forall i | 0 <= i < |more|
      ensures Evidence(Until(now, more, i), more[i])
    {
      if i < |ends| {
        OlderPageStays(start, sent, now, ends, i);
      } else {
        assert Until(now, more, i) == now && more[i] == |sent|;
      }
    }
  }

  /** Every page that was sent in full has been reported complete since. */
  ghost predicate Proven(m: Metadata, b: Book, trace: seq<Event>) {
    m.state in {Preparing, WaitingForMedia, Completed} ==> Attested(trace, b.pageEnds)
  }

  ghost predicate Within(ends: seq<nat>, trace: seq<Event>) {
    forall i :: 0 <= i < |ends| ==> ends[i] <= |trace|
  }

  lemma ProvenStays(m: Metadata, b: Book, n: Metadata, c: Book, before: seq<Event>, now: seq<Event>)
    requires Proven(m, b, before) && before <= now && c.pageEnds == b.pageEnds && Within(b.pageEnds, before)
    requires n.state in {Preparing, WaitingForMedia, Completed} ==> m.state in {Preparing, WaitingForMedia, Completed}
    ensures Proven(n, c, now)
  {
    if n.state in {Preparing, WaitingForMedia, Completed} {
      AttestedStays(before, now, b.pageEnds);
    }
  }

  /** Waiting for the printer only moves a job between its two waiting states. */
  ghost predicate Waited(m: Metadata, b: Book, n: Metadata, c: Book) {
    && OnlyPublished(b, c) && n.sent == m.sent && n.pages == m.pages
    && if m.state in {Preparing, WaitingForMedia} then n.state in {Preparing, WaitingForMedia} else n == m
  }

  /** The printer was looked at, and found without any condition. */
  predicate SeenReady(e: Event) {
    e.Looked? && e.conditions == {}
  }

  datatype Poll = Again | Printed | GivenUp

  function Reasons(conditions: set<Condition>): set<Reason> {
    (if MediaEmpty in conditions then {MediaOut, MediaNeeded} else {})
    + (if NotSelected in conditions then {Offline} else {})
    + (if Fault in conditions then {Other} else {})
    + (if ManualFeed in conditions then {MediaNeeded} else {})
    + (if CoverOpen in conditions then {CoverReason, DoorReason} else {})
  }

  lemma ReasonsTellConditions(conditions: set<Condition>)
    ensures Reasons(conditions) == {} <==> conditions == {}
  {
    if conditions != {} {
      var c :| c in conditions;
      var reason :=
        match c
        case MediaEmpty => MediaOut
        case NotSelected => Offline
        case Fault => Other
        case ManualFeed => MediaNeeded
        case CoverOpen => CoverReason;
      assert reason in Reasons(conditions);
    }
  }

  /** What each condition tells the user; several tell all of it. */
  lemma ReasonsOfEach()
    ensures Reasons({MediaEmpty}) == {MediaOut, MediaNeeded} && Reasons({ManualFeed}) == {MediaNeeded}
    ensures Reasons({NotSelected}) == {Offline} && Reasons({Fault}) == {Other}
    ensures Reasons({CoverOpen}) == {CoverReason, DoorReason}
  {
  }

  lemma ReasonsAddUp(a: set<Condition>, b: set<Condition>)
    ensures Reasons(a + b) == Reasons(a) + Reasons(b)
  {
  }

  /** What was uploaded was production firmware, unless this is the test device, and no upload that fell
      short passed for a success. */
  ghost predicate Lawful(uploads: seq<Transfer>, testDevice: bool, sha: string -> Firmware.Digest) {
    forall i :: 0 <= i < |uploads| ==>
      Took(uploads[i]) && (testDevice || Firmware.Genuine(uploads[i].firmware, sha))
  }

  lemma LawfulGrows(a: seq<Transfer>, b: seq<Transfer>, firmware: Option<string>, testDevice: bool,
                    sha: string -> Firmware.Digest)
    requires Lawful(a, testDevice, sha) && a <= b && D.Bounded(b[|a|..], firmware)
    requires firmware.Some? ==> testDevice || Firmware.Genuine(firmware.value, sha)
    ensures Lawful(b, testDevice, sha)
  {
    forall i | 0 <= i < |b|
      ensures Took(b[i]) && (testDevice || Firmware.Genuine(b[i].firmware, sha))
    {
      if i < |a| {
        assert b[i] == a[i];
      } else {
        assert b[i] == b[|a|..][i - |a|];
      }
    }
  }

  class Backend {
    const device: D.Printer
    const testDevice: bool
    const sha: string -> Firmware.Digest
    var firmware: Option<string>
    var version: string
    var deviceError: Category
    var statusCode: nat
    var statusOnline: bool

    ghost function Repr(): set<object> {
      {this} + device.Repr()
    }

    ghost predicate Valid()
      reads Repr()
    {
      && this !in device.Repr() && device.Valid()
      && (firmware.Some? && !testDevice ==> Firmware.Genuine(firmware.value, sha) && version == "20080222")
      && Lawful(device.usb.uploads, testDevice, sha)
    }

    constructor (testDevice: bool, sha: string -> Firmware.Digest)
      ensures Valid() && fresh(Repr()) && device.usb.trace == [] && device.usb.wire == ""
      ensures this.testDevice == testDevice && this.sha == sha
    {
      this.testDevice, this.sha := testDevice, sha;
      device := new D.Printer();
      firmware, version, deviceError, statusCode, statusOnline := None, "", NoError, 0, false;
    }

    /** The last thing that happened on the bus. */
    ghost function Last(): Event
      requires device.usb.trace != []
      reads device, device.usb
    {
      device.usb.trace[|device.usb.trace| - 1]
    }

    /** Reads the imported firmware unless it has been read already, from whatever is active by then. */
    method LoadFirmware() returns (available: bool)
      requires Valid()
      modifies this
      ensures Valid() && available == firmware.Some?
      ensures old(firmware).Some? ==> firmware == old(firmware) && version == old(version)
    {
      if firmware.None? {
        var active: FirmwareStore.Entry, found: string := *, *;
        Firmware.OnlyListedFirmwareLoads(active, sha);
        var loaded := Firmware.Load(active, testDevice, [Firmware.PRODUCTION], sha);
        if loaded.Some? {
          firmware, version := Some(loaded.value.firmware), loaded.value.version;
        } else {
          version := found;
        }
      }
      return firmware.Some?;
    }

    /** One step under the lock: brings the device as far as it will go. */
    method PrepareDevice() returns (ready: bool)
      requires Valid()
      modifies Repr()
      ensures Valid() && device.usb.wire == old(device.usb.wire) && old(device.usb.trace) <= device.usb.trace
      ensures ready <==> deviceError.NoError?
      ensures ready ==> device.state == D.Ready && (firmware.Some? ==> device.version == version)
      ensures firmware.None? && old(device.state) == D.FirmwarePresent ==>
                device.state == D.FirmwarePresent && deviceError == FirmwareMissing
                && device.version == old(device.version)
      ensures old(device.usb.uploads) <= device.usb.uploads
      ensures D.Bounded(device.usb.uploads[|old(device.usb.uploads)|..], firmware)
      ensures firmware.None? || old(device.state) == D.Ready ==> device.usb.uploads == old(device.usb.uploads)
    {
      var available := LoadFirmware();
      if device.state == D.Ready {
        var refreshed := device.Revalidate(Some(if available then version else device.version));
        deviceError := refreshed.error.category;
      } else {
        Bring(available);
      }
      ready := deviceError.NoError?;
    }

    /** Connects to a printer that is not ready, and gives it its firmware, if that is at hand. */
    method Bring(available: bool)
      requires Valid() && device.state != D.Ready && available == firmware.Some?
      modifies Repr()
      ensures Valid() && device.usb.wire == old(device.usb.wire) && old(device.usb.trace) <= device.usb.trace
      ensures firmware == old(firmware) && version == old(version)
      ensures deviceError.NoError? ==> device.state == D.Ready && (firmware.Some? ==> device.version == version)
      ensures !available && old(device.state) == D.FirmwarePresent ==>
                device.state == D.FirmwarePresent && deviceError == FirmwareMissing
                && device.version == old(device.version)
      ensures old(device.usb.uploads) <= device.usb.uploads
      ensures D.Bounded(device.usb.uploads[|old(device.usb.uploads)|..], firmware)
      ensures !available ==> device.usb.uploads == old(device.usb.uploads)
    {
      if device.state == D.Absent {
        var connected := device.Connect();
        if !connected.error.category.NoError? {
          deviceError := connected.error.category;
          return;
        }
      }
      if !available && device.state == D.FirmwarePresent {
        deviceError := FirmwareMissing;
        return;
      }
      var result := device.Bootstrap(firmware, Some(if available then version else "firmware-required"));
      LawfulGrows(old(device.usb.uploads), device.usb.uploads, firmware, testDevice, sha);
      deviceError := result.error.category;
    }

    /** One step under the lock: asks for the status and turns it into printer reasons. */
    method StatusReasons() returns (reasons: set<Reason>, conditions: set<Condition>)
      requires Valid()
      modifies Repr()
      ensures Valid() && device.usb.wire == old(device.usb.wire) && old(device.usb.trace) <= device.usb.trace
      ensures device.usb.uploads == old(device.usb.uploads)
      ensures reasons == {} ==> device.state == D.Ready && conditions == {}
      ensures reasons == {} ==> |device.usb.trace| > |old(device.usb.trace)| && SeenReady(Last())
      ensures if device.state == D.Ready then
                reasons == Reasons(conditions) && deviceError == D.FromConditions(conditions).category
              else reasons == {Offline} && conditions == {}
    {
      var status, observed := device.GetStatus();
      if !status.error.category.NoError? {
        deviceError := status.error.category;
        return {Offline}, {};
      }
      reasons := Take(observed);
      return reasons, observed;
    }

    /** Takes over what the printer has answered. */
    method Take(observed: set<Condition>) returns (reasons: set<Reason>)
      requires Valid()
      modifies this
      ensures Valid() && firmware == old(firmware) && version == old(version)
      ensures reasons == Reasons(observed) && (reasons == {} <==> observed == {})
      ensures deviceError == D.FromConditions(observed).category
    {
      var output := device.usb.OutputStatus();
      statusCode, statusOnline := output.code, output.online;
      deviceError := D.FromConditions(observed).category;
      ReasonsTellConditions(observed);
      return Reasons(observed);
    }

    /** What the monitor thread does while the job thread does not hold the lock. */
    method Interfere()
      requires Valid()
      modifies Repr()
      ensures Valid() && device.usb.wire == old(device.usb.wire) && old(device.usb.trace) <= device.usb.trace
    {
      var steps: nat :| true;
      for i := 0 to steps
        invariant Valid() && device.usb.wire == old(device.usb.wire) && old(device.usb.trace) <= device.usb.trace
      {
        var prepare: bool := *;
        if prepare {
          var ready := PrepareDevice();
        } else {
          var reasons, conditions := StatusReasons();
        }
      }
    }

    /** Shows on the job whether the printer is waiting for someone to do something about its media. */
    method Reflect(job: Job, reasons: set<Reason>, conditions: set<Condition>)
      requires job.Valid()
      modifies job
      ensures job.Valid() && Waited(old(job.metadata), old(job.book), job.metadata, job.book)
      ensures job.metadata.state ==
              var state := old(job.metadata.state);
              if reasons == {} then (if state == WaitingForMedia then Preparing else state)
              else if MediaEmpty in conditions || ManualFeed in conditions || CoverOpen in conditions then
                (if state == Preparing then WaitingForMedia else state)
              else state
    {
      if reasons == {} {
        if job.metadata.state == WaitingForMedia {
          var ignored := job.ResumeMedia();
        }
      } else if job.metadata.state == Preparing
              && (MediaEmpty in conditions || ManualFeed in conditions || CoverOpen in conditions) {
        var ignored := job.WaitForMedia(conditions);
      }
    }

    /** One look at whether the printer is ready, in two steps under the lock. */
    method PollReady(job: Job?) returns (ready: bool)
      requires Valid() && (job != null ==> job.Valid() && job.device == device)
      modifies Repr(), job
      ensures Valid() && device.usb.wire == old(device.usb.wire) && old(device.usb.trace) <= device.usb.trace
      ensures ready ==> |device.usb.trace| > |old(device.usb.trace)| && SeenReady(Last())
      ensures job != null ==>
                && job.Valid() && Waited(old(job.metadata), old(job.book), job.metadata, job.book)
                && (ready ==> job.metadata.state != WaitingForMedia)
    {
      var reasons, conditions;
      ready, reasons, conditions := LookReady();
      if ready {
        if job != null {
          Reflect(job, reasons, conditions);
        }
        ready := reasons == {};
      }
    }

    /** The two steps: the device is brought up, and then asked for its status. */
    method LookReady() returns (prepared: bool, reasons: set<Reason>, conditions: set<Condition>)
      requires Valid()
      modifies Repr()
      ensures Valid() && device.usb.wire == old(device.usb.wire) && old(device.usb.trace) <= device.usb.trace
      ensures prepared && reasons == {} ==> |device.usb.trace| > |old(device.usb.trace)| && SeenReady(Last())
    {
      Interfere();
      prepared := PrepareDevice();
      reasons, conditions := {}, {};
      if prepared {
        Interfere();
        reasons, conditions := StatusReasons();
      }
    }

    /** Polls until the printer is ready, or the job is canceled or the service stops. */
    method WaitForReady(job: Job?) returns (ready: bool)
      requires Valid() && (job != null ==> job.Valid() && job.device == device)
      modifies Repr(), job
      ensures Valid() && device.usb.wire == old(device.usb.wire) && old(device.usb.trace) <= device.usb.trace
      ensures ready ==> |device.usb.trace| > |old(device.usb.trace)| && SeenReady(Last())
      ensures job != null ==>
                && job.Valid() && Waited(old(job.metadata), old(job.book), job.metadata, job.book)
                && (ready ==> job.metadata.state != WaitingForMedia)
    {
      var polls: nat :| true;
      ready := false;
      for i := 0 to polls
        invariant Valid() && device.usb.wire == old(device.usb.wire) && old(device.usb.trace) <= device.usb.trace
        invariant job != null ==> job.Valid() && Waited(old(job.metadata), old(job.book), job.metadata, job.book)
        invariant !ready
      {
        ready := PollReady(job);
        if ready {
          break;
        }
      }
    }

    /** Asks for the status, between whatever the monitor thread does. */
    method Glance() returns (reasons: set<Reason>, conditions: set<Condition>)
      requires Valid()
      modifies Repr()
      ensures Valid() && device.usb.wire == old(device.usb.wire) && old(device.usb.trace) <= device.usb.trace
    {
      Interfere();
      reasons, conditions := StatusReasons();
      Interfere();
    }

    /** One look at whether the page came out, as seen on the connection it was sent over. */
    method PollOutput(job: Job, before: Output) returns (poll: Poll, ghost seen: seq<Event>)
      requires Valid() && job.Valid() && job.device == device
      requires job.metadata.state in {Preparing, WaitingForMedia} && job.metadata.sent > 0
      modifies Repr(), job
      ensures Valid() && job.Valid() && device.usb.wire == old(device.usb.wire)
      ensures old(device.usb.trace) <= seen == device.usb.trace
      ensures OnlyPublished(old(job.book), job.book) && job.metadata.sent == old(job.metadata.sent)
      ensures poll.Again? ==> job.metadata.state in {Preparing, WaitingForMedia}
      ensures poll.GivenUp? ==> job.metadata.state == FailedPartial
      ensures poll.Printed? ==> job.metadata.state == Preparing
      ensures !poll.GivenUp? ==> device.usb.bulkIn && device.usb.claimed
      ensures poll.Printed? ==> Connections(seen) == before.generation && Documents(seen) > before.completed
    {
      var reasons, conditions := Glance();
      seen := device.usb.trace;
      var after := device.usb.OutputStatus();
      if !after.supported || after.generation != before.generation {
        job.OutputFailed();
        poll := GivenUp;
      } else if after.completed > before.completed {
        Reflect(job, {}, {});
        poll := Printed;
      } else {
        poll := StillWaiting(job, reasons, conditions);
      }
    }

    /** No completion yet: a ready printer that has kept silent for too long is not waited for any more. */
    method StillWaiting(job: Job, reasons: set<Reason>, conditions: set<Condition>) returns (poll: Poll)
      requires job.Valid() && job.metadata.state in {Preparing, WaitingForMedia} && job.metadata.sent > 0
      modifies job
      ensures job.Valid() && OnlyPublished(old(job.book), job.book) && job.metadata.sent == old(job.metadata.sent)
      ensures poll.Again? || (poll.GivenUp? && reasons == {})
      ensures poll.Again? ==> job.metadata.state in {Preparing, WaitingForMedia}
      ensures poll.GivenUp? ==> job.metadata.state == FailedPartial
    {
      Reflect(job, reasons, conditions);
      var timedOut: bool := *;
      poll := Again;
      if reasons == {} && timedOut {
        job.OutputFailed();
        poll := GivenUp;
      }
    }

    /** Waits for the printer to report the page complete. Without that report the job ends here. */
    method WaitForOutput(job: Job, before: Output) returns (printed: bool, ghost seen: seq<Event>)
      requires Valid() && job.Valid() && job.device == device
      requires job.metadata.state in {Preparing, WaitingForMedia} && job.metadata.sent > 0
      modifies Repr(), job
      ensures Valid() && job.Valid() && device.usb.wire == old(device.usb.wire)
      ensures old(device.usb.trace) <= seen <= device.usb.trace
      ensures OnlyPublished(old(job.book), job.book) && job.metadata.sent == old(job.metadata.sent)
      ensures !printed ==> job.metadata.state in {Canceled, FailedPartial} && job.metadata.error.retry == Explicit
      ensures printed ==> job.metadata.state == Preparing
      ensures printed ==> Connections(seen) == before.generation && Documents(seen) > before.completed
    {
      var polls: nat :| true;
      seen := device.usb.trace;
      for i := 0 to polls
        invariant Valid() && job.Valid() && device.usb.wire == old(device.usb.wire)
        invariant old(device.usb.trace) <= seen == device.usb.trace
        invariant OnlyPublished(old(job.book), job.book) && job.metadata.sent == old(job.metadata.sent)
        invariant job.metadata.state in {Preparing, WaitingForMedia}
      {
        var poll: Poll;
        poll, seen := PollOutput(job, before);
        if !poll.Again? {
          return poll.Printed?, seen;
        }
      }
      job.Cancel();
      return false, seen;
    }

    method StartJob() returns (job: Job, ok: bool)
      requires Valid()
      modifies Repr()
      ensures Valid() && fresh(job) && job.Valid() && job.device == device && device.usb.wire == old(device.usb.wire)
      ensures job.metadata.pages == 0 && job.book.base == |device.usb.wire|
      ensures ok ==> job.metadata.state == Preparing && device.state == D.Ready && device.version == version
      ensures ok ==> exists k :: |old(device.usb.trace)| <= k < |device.usb.trace| && SeenReady(device.usb.trace[k])
      ensures job.metadata.state != Completed
    {
      job := new Job(device);
      var ready := WaitForReady(null);
      if !ready {
        return job, false;
      }
      ghost var seen := device.usb.trace;
      Interfere();
      ghost var before := device.usb.uploads;
      var error := job.Prepare(firmware, Some(version));
      LawfulGrows(before, device.usb.uploads, firmware, testDevice, sha);
      assert device.usb.trace[|seen| - 1] == seen[|seen| - 1];
      return job, error.category.NoError?;
    }

    /** Sends a page, if its rows are complete, and waits for it to come out. The completion count to beat is taken
        under the same lock as the page is sent, so a report about an earlier page cannot pass for this one. */
    method EndPage(job: Job, raster: Raster, complete: bool) returns (ok: bool)
      requires Valid() && job.Valid() && job.device == device && Proven(job.metadata, job.book, device.usb.trace)
      modifies Repr(), job
      ensures Valid() && job.Valid() && Proven(job.metadata, job.book, device.usb.trace)
      ensures old(device.usb.trace) <= device.usb.trace && old(device.usb.wire) <= device.usb.wire
      ensures Onward(old(job.book), job.book)
      ensures job.metadata.state == Completed ==> old(job.metadata.state) == Completed
      ensures ok ==>
                && Admit(raster, false).Encode?
                && job.metadata.state == Preparing && job.metadata.pages == old(job.metadata.pages) + 1
                && Evidence(device.usb.trace, job.book.pageEnds[old(job.metadata.pages)])
      ensures !ok ==> job.book.pageEnds == old(job.book.pageEnds) || job.metadata.state in {Canceled, FailedPartial}
      ensures ok ==> exists k ::
                |old(device.usb.trace)| <= k < job.book.pageEnds[old(job.metadata.pages)] <= |device.usb.trace|
                && SeenReady(device.usb.trace[k])
      ensures !complete ==> !ok && job.metadata == old(job.metadata) && job.book == old(job.book)
      ensures !complete ==> device.usb.trace == old(device.usb.trace) && device.usb.wire == old(device.usb.wire)
    {
      if !complete {
        return false;
      }
      ok := WaitForReady(job);
      ghost var ready := device.usb.trace;
      if ok {
        Interfere();
      }
      ProvenStays(old(job.metadata), old(job.book), job.metadata, job.book, old(device.usb.trace), device.usb.trace);
      if ok {
        ghost var start := device.usb.trace;
        ok := Deliver(job, raster);
        assert start[|ready| - 1] == ready[|ready| - 1] && start <= device.usb.trace;
      }
    }

    method Deliver(job: Job, raster: Raster) returns (ok: bool)
      requires Valid() && job.Valid() && job.device == device && Proven(job.metadata, job.book, device.usb.trace)
      modifies Repr(), job
      ensures Valid() && job.Valid() && Proven(job.metadata, job.book, device.usb.trace)
      ensures old(device.usb.trace) <= device.usb.trace && old(device.usb.wire) <= device.usb.wire
      ensures Onward(old(job.book), job.book)
      ensures job.metadata.state == Completed ==> old(job.metadata.state) == Completed
      ensures ok ==>
                && Admit(raster, false).Encode?
                && job.metadata.state == Preparing && job.metadata.pages == old(job.metadata.pages) + 1
                && Evidence(device.usb.trace, job.book.pageEnds[old(job.metadata.pages)])
                && |old(device.usb.trace)| <= job.book.pageEnds[old(job.metadata.pages)] <= |device.usb.trace|
      ensures !ok ==> job.book.pageEnds == old(job.book.pageEnds) || job.metadata.state in {Canceled, FailedPartial}
    {
      var before := device.usb.OutputStatus();
      ghost var start, m, b := device.usb.trace, job.metadata, job.book;
      var error := job.SubmitPage(raster);
      ghost var sent := device.usb.trace;
      if !error.category.NoError? {
        ProvenStays(m, b, job.metadata, job.book, start, sent);
        return false;
      }
      ghost var seen;
      ok, seen := WaitForOutput(job, before);
      if ok {
        PageHasEvidence(start, sent, seen, device.usb.trace);
        AttestedGrows(start, sent, device.usb.trace, b.pageEnds);
      }
    }

    /** `canceled` and `later` are what the job says of itself on entry and when it is about to complete. */
    method EndJob(job: Job, canceled: bool, later: bool) returns (completed: bool)
      requires Valid() && job.Valid() && job.device == device && Proven(job.metadata, job.book, device.usb.trace)
      modifies job
      ensures Valid() && job.Valid()
      ensures Onward(old(job.book), job.book)
      ensures old(job.metadata.state) != Completed ==> (completed <==> job.metadata.state == Completed)
      ensures job.metadata.pages == old(job.metadata.pages) && job.metadata.sent == old(job.metadata.sent)
      ensures completed <==>
                old(job.metadata.state) == Preparing && old(job.metadata.pages) > 0 && !canceled && !later
      ensures var state, pages := old(job.metadata.state), old(job.metadata.pages);
              if canceled && state !in {Completed, Canceled, Failed, FailedPartial} then job.metadata.state == Canceled
              else if !canceled && state == Preparing && pages > 0 then
                job.metadata.state == if later then Canceled else Completed
              else job.metadata == old(job.metadata)
      ensures completed ==>
                && |job.book.pageEnds| == job.metadata.pages > 0 && Attested(device.usb.trace, job.book.pageEnds)
                && (forall i :: 0 <= i < |job.book.pageEnds| ==> Evidence(device.usb.trace, job.book.pageEnds[i]))
                && device.usb.wire[job.book.base..] == job.book.emitted
    {
      completed := false;
      if canceled {
        job.Cancel();
      } else if job.metadata.state == Preparing {
        var error := job.Complete(later);
        completed := error.category.NoError?;
        if completed {
          AttestedIsEvidence(device.usb.trace, job.book.pageEnds);
        }
      }
    }

    /** The page callbacks in turn, up to the first that fails. If one does, a page is missing or the job
        has ended. */
    method PrintPages(job: Job, pages: seq<Raster>) returns (whole: bool)
      requires Valid() && job.Valid() && job.device == device && Proven(job.metadata, job.book, device.usb.trace)
      modifies Repr(), job
      ensures Valid() && job.Valid() && Proven(job.metadata, job.book, device.usb.trace)
      ensures old(device.usb.wire) <= device.usb.wire && Onward(old(job.book), job.book)
      ensures job.metadata.state == Completed ==> old(job.metadata.state) == Completed
      ensures whole ==> job.metadata.pages == old(job.metadata.pages) + |pages|
      ensures whole && pages != [] ==> job.metadata.state == Preparing
      ensures whole ==> forall i :: 0 <= i < |pages| ==> Admit(pages[i], false).Encode?
      ensures !whole ==>
                || job.metadata.pages < old(job.metadata.pages) + |pages|
                || job.metadata.state in {Canceled, FailedPartial}
    {
      whole := true;
      var next := 0;
      while whole && next < |pages|
        invariant Valid() && job.Valid() && Proven(job.metadata, job.book, device.usb.trace)
        invariant old(device.usb.wire) <= device.usb.wire && Onward(old(job.book), job.book)
        invariant job.metadata.state == Completed ==> old(job.metadata.state) == Completed
        invariant next <= |pages| && (whole ==> forall i :: 0 <= i < next ==> Admit(pages[i], false).Encode?)
        invariant whole ==> job.metadata.pages == old(job.metadata.pages) + next
        invariant whole && next > 0 ==> job.metadata.state == Preparing
        invariant !whole ==>
                  job.metadata.pages < old(job.metadata.pages) + next || job.metadata.state in {Canceled, FailedPartial}
        decreases |pages| - next
      {
        var complete: bool := *;
        whole := StartAndEndPage(job, pages[next], complete);
        next := next + 1;
      }
    }

    /** Both callbacks of one page. */
    method StartAndEndPage(job: Job, raster: Raster, complete: bool) returns (ok: bool)
      requires Valid() && job.Valid() && job.device == device && Proven(job.metadata, job.book, device.usb.trace)
      modifies Repr(), job
      ensures Valid() && job.Valid() && Proven(job.metadata, job.book, device.usb.trace)
      ensures old(device.usb.wire) <= device.usb.wire && Onward(old(job.book), job.book)
      ensures job.metadata.state == Completed ==> old(job.metadata.state) == Completed
      ensures ok ==> Admit(raster, false).Encode? && job.metadata.pages == old(job.metadata.pages) + 1
      ensures ok ==> job.metadata.state == Preparing
      ensures !ok ==> job.metadata.pages == old(job.metadata.pages) || job.metadata.state in {Canceled, FailedPartial}
    {
      ok := WaitForReady(job);
      ProvenStays(old(job.metadata), old(job.book), job.metadata, job.book, old(device.usb.trace), device.usb.trace);
      if ok {
        ok := EndPage(job, raster, complete);
      }
    }

    /** A whole job: it completes only with a completion report for every page that was sent, and with
        exactly the encoder's bytes on the wire, once, in order. A completed job covers all of `pages`
        exactly if every page callback succeeded. `canceled` and `later` are what the job says of itself
        when it ends: either of them keeps it from being completed. */
    method PrintJob(pages: seq<Raster>, canceled: bool, later: bool)
      returns (job: Job, started: bool, completed: bool, whole: bool)
      requires Valid()
      modifies Repr()
      ensures Valid() && job.Valid() && fresh(job)
      ensures completed <==> job.metadata.state == Completed
      ensures completed ==>
                && |job.book.pageEnds| == job.metadata.pages > 0 && Attested(device.usb.trace, job.book.pageEnds)
                && (forall i :: 0 <= i < |job.book.pageEnds| ==> Evidence(device.usb.trace, job.book.pageEnds[i]))
                && device.usb.wire == old(device.usb.wire) + job.book.emitted
      ensures completed ==> (whole <==> job.metadata.pages == |pages|)
      ensures canceled || later ==> !completed
      ensures started && canceled ==> job.metadata.state in {Canceled, Failed, FailedPartial}
      ensures started && whole && pages != [] ==>
                job.metadata.state == if canceled || later then Canceled else Completed
      ensures completed && whole ==> forall i :: 0 <= i < |pages| ==> Admit(pages[i], false).Encode?
    {
      completed, whole := false, false;
      job, started := StartJob();
      if started {
        whole := PrintPages(job, pages);
        completed := EndJob(job, canceled, later);
        assert device.usb.wire == device.usb.wire[..job.book.base] + device.usb.wire[job.book.base..];
      }
    }

    /** A job of two pages, of which the first has come out and the second breaks off while its rows arrive:
        the callbacks end in a completed job of one page. */
    method ShortJob(first: Raster, second: Raster) returns (job: Job, printed: bool, completed: bool)
      requires Valid()
      modifies Repr()
      ensures Valid() && job.Valid() && fresh(job)
      ensures printed ==> completed && job.metadata.state == Completed && job.metadata.pages == 1
      ensures completed ==> printed
    {
      printed, completed := false, false;
      var ok;
      job, ok := StartJob();
      if ok {
        ok := StartAndEndPage(job, first, true);
        if ok {
          ghost var m, b, trace := job.metadata, job.book, device.usb.trace;
          printed := WaitForReady(job);
          ProvenStays(m, b, job.metadata, job.book, trace, device.usb.trace);
        }
      }
      if printed {
        ok := EndPage(job, second, false);
        completed := EndJob(job, false, false);
      }
    }
  }
}
