/** The printer behind the transport: connection, firmware bootstrap, sending and revalidation. */
module Device {
  import opened Outcomes
  import opened DeviceErrors
  import opened PjlSpec
  import opened Identity
  import opened Usb

  datatype State =
    | Absent | PreFirmware | AwaitingFirmware | TransferFailed | Unverified
    | FirmwarePresent | Ready | Unsupported

  datatype Result = Result(error: Error, bytes: nat, attempts: nat)

  const MAX_ATTEMPTS := 3

  function Failure(category: Category, retry: Retry, action: Action, bytes: nat, attempts: nat): Result {
    Result(Error(category, retry, action), bytes, attempts)
  }

  function Success(bytes: nat, attempts: nat): Result {
    Result(NONE, bytes, attempts)
  }

  function FromConditions(conditions: set<Condition>): Error {
    if CoverOpen in conditions then Error(CoverIsOpen, SafeAutomatic, CloseCover)
    else if ManualFeed in conditions then Error(ManualFeedRequired, SafeAutomatic, LoadManualFeed)
    else if MediaEmpty in conditions then Error(MediaRequired, SafeAutomatic, LoadMedia)
    else if Fault in conditions || NotSelected in conditions then Error(DeviceFault, SafeAutomatic, ClearDeviceFault)
    else NONE
  }

  /** The error is that of the first condition in this order: cover, manual feed, paper, anything else. */
  lemma ErrorsByRank(conditions: set<Condition>)
    ensures FromConditions({}) == Error(NoError, SafeAutomatic, NoAction)
    ensures FromConditions(conditions).category.NoError? <==> conditions == {}
    ensures FromConditions(conditions + {CoverOpen}) == Error(CoverIsOpen, SafeAutomatic, CloseCover)
    ensures FromConditions(conditions - {CoverOpen} + {ManualFeed}) ==
            Error(ManualFeedRequired, SafeAutomatic, LoadManualFeed)
    ensures FromConditions(conditions - {CoverOpen, ManualFeed} + {MediaEmpty}) ==
            Error(MediaRequired, SafeAutomatic, LoadMedia)
    ensures forall c :: c in {Fault, NotSelected} ==>
              FromConditions(conditions - {CoverOpen, ManualFeed, MediaEmpty} + {c}) ==
              Error(DeviceFault, SafeAutomatic, ClearDeviceFault)
  {
    if conditions != {} {
      var c :| c in conditions;
      assert c.CoverOpen? || c.ManualFeed? || c.MediaEmpty? || c.Fault? || c.NotSelected?;
    }
  }

  /** The last identity read on the open handle is that of the reference printer without firmware. */
  predicate NeedsFirmware(identity: Option<string>) {
    identity.Some? && Reference(identity.value) && Version(identity.value).None?
  }

  predicate Runs(identity: Option<string>, version: string) {
    identity.Some? && Reference(identity.value) && Version(identity.value) == Some(version)
  }

  /** Firmware only ever goes to the reference printer without any, and print data only to one that has
      reported, on this very handle, exactly the version the sender goes by. */
  predicate ProperEvent(e: Event) {
    match e
    case Uploaded(identity, _) => NeedsFirmware(identity)
    case Handed(identity, version, _) => Runs(identity, version)
    case _ => true
  }

  ghost predicate Proper(trace: seq<Event>) {
    forall i :: 0 <= i < |trace| ==> ProperEvent(trace[i])
  }

  lemma OneMoreProper(trace: seq<Event>, e: Event)
    requires Proper(trace) && ProperEvent(e)
    ensures Proper(trace + [e]) && trace <= trace + [e]
  {
  }

  /** Uploads of one bootstrap: at most three, none after a successful one, each of the given firmware, and
      successful only if all of it was taken. */
  predicate Bounded(uploads: seq<Transfer>, firmware: Option<string>) {
    && |uploads| <= 3 && (forall i :: 0 <= i < |uploads| - 1 ==> !uploads[i].ok)
    && forall i :: 0 <= i < |uploads| ==> Some(uploads[i].firmware) == firmware && Took(uploads[i])
  }

  /** The uploads since `before`: no more than the attempts, and the last was the successful one, if any. */
  ghost predicate UploadsSince(before: seq<Transfer>, now: seq<Transfer>, firmware: string, attempts: nat, done: bool) {
    && before <= now && |now| - |before| <= attempts <= 3
    && (forall i :: |before| <= i < |now| - 1 ==> !now[i].ok)
    && (forall i :: |before| <= i < |now| ==> now[i].firmware == firmware && Took(now[i]))
    && (done <==> |now| > |before| && now[|now| - 1].ok)
  }

  lemma OneUploadMore(before: seq<Transfer>, now: seq<Transfer>, firmware: string, attempts: nat, last: Transfer)
    requires UploadsSince(before, now, firmware, attempts, false) && attempts < 3
    requires last.firmware == firmware && Took(last)
    ensures UploadsSince(before, now + [last], firmware, attempts + 1, last.ok)
  {
  }

  lemma UploadsAreBounded(before: seq<Transfer>, now: seq<Transfer>, firmware: string, attempts: nat, done: bool)
    requires UploadsSince(before, now, firmware, attempts, done)
    ensures Bounded(now[|before|..], Some(firmware))
  {
  }

  class Printer {
    const usb: Transport
    var state: State
    var isOpen: bool
    var version: string

    ghost function Repr(): set<object> {
      {this} + usb.Repr()
    }

    /** The handle is accounted for, and everything sent over it was proper. */
    ghost predicate Linked()
      reads Repr()
    {
      && this !in usb.Repr() && usb.Valid()
      && isOpen == usb.handle && usb.opens == usb.releases + (if isOpen then 1 else 0)
      && Proper(usb.trace)
    }

    ghost predicate Valid()
      reads Repr()
    {
      && Linked()
      && (state in {Ready, FirmwarePresent} ==> isOpen && Runs(usb.identity, version))
      && (state in {PreFirmware, AwaitingFirmware} ==> isOpen && NeedsFirmware(usb.identity))
      && (state in {Absent, Unsupported, TransferFailed} ==> !isOpen)
    }

    constructor ()
      ensures Valid() && fresh(Repr()) && state == Absent
      ensures usb.trace == [] && usb.wire == "" && usb.uploads == []
    {
      usb := new Transport();
      state, isOpen, version := Absent, false, "";
    }

    /** Gives the handle back, exactly if there is one. The caller says which state that leaves. */
    method Release(next: State)
      requires Linked() && next in {Absent, Unsupported, TransferFailed, Unverified}
      modifies Repr()
      ensures Valid() && !isOpen && state == next && version == old(version)
      ensures usb.wire == old(usb.wire) && usb.uploads == old(usb.uploads) && usb.opens == old(usb.opens)
      ensures old(usb.trace) <= usb.trace
    {
      if isOpen {
        usb.Release();
      }
      isOpen, state := false, next;
    }

    /** Reads the identity that decides what may be done with this handle. */
    method Identify() returns (category: Category, proper: bool, reference: bool, found: Option<string>)
      requires Linked() && isOpen
      modifies usb`identity
      ensures Linked()
      ensures category.NoError? && proper ==> usb.identity.Some? && reference == Reference(usb.identity.value)
                                              && found == Version(usb.identity.value)
    {
      var text: string;
      category, text, proper := usb.ReadIdentity();
      reference, found := false, None;
      if category.NoError? && proper {
        var maker := FindField(text, "MFG");
        var model := FindField(text, "MDL");
        var firmware := FindField(text, "FWVER");
        reference := maker in {Some("Hewlett-Packard"), Some("HP")} && model == Some("HP LaserJet 1020");
        found := if firmware.Some? && 0 < |firmware.value| < VERSION_SIZE then firmware else None;
      }
    }

    method ConnectOnce(attempt: nat) returns (r: Result)
      requires Valid() && state == Absent
      modifies Repr()
      ensures Valid() && usb.wire == old(usb.wire) && usb.uploads == old(usb.uploads)
      ensures old(usb.trace) <= usb.trace
      ensures r.error.category.NoError? ==> state in {PreFirmware, FirmwarePresent}
      ensures !r.error.category.NoError? ==> state in {Absent, Unsupported}
      ensures r.bytes == 0 && r.attempts == attempt && usb.opens <= old(usb.opens) + 1
      ensures state == Unsupported ==> r.error.category.UnsupportedDevice?
    {
      var category, reference := usb.Discover();
      if !category.NoError? {
        return Failure(category, SafeAutomatic, ReconnectPrinter, 0, attempt);
      }
      if !reference {
        state := Unsupported;
        return Failure(UnsupportedDevice, Explicit, ReconnectPrinter, 0, attempt);
      }
      category := usb.Open();
      if !category.NoError? {
        return Failure(category, SafeAutomatic, ReconnectPrinter, 0, attempt);
      }
      isOpen := true;
      category := usb.Claim();
      if !category.NoError? {
        Release(Absent);
        return Failure(category, SafeAutomatic, ReconnectPrinter, 0, attempt);
      }
      var proper, exact, found;
      category, proper, exact, found := Identify();
      if !category.NoError? {
        Release(Absent);
        return Failure(category, SafeAutomatic, ReconnectPrinter, 0, attempt);
      }
      if !proper {
        Release(Absent);
        return Failure(Protocol, Explicit, ReconnectPrinter, 0, attempt);
      }
      if !exact {
        Release(Unsupported);
        return Failure(UnsupportedDevice, Explicit, ReconnectPrinter, 0, attempt);
      }
      version := if found.Some? then found.value else "";
      state := if found.Some? then FirmwarePresent else PreFirmware;
      return Success(0, attempt);
    }

    method Connect() returns (r: Result)
      requires Valid()
      modifies Repr()
      ensures Valid() && usb.wire == old(usb.wire) && usb.uploads == old(usb.uploads) && r.bytes == 0
      ensures old(usb.trace) <= usb.trace
      ensures old(state) != Absent ==> state == old(state) && r == Result(INVALID_STATE, 0, 0)
      ensures r.error.category.NoError? ==> state in {PreFirmware, FirmwarePresent}
      ensures old(state) == Absent && !r.error.category.NoError? ==> state in {Absent, Unsupported}
      ensures usb.opens <= old(usb.opens) + 3 && r.attempts <= 3
      ensures r.error.category !in {NoError, UnsupportedDevice, Protocol} ==> r.error.retry != SafeAutomatic
    {
      if state != Absent {
        return Result(INVALID_STATE, 0, 0);
      }
      r := Success(0, 0);
      var attempt := 1;
      while attempt <= MAX_ATTEMPTS
        invariant 1 <= attempt <= MAX_ATTEMPTS + 1
        invariant Valid() && state == Absent && usb.wire == old(usb.wire) && usb.uploads == old(usb.uploads)
        invariant old(usb.trace) <= usb.trace && r.bytes == 0
        invariant attempt > 1 ==> r.error.category !in {NoError, UnsupportedDevice, Protocol}
        invariant usb.opens <= old(usb.opens) + attempt - 1 && r.attempts < attempt
      {
        r := ConnectOnce(attempt);
        if r.error.category in {NoError, UnsupportedDevice, Protocol} {
          return r;
        }
        attempt := attempt + 1;
      }
      r := r.(error := r.error.(retry := Explicit));
    }

    predicate Matches(expected: Option<string>)
      reads this
    {
      expected.Some? && expected.value != "" && version == expected.value
    }

    /** Decides what the printer runs after an upload; not visible yet means ask again. */
    method VerifyUpload(expected: Option<string>, attempt: nat) returns (r: Result)
      requires Valid() && state in {PreFirmware, AwaitingFirmware}
      modifies Repr()
      ensures Valid() && usb.wire == old(usb.wire) && usb.uploads == old(usb.uploads) && r.bytes == 0
      ensures old(usb.trace) <= usb.trace
      ensures r.error.category.NoError? ==> state == Ready && expected == Some(version)
      ensures !r.error.category.NoError? ==> state !in {Ready, TransferFailed}
      ensures !r.error.category.NoError? && r.error.retry != Explicit ==> state in {Absent, PreFirmware}
      ensures match state
              case Unsupported => r.error == Error(UnsupportedDevice, Explicit, ReconnectPrinter)
              case PreFirmware => r.error == Error(FirmwareUnverified, SafeAutomatic, NoAction)
              case Unverified => r.error.retry == Explicit && r.error.action == PowerCyclePrinter
              case Absent => r.error.retry == SafeAutomatic && r.error.action == ReconnectPrinter
              case _ => r.error == NONE
    {
      var category, proper, exact, found := Identify();
      if !category.NoError? {
        Release(Absent);
        return Failure(category, SafeAutomatic, ReconnectPrinter, 0, attempt);
      }
      if !proper {
        Release(Unverified);
        return Failure(Protocol, Explicit, PowerCyclePrinter, 0, attempt);
      }
      if !exact {
        Release(Unsupported);
        return Failure(UnsupportedDevice, Explicit, ReconnectPrinter, 0, attempt);
      }
      version := if found.Some? then found.value else "";
      if found.None? {
        state := PreFirmware;
        return Failure(FirmwareUnverified, SafeAutomatic, NoAction, 0, attempt);
      }
      if !Matches(expected) {
        Release(Unverified);
        return Failure(FirmwareUnverified, Explicit, PowerCyclePrinter, 0, attempt);
      }
      state := Ready;
      return Success(0, attempt);
    }

    /** A printer that already runs firmware is ready only under exactly the expected version. */
    method AcceptLoaded(expected: Option<string>, attempt: nat) returns (r: Result)
      requires Valid() && state in {Ready, FirmwarePresent}
      modifies this`state
      ensures Valid() && r.bytes == 0
      ensures r.error.category.NoError? <==> Matches(expected)
      ensures state == if Matches(expected) then Ready else Unverified
    {
      if Matches(expected) {
        state := Ready;
        return Success(0, attempt);
      }
      state := Unverified;
      return Failure(FirmwareUnverified, Explicit, PowerCyclePrinter, 0, attempt);
    }

    /** One upload, on the handle that asked for it. */
    method UploadOnce(firmware: string, attempt: nat, ghost before: seq<Transfer>) returns (done: bool)
      requires Valid() && state in {PreFirmware, AwaitingFirmware}
      requires 1 <= attempt <= 3 && UploadsSince(before, usb.uploads, firmware, attempt - 1, false)
      modifies usb`trace, usb`uploads, usb`out
      ensures Valid() && usb.wire == old(usb.wire) && old(usb.trace) <= usb.trace
      ensures UploadsSince(before, usb.uploads, firmware, attempt, done)
    {
      ghost var uploads, trace := usb.uploads, usb.trace;
      ghost var upload;
      var category;
      category, upload := usb.Upload(firmware);
      OneUploadMore(before, uploads, firmware, attempt - 1, upload);
      OneMoreProper(trace, Uploaded(usb.identity, upload));
      done := category.NoError?;
    }

    /** Uploads the firmware, unless that has been done, and asks the printer what it runs. */
    method UploadAndVerify(firmware: string, expected: Option<string>, attempt: nat, done: bool,
            ghost before: seq<Transfer>)
      returns (r: Result, uploaded: bool)
      requires Valid() && state in {PreFirmware, AwaitingFirmware}
      requires 1 <= attempt <= 3 && UploadsSince(before, usb.uploads, firmware, attempt - 1, done)
      modifies Repr()
      ensures Valid() && usb.wire == old(usb.wire) && r.bytes == 0 && old(usb.trace) <= usb.trace
      ensures UploadsSince(before, usb.uploads, firmware, attempt, uploaded)
      ensures r.error.category.NoError? ==> state == Ready && expected == Some(version)
      ensures !r.error.category.NoError? ==> state !in {Ready, TransferFailed}
      ensures !r.error.category.NoError? && r.error.retry != Explicit ==> state in {Absent, PreFirmware}
    {
      uploaded := done;
      if !uploaded {
        uploaded := UploadOnce(firmware, attempt, before);
        if !uploaded {
          Release(Absent);
          return Failure(FirmwareTransferFailed, SafeAutomatic, ReconnectPrinter, 0, attempt), uploaded;
        }
      }
      r := VerifyUpload(expected, attempt);
    }

    /** At most three attempts; a transfer that went through is never repeated, not even after the
        printer has come back as a new device. */
    method Bootstrap(firmware: Option<string>, expected: Option<string>) returns (r: Result)
      requires Valid()
      modifies Repr()
      ensures Valid() && usb.wire == old(usb.wire) && r.bytes == 0 && old(usb.trace) <= usb.trace
      ensures old(usb.uploads) <= usb.uploads && Bounded(usb.uploads[|old(usb.uploads)|..], firmware)
      ensures r.error.category.NoError? ==> state == Ready && expected == Some(version)
      ensures !r.error.category.NoError? ==> state != Ready
      ensures state == TransferFailed && old(state) != TransferFailed ==>
                && r.error == Error(FirmwareTransferFailed, Explicit, ReconnectAndRetryFirmware)
                && forall i :: |old(usb.uploads)| <= i < |usb.uploads| ==> !usb.uploads[i].ok
      ensures firmware in {None, Some("")} || expected in {None, Some("")} ==> usb.uploads == old(usb.uploads)
      ensures old(state) !in {PreFirmware, AwaitingFirmware} ==> usb.uploads == old(usb.uploads)
      ensures old(state) in {Ready, FirmwarePresent} ==>
                state == if expected == Some(old(version)) && old(version) != "" then Ready else Unverified
      ensures r.error.category.FirmwareMissing? && old(state) in {PreFirmware, AwaitingFirmware} && firmware.None? ==>
                state == AwaitingFirmware
    {
      if state in {Ready, FirmwarePresent} {
        r := AcceptLoaded(expected, 0);
        return;
      }
      if state !in {PreFirmware, AwaitingFirmware} {
        return Result(INVALID_STATE, 0, 0);
      }
      if firmware.None? || firmware.value == "" {
        state := AwaitingFirmware;
        return Failure(FirmwareMissing, Never, ImportFirmware, 0, 0);
      }
      if expected.None? || expected.value == "" {
        state := Unverified;
        return Failure(FirmwareUnverified, Explicit, PowerCyclePrinter, 0, 0);
      }
      r := Attempts(firmware.value, expected);
    }

    /** One attempt, which begins by looking for the printer if it has gone away. */
    method Attempt(firmware: string, expected: Option<string>, attempt: nat, done: bool, ghost before: seq<Transfer>)
      returns (r: Result, uploaded: bool, finished: bool)
      requires Valid() && state in {Absent, PreFirmware, AwaitingFirmware}
      requires 1 <= attempt <= 3 && UploadsSince(before, usb.uploads, firmware, attempt - 1, done)
      modifies Repr()
      ensures Valid() && usb.wire == old(usb.wire) && r.bytes == 0 && old(usb.trace) <= usb.trace
      ensures UploadsSince(before, usb.uploads, firmware, attempt, uploaded)
      ensures finished && r.error.category.NoError? ==> state == Ready && expected == Some(version)
      ensures finished && !r.error.category.NoError? ==> state !in {Ready, TransferFailed}
      ensures finished ==> state != TransferFailed
      ensures !finished ==> state in {Absent, PreFirmware, AwaitingFirmware}
    {
      uploaded, finished, r := done, false, Success(0, 0);
      if state == Absent {
        r := ConnectOnce(attempt);
        finished := r.error.category in {UnsupportedDevice, Protocol};
        if state == FirmwarePresent {
          r := AcceptLoaded(expected, attempt);
          finished := true;
        }
      }
      if !finished && state != Absent {
        r, uploaded := UploadAndVerify(firmware, expected, attempt, done, before);
        finished := r.error.category.NoError? || r.error.retry.Explicit?;
      }
    }

    method Attempts(firmware: string, expected: Option<string>) returns (r: Result)
      requires Valid() && state in {PreFirmware, AwaitingFirmware}
      modifies Repr()
      ensures Valid() && usb.wire == old(usb.wire) && r.bytes == 0 && old(usb.trace) <= usb.trace
      ensures old(usb.uploads) <= usb.uploads && Bounded(usb.uploads[|old(usb.uploads)|..], Some(firmware))
      ensures r.error.category.NoError? ==> state == Ready && expected == Some(version)
      ensures !r.error.category.NoError? ==> state != Ready
      ensures state == TransferFailed ==>
                && r.error == Error(FirmwareTransferFailed, Explicit, ReconnectAndRetryFirmware)
                && forall i :: |old(usb.uploads)| <= i < |usb.uploads| ==> !usb.uploads[i].ok
    {
      var uploaded, finished := false, false;
      var attempt := 1;
      r := Success(0, 0);
      while attempt <= MAX_ATTEMPTS && !finished
        invariant 1 <= attempt <= MAX_ATTEMPTS + 1
        invariant Valid() && usb.wire == old(usb.wire) && old(usb.trace) <= usb.trace && r.bytes == 0
        invariant UploadsSince(old(usb.uploads), usb.uploads, firmware, attempt - 1, uploaded)
        invariant finished && r.error.category.NoError? ==> state == Ready && expected == Some(version)
        invariant finished && !r.error.category.NoError? ==> state != Ready
        invariant state != TransferFailed
        invariant !finished ==> state in {Absent, PreFirmware, AwaitingFirmware}
        decreases MAX_ATTEMPTS + 1 - attempt
      {
        r, uploaded, finished := Attempt(firmware, expected, attempt, uploaded, old(usb.uploads));
        attempt := attempt + 1;
      }
      UploadsAreBounded(old(usb.uploads), usb.uploads, firmware, attempt - 1, uploaded);
      if !finished {
        Release(if uploaded then Unverified else TransferFailed);
        r := if uploaded then Failure(FirmwareUnverified, Explicit, PowerCyclePrinter, 0, MAX_ATTEMPTS)
             else Failure(FirmwareTransferFailed, Explicit, ReconnectAndRetryFirmware, 0, MAX_ATTEMPTS);
      }
    }

    /** Breaks the connection off in the middle of a transfer. */
    method BreakOff()
      requires Linked() && isOpen
      modifies Repr()
      ensures Valid() && state == Absent && usb.trace == old(usb.trace) + [Released]
      ensures usb.wire == old(usb.wire) && usb.uploads == old(usb.uploads)
    {
      usb.Release();
      isOpen, state := false, Absent;
    }

    /** One try at handing everything over. */
    method Try(bytes: string, attempt: nat, ghost before: seq<Event>) returns (category: Category, taken: nat)
      requires Valid() && state == Ready && attempt > 0 && InVain(before, usb.trace, attempt - 1)
      modifies usb`trace, usb`wire, usb`out
      ensures Valid() && taken <= |bytes| && usb.wire == old(usb.wire) + bytes[..taken]
      ensures category.NoError? ==> taken == |bytes|
      ensures before <= old(usb.trace) <= usb.trace && OnlyHanded(before, usb.trace)
      ensures Tried(before, usb.trace, attempt) && Tried(before, usb.trace + [Released], attempt)
      ensures taken == 0 ==> InVain(before, usb.trace, attempt)
    {
      ghost var trace := usb.trace;
      category, taken := usb.Write(bytes, version);
      OneTryMore(before, trace, attempt - 1, usb.trace[|trace|]);
    }

    /** Retries only while nothing at all has been taken; whatever was taken is reported, once. */
    method Send(bytes: string, cancelled: bool, maximumAttempts: nat) returns (r: Result)
      requires Valid() && maximumAttempts > 0
      modifies Repr()
      ensures Valid() && usb.uploads == old(usb.uploads) && old(usb.trace) <= usb.trace
      ensures r.bytes <= |bytes| && usb.wire == old(usb.wire) + bytes[..r.bytes]
      ensures r.error.category.NoError? ==>
                r.bytes == |bytes| > 0 && state == Ready && usb.generation == old(usb.generation)
      ensures r.error.category.NoError? ==> OnlyHanded(old(usb.trace), usb.trace)
      ensures !r.error.category.NoError? && r.bytes > 0 ==>
                r.error.retry == Explicit && r.error.action == RetryJob && state == Absent
      // No more tries than allowed; all but the last took nothing.
      ensures Tried(old(usb.trace), usb.trace, maximumAttempts)
      ensures old(state) != Ready || cancelled || bytes == "" ==>
                !r.error.category.NoError? && r.bytes == 0 && usb.trace == old(usb.trace) && state == old(state)
    {
      if state != Ready {
        return Result(INVALID_STATE, 0, 0);
      }
      if cancelled {
        return Failure(Cancelled, Never, NoAction, 0, 0);
      }
      if bytes == "" {
        return Result(INVALID_STATE, 0, 0);
      }
      var category: Category := NoError;
      var attempt := 1;
      while attempt <= maximumAttempts
        invariant 1 <= attempt <= maximumAttempts + 1
        invariant Valid() && state == Ready && usb.wire == old(usb.wire) && usb.uploads == old(usb.uploads)
        invariant old(usb.trace) <= usb.trace && usb.generation == old(usb.generation)
        invariant InVain(old(usb.trace), usb.trace, attempt - 1)
      {
        var taken: nat;
        category, taken := Try(bytes, attempt, old(usb.trace));
        // The branch for an over-count answer is dead: no transport can claim more than it was given.
        assert taken <= |bytes|;
        if category.NoError? && taken == |bytes| {
          return Success(taken, attempt);
        }
        if taken > 0 {
          BreakOff();
          return Failure(if category.NoError? then TransferIncomplete else category, Explicit, RetryJob,
                         taken, attempt);
        }
        if category in {Disconnected, Protocol} {
          BreakOff();
          return Failure(category, SafeAutomatic, ReconnectPrinter, 0, attempt);
        }
        attempt := attempt + 1;
      }
      return Failure(if category.NoError? then TransferIncomplete else category, Explicit, RetryJob,
                     0, maximumAttempts);
    }

    method Disconnect()
      requires Valid()
      modifies Repr()
      ensures Valid() && state == Absent && version == ""
      ensures usb.wire == old(usb.wire) && usb.uploads == old(usb.uploads)
      ensures old(usb.trace) <= usb.trace
    {
      Release(Absent);
      version := "";
    }

    /** A ready printer is asked again who it is before it is trusted with another page. */
    method Revalidate(expected: Option<string>) returns (r: Result)
      requires Valid()
      modifies Repr()
      ensures Valid() && usb.wire == old(usb.wire) && usb.uploads == old(usb.uploads) && r.bytes == 0
      ensures old(usb.trace) <= usb.trace
      ensures old(state) != Ready ==> state == old(state) && r == Result(INVALID_STATE, 0, 0)
      ensures r.error.category.NoError? ==> state == Ready && expected == Some(version)
      ensures old(state) == Ready && !r.error.category.NoError? ==>
                match state
                case PreFirmware => r.error == Error(FirmwareMissing, SafeAutomatic, Action.ImportFirmware)
                case Unverified => r.error == Error(FirmwareUnverified, Explicit, PowerCyclePrinter)
                case Unsupported => r.error == Error(UnsupportedDevice, Explicit, ReconnectPrinter)
                case Absent => r.error.retry == SafeAutomatic && r.error.action == ReconnectPrinter
                case _ => false
    {
      if state != Ready || !isOpen {
        return Result(INVALID_STATE, 0, 0);
      }
      var category, proper, exact, found := Identify();
      if !category.NoError? || !proper {
        Release(Absent);
        version := "";
        return Failure(if category.NoError? then Protocol else category, SafeAutomatic, ReconnectPrinter, 0, 1);
      }
      if !exact {
        Release(Unsupported);
        version := "";
        return Failure(UnsupportedDevice, Explicit, ReconnectPrinter, 0, 1);
      }
      version := if found.Some? then found.value else "";
      if found.None? {
        state := PreFirmware;
        return Failure(FirmwareMissing, SafeAutomatic, ImportFirmware, 0, 1);
      }
      if !Matches(expected) {
        Release(Unverified);
        return Failure(FirmwareUnverified, Explicit, PowerCyclePrinter, 0, 1);
      }
      return Success(0, 1);
    }

    method GetStatus() returns (r: Result, conditions: set<Condition>)
      requires Valid()
      modifies Repr()
      ensures Valid() && usb.wire == old(usb.wire) && usb.uploads == old(usb.uploads) && r.bytes == 0
      ensures old(usb.trace) <= usb.trace
      ensures old(state) != Ready ==>
                r == Result(INVALID_STATE, 0, 0) && state == old(state) && usb.trace == old(usb.trace)
      ensures r.error.category.NoError? ==> state == Ready && usb.generation == old(usb.generation)
      ensures r.error.category.NoError? ==>
                && |usb.trace| > |old(usb.trace)| && usb.trace[|usb.trace| - 1].Looked?
                && usb.trace[|usb.trace| - 1].conditions == conditions
      ensures old(state) == Ready && !r.error.category.NoError? ==> state == Absent
    {
      if state != Ready || !isOpen {
        return Result(INVALID_STATE, 0, 0), {};
      }
      var category;
      category, conditions := usb.ReadStatus();
      if !category.NoError? {
        Disconnect();
        return Failure(category, SafeAutomatic, ReconnectPrinter, 0, 1), conditions;
      }
      return Success(0, 1), conditions;
    }
  }
}
