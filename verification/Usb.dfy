/** The libusb transport. Every libusb call may answer anything; a bulk transfer says truthfully how
    much of what it was given the printer has taken. */
module Usb {
  import opened Outcomes
  import opened DeviceErrors
  import opened PjlSpec
  import opened PjlStatus

  /** An upload: what was to be uploaded, what of that was taken, and whether the transport called it done. */
  datatype Transfer = Transfer(firmware: string, taken: string, ok: bool)

  /** Done means that everything was taken, and what was taken is the beginning of it. */
  predicate Took(u: Transfer) {
    u.taken <= u.firmware && (u.ok ==> u.taken == u.firmware)
  }

  /** What happened on the bus, oldest first: `Quiet` means that no message was waiting, and `Looked` that the
      status was asked for and what it came to. `identity` is the last one read on the open handle, and
      `version` the firmware version that the sender went by. */
  datatype Event =
    | Uploaded(identity: Option<string>, upload: Transfer)
    | Handed(identity: Option<string>, version: string, bytes: string)
    | Drained(documents: nat)
    | Quiet
    | Looked(port: bv8, conditions: set<Condition>)
    | Released

  /** The documents reported complete on the present connection. */
  function Documents(trace: seq<Event>): nat {
    if trace == [] then 0
    else
      match trace[|trace| - 1]
      case Released => 0
      case Drained(n) => Documents(trace[..|trace| - 1]) + n
      case _ => Documents(trace[..|trace| - 1])
  }

  function Connections(trace: seq<Event>): nat {
    if trace == [] then 0
    else Connections(trace[..|trace| - 1]) + if trace[|trace| - 1].Released? then 1 else 0
  }

  /** A completion report was drained at or after `at`, before the connection was given up. */
  ghost predicate Evidence(trace: seq<Event>, at: nat) {
    exists j :: at <= j < |trace| && trace[j].Drained? && trace[j].documents > 0
                && forall k :: at <= k < j ==> !trace[k].Released?
  }

  /** Nothing but print data has gone over the bus since. */
  ghost predicate OnlyHanded(a: seq<Event>, b: seq<Event>) {
    a <= b && forall k :: |a| <= k < |b| ==> b[k].Handed?
  }

  lemma OnlyHandedChains(a: seq<Event>, b: seq<Event>, c: seq<Event>)
    requires OnlyHanded(a, b) && b <= c
    ensures a <= c && (OnlyHanded(b, c) ==> OnlyHanded(a, c))
  {
    forall k | |a| <= k < |b|
      ensures c[k] == b[k]
    {
    }
  }

  /** Nothing but status has come in since. */
  ghost predicate OnlyStatus(a: seq<Event>, b: seq<Event>) {
    a <= b && forall k :: |a| <= k < |b| ==> b[k].Drained? || b[k].Quiet? || b[k].Looked?
  }

  /** In the end no message was waiting any more. */
  predicate FellSilent(a: seq<Event>, b: seq<Event>) {
    |b| > |a| && b[|b| - 1].Quiet?
  }

  /** Print data has been handed over in at most so many tries since, of which all but the last took nothing. */
  ghost predicate Tried(a: seq<Event>, b: seq<Event>, tries: nat) {
    && a <= b && (forall k :: |a| + tries <= k < |b| ==> !b[k].Handed?)
    && forall k :: |a| <= k < |b| - 1 && b[k + 1].Handed? ==> b[k].Handed? && b[k].bytes == ""
  }

  /** Nothing but tries that took nothing. */
  ghost predicate InVain(a: seq<Event>, b: seq<Event>, tries: nat) {
    a <= b && |b| == |a| + tries && forall k :: |a| <= k < |b| ==> b[k].Handed? && b[k].bytes == ""
  }

  lemma OneTryMore(a: seq<Event>, b: seq<Event>, tries: nat, e: Event)
    requires InVain(a, b, tries) && e.Handed?
    ensures Tried(a, b + [e], tries + 1) && OnlyHanded(a, b + [e])
    ensures Tried(a, b + [e] + [Released], tries + 1)
    ensures e.bytes == "" ==> InVain(a, b + [e], tries + 1)
  {
    var c, d := b + [e], b + [e] + [Released];
    assert forall k :: 0 <= k < |c| ==> d[k] == c[k];
  }

  lemma {:induction false} ConnectionsGrow(a: seq<Event>, b: seq<Event>)
    requires a <= b
    ensures Connections(a) <= Connections(b)
    ensures Connections(a) == Connections(b) ==> forall k :: |a| <= k < |b| ==> !b[k].Released?
    decreases |b|
  {
    if |a| < |b| {
      ConnectionsGrow(a, b[..|b| - 1]);
    } else {
      assert a == b;
    }
  }

  /** More completed documents on the same connection can only have come from a report drained since. */
  lemma {:induction false} NewDocument(a: seq<Event>, b: seq<Event>)
    requires a <= b && Connections(a) == Connections(b) && Documents(a) < Documents(b)
    ensures Evidence(b, |a|)
    decreases |b|
  {
    assert |a| == |b| ==> a == b;
    var last := |b| - 1;
    var c := b[..last];
    ConnectionsGrow(a, c);
    ConnectionsGrow(a, b);
    if b[last].Drained? && b[last].documents > 0 {
      assert |a| <= last < |b| && forall k :: |a| <= k < last ==> !b[k].Released?;
    } else {
      NewDocument(a, c);
      var j :| |a| <= j < |c| && c[j].Drained? && c[j].documents > 0
               && forall k :: |a| <= k < j ==> !c[k].Released?;
      assert b[j] == c[j];
    }
  }

  lemma OneReleaseMore(trace: seq<Event>)
    ensures Connections(trace + [Released]) == Connections(trace) + 1 && Documents(trace + [Released]) == 0
  {
    assert (trace + [Released])[..|trace|] == trace;
  }

  lemma NothingNew(trace: seq<Event>, e: Event)
    requires !e.Drained? && !e.Released?
    ensures Connections(trace + [e]) == Connections(trace) && Documents(trace + [e]) == Documents(trace)
  {
    assert (trace + [e])[..|trace|] == trace;
  }

  datatype Output = Output(supported: bool, code: nat, online: bool, generation: nat, completed: nat)

  /** The IEEE 1284 port status: paper empty, selected, and no error. */
  function PortConditions(status: bv8): set<Condition> {
    (if status & 0x20 != 0 then {MediaEmpty} else {})
    + (if status & 0x10 == 0 then {NotSelected} else {})
    + (if status & 0x08 == 0 then {Fault} else {})
  }

  lemma NextBytes(bytes: string, total: nat, chunk: nat, taken: nat)
    requires total + chunk <= |bytes| && taken <= chunk
    ensures bytes[..total] + bytes[total..total + chunk][..taken] == bytes[..total + taken]
  {
    assert bytes[total..total + chunk][..taken] == bytes[total..total + taken];
  }

  /** The three bits of the port status that count: 5, 4 and 3. */
  lemma PortBits(status: bv8)
    ensures MediaEmpty in PortConditions(status) <==> (status >> 5) & 1 == 1
    ensures NotSelected in PortConditions(status) <==> (status >> 4) & 1 == 0
    ensures Fault in PortConditions(status) <==> (status >> 3) & 1 == 0
    ensures PortConditions(status) <= {MediaEmpty, NotSelected, Fault}
  {
  }

  /** Selected, without error and with paper; and the same without paper. */
  lemma PortReady()
    ensures PortConditions(0x18) == {} && PortConditions(0x38) == {MediaEmpty}
    ensures PortConditions(0x08) == {NotSelected} && PortConditions(0x10) == {Fault}
  {
  }

  class Transport {
    const pjl: Status
    var handle: bool
    var claimed: bool
    var bulkIn: bool
    var generation: nat
    ghost var identity: Option<string>
    ghost var trace: seq<Event>
    /** Every print byte the printer has taken. */
    ghost var wire: string
    /** Every firmware upload, as it ended. */
    ghost var uploads: seq<Transfer>
    /** Every byte that bulk transfers have handed over, of firmware or print data. */
    ghost var out: string
    ghost var opens: nat
    ghost var releases: nat

    ghost function Repr(): set<object> {
      {this, pjl, pjl.frame}
    }

    ghost predicate Valid()
      reads Repr()
    {
      && pjl.Valid()
      && generation == Connections(trace) && pjl.completed == Documents(trace)
      && (identity.Some? ==> handle)
    }

    constructor ()
      ensures Valid() && fresh(Repr()) && !handle
      ensures trace == [] && wire == "" && uploads == [] && opens == releases == 0
    {
      pjl := new Status();
      handle, claimed, bulkIn, generation, identity := false, false, false, 0, None;
      trace, wire, uploads, out, opens, releases := [], "", [], "", 0, 0;
    }

    /** Closing the connection forgets its messages: completions never carry over. */
    method Release()
      requires Valid()
      modifies Repr()
      ensures Valid() && !handle && identity.None? && generation == old(generation) + 1
      ensures trace == old(trace) + [Released] && releases == old(releases) + 1
      ensures wire == old(wire) && uploads == old(uploads) && opens == old(opens)
    {
      pjl.Reset();
      claimed, bulkIn, generation, handle := false, false, generation + 1, false;
      identity, releases := None, releases + 1;
      OneReleaseMore(trace);
      trace := trace + [Released];
    }

    method Discover() returns (category: Category, reference: bool)
    {
      category, reference := *, *;
    }

    method Open() returns (category: Category)
      requires Valid() && !handle
      modifies this`handle, this`opens, this`identity
      ensures Valid() && handle == category.NoError? && identity.None?
      ensures opens == old(opens) + if category.NoError? then 1 else 0
    {
      category := *;
      identity := None;
      if category.NoError? {
        handle, opens := true, opens + 1;
      }
    }

    method Claim() returns (category: Category)
      requires Valid() && handle
      modifies this`claimed, this`bulkIn
      ensures Valid()
    {
      category, claimed, bulkIn := *, *, *;
    }

    /** A buffer that starts with a C string, and the length that was reported for it. */
    method ReadIdentity() returns (category: Category, text: string, proper: bool)
      requires Valid() && handle
      modifies this`identity
      ensures Valid()
      ensures identity == if category.NoError? && proper then Some(text) else None
    {
      category, text, proper := *, *, *;
      identity := if category.NoError? && proper then Some(text) else None;
    }

    /** One libusb call, which hands over as much as it says. */
    method BulkTransfer(bytes: string) returns (answer: Category, transferred: nat)
      requires Valid() && handle
      modifies this`out
      ensures transferred <= |bytes| && out == old(out) + bytes[..transferred]
    {
      answer, transferred := *, *;
      if transferred > |bytes| {
        transferred := |bytes|;
      }
      out := out + bytes[..transferred];
    }

    /** Sends until everything is taken or a transfer fails or stalls. */
    method BulkWrite(bytes: string) returns (category: Category, total: nat)
      requires Valid() && handle
      modifies this`out
      ensures total <= |bytes| && out == old(out) + bytes[..total]
      ensures category.NoError? ==> total == |bytes|
    {
      total := 0;
      while total < |bytes|
        invariant total <= |bytes| && out == old(out) + bytes[..total]
        decreases |bytes| - total
      {
        var chunk := if |bytes| - total > 0x7FFF_FFFF then 0x7FFF_FFFF else |bytes| - total;
        var answer, transferred := BulkTransfer(bytes[total..total + chunk]);
        NextBytes(bytes, total, chunk, transferred);
        total := total + transferred;
        if !answer.NoError? {
          return answer, total;
        }
        if transferred == 0 {
          return TransferIncomplete, total;
        }
      }
      assert bytes[..total] == bytes;
      return NoError, total;
    }

    method Upload(firmware: string) returns (category: Category, ghost upload: Transfer)
      requires Valid() && handle
      modifies this`trace, this`uploads, this`out
      ensures Valid() && uploads == old(uploads) + [upload] && trace == old(trace) + [Uploaded(identity, upload)]
      ensures upload.firmware == firmware && Took(upload) && out == old(out) + upload.taken
      ensures upload.ok <==> category.NoError?
    {
      var total;
      category, total := BulkWrite(firmware);
      upload := Transfer(firmware, firmware[..total], category.NoError?);
      NothingNew(trace, Uploaded(identity, upload));
      trace, uploads := trace + [Uploaded(identity, upload)], uploads + [upload];
    }

    method Write(bytes: string, ghost version: string) returns (category: Category, total: nat)
      requires Valid() && handle
      modifies this`trace, this`wire, this`out
      ensures Valid() && total <= |bytes| && wire == old(wire) + bytes[..total] && out == old(out) + bytes[..total]
      ensures trace == old(trace) + [Handed(identity, version, bytes[..total])]
      ensures category.NoError? ==> total == |bytes|
    {
      category, total := BulkWrite(bytes);
      NothingNew(trace, Handed(identity, version, bytes[..total]));
      trace, wire := trace + [Handed(identity, version, bytes[..total])], wire + bytes[..total];
    }

    /** Reads the port status, and then the queued messages: a printer that never falls silent is not taken
        for ready. */
    method ReadStatus() returns (category: Category, conditions: set<Condition>)
      requires Valid() && handle
      modifies Repr()
      ensures Valid() && handle && generation == old(generation) && claimed == old(claimed) && bulkIn == old(bulkIn)
      ensures wire == old(wire) && uploads == old(uploads) && identity == old(identity)
      ensures opens == old(opens) && releases == old(releases)
      ensures OnlyStatus(old(trace), trace) && |trace| <= |old(trace)| + 258
      ensures category.NoError? ==>
                && |trace| > |old(trace)| && trace[|trace| - 1].Looked? && trace[|trace| - 1].conditions == conditions
                && conditions == PortConditions(trace[|trace| - 1].port) +
                  if !bulkIn then {}
                  else pjl.conditions + if FellSilent(old(trace), trace[..|trace| - 1]) then {} else {NotSelected}
    {
      var status, queued;
      category, status, conditions := ReadPort();
      if category.NoError? {
        category, queued := ReadQueue();
      }
      if category.NoError? {
        conditions := conditions + queued;
        ghost var before := trace;
        NothingNew(before, Looked(status, conditions));
        trace := before + [Looked(status, conditions)];
        assert trace[..|trace| - 1] == before;
      }
    }

    /** What the messages say, if there is an endpoint for them. */
    method ReadQueue() returns (category: Category, queued: set<Condition>)
      requires Valid() && handle
      modifies pjl, pjl.frame, this`trace
      ensures Valid() && OnlyStatus(old(trace), trace) && |trace| <= |old(trace)| + 257
      ensures category.NoError? ==>
                queued ==
                if !bulkIn then {} else pjl.conditions + if FellSilent(old(trace), trace) then {} else {NotSelected}
    {
      category, queued := NoError, {};
      if bulkIn {
        var silent;
        category, silent := DrainAll();
        queued := pjl.conditions + if silent then {} else {NotSelected};
      }
    }

    /** The port status by itself. */
    method ReadPort() returns (category: Category, status: bv8, conditions: set<Condition>)
      requires Valid() && handle
      ensures conditions == PortConditions(status)
    {
      category, status := *, *;
      conditions := {};
      if status & 0x20 != 0 { conditions := conditions + {MediaEmpty}; }
      if status & 0x10 == 0 { conditions := conditions + {NotSelected}; }
      if status & 0x08 == 0 { conditions := conditions + {Fault}; }
    }

    /** Takes in what is queued, at most 256 packets of it. */
    method DrainAll() returns (category: Category, silent: bool)
      requires Valid() && handle
      modifies pjl, pjl.frame, this`trace
      ensures Valid() && OnlyStatus(old(trace), trace) && |trace| <= |old(trace)| + 257
      ensures category.NoError? ==> (silent <==> FellSilent(old(trace), trace))
    {
      var packet := 0;
      while packet < 256
        invariant packet <= 256 && Valid() && OnlyStatus(old(trace), trace) && |trace| <= |old(trace)| + packet
        invariant |trace| > |old(trace)| ==> !trace[|trace| - 1].Quiet?
      {
        var answer, quiet := Receive();
        if quiet {
          return NoError, true;
        }
        if !answer.NoError? {
          return answer, false;
        }
        packet := packet + 1;
      }
      return NoError, false;
    }

    /** One libusb call for a packet; silence is normal. */
    method Receive() returns (answer: Category, quiet: bool)
      requires Valid() && handle
      modifies pjl, pjl.frame, this`trace
      ensures Valid() && OnlyStatus(old(trace), trace) && |trace| <= |old(trace)| + if quiet then 2 else 1
      ensures !quiet && answer.NoError? ==> |trace| == |old(trace)| + 1
      ensures |trace| > |old(trace)| ==> (quiet <==> trace[|trace| - 1].Quiet?)
      ensures quiet ==> |trace| > |old(trace)|
    {
      var received: string;
      answer, received := *, *;
      if |received| > 0 {
        Drain(received);
      }
      quiet := answer.Timeout? || (answer.NoError? && |received| == 0);
      if quiet {
        NothingNew(trace, Quiet);
        trace := trace + [Quiet];
      }
    }

    method Drain(received: string)
      requires Valid()
      modifies pjl, pjl.frame, this`trace
      ensures Valid()
      ensures pjl.Abstract() == After(old(pjl.Abstract()), received)
      ensures pjl.completed >= old(pjl.completed)
      ensures trace == old(trace) + [Drained(pjl.completed - old(pjl.completed))]
    {
      CompletionsOnlyAdd(pjl.Abstract(), received);
      pjl.Feed(received);
      trace := trace + [Drained(pjl.completed - old(pjl.completed))];
      assert trace[..|trace| - 1] == old(trace);
    }

    function OutputStatus(): Output
      reads this, pjl
    {
      Output(bulkIn && claimed, pjl.code, pjl.online, generation, pjl.completed)
    }
  }

  lemma CompletionsOnlyAdd(f: Framer, bytes: string)
    ensures f.reading.completed <= After(f, bytes).reading.completed
  {
  }
}
