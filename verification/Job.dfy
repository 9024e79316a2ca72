/** A print job: encoding a page into a bounded buffer, sending it in chunks, and what is owed after. */
module Job {
  import opened DeviceErrors
  import opened PjlSpec
  import opened Outcomes
  import opened Raster
  import U = Usb
  import D = Device

  datatype State =
    | Accepted | HeldForFirmware | HeldForDevice | Preparing | Transmitting | WaitingForMedia
    | Completed | Canceled | Failed | FailedPartial

  const CHUNK := 0x1_0000
  const MAX_ENCODED := 0x400_0000

  predicate Terminal(s: State) {
    s in {Completed, Canceled, FailedPartial}
  }

  /** The steps that a job may publish. */
  predicate Legal(s: State, t: State) {
    match s
    case Accepted => t in {HeldForFirmware, HeldForDevice, Preparing, Canceled, Failed}
    case HeldForFirmware => t in {HeldForFirmware, HeldForDevice, Preparing, Canceled, Failed}
    case HeldForDevice => t in {HeldForFirmware, HeldForDevice, Preparing, Canceled, Failed}
    case Preparing => t in {Transmitting, WaitingForMedia, Completed, Canceled, Failed, FailedPartial}
    case Transmitting => t in {Preparing, Canceled, Failed, FailedPartial}
    case WaitingForMedia => t in {Preparing, Canceled, FailedPartial, Failed}
    case Failed => t == Accepted
    case _ => false
  }

  ghost predicate LegalPath(path: seq<State>) {
    |path| > 0 && path[0] == Accepted && forall i :: 0 <= i < |path| - 1 ==> Legal(path[i], path[i + 1])
  }

  /** Nothing follows an end, a failure only starts over, and only a job that is not in the middle of a page
      is completed. */
  lemma LegalPathsEnd(path: seq<State>, i: nat)
    requires LegalPath(path) && i + 1 < |path|
    ensures path[i] !in {Completed, Canceled, FailedPartial}
    ensures path[i] == Failed <==> path[i + 1] == Accepted
    ensures path[i + 1] in {Completed, Transmitting, WaitingForMedia} ==> path[i] == Preparing
    ensures path[i + 1] == Preparing ==>
              path[i] in {Accepted, HeldForFirmware, HeldForDevice, Transmitting, WaitingForMedia}
  {
    assert Legal(path[i], path[i + 1]);
  }

  /** The growing buffer that the encoder emits into. */
  class EncodedPage {
    var buffer: array<char>
    var size: nat
    const maximum: nat

    ghost predicate Valid()
      reads this
    {
      size <= buffer.Length && size <= maximum
    }

    ghost function Contents(): string
      requires Valid()
      reads this, buffer
    {
      buffer[..size]
    }

    constructor (maximum: nat)
      ensures Valid() && fresh(buffer) && Contents() == "" && this.maximum == maximum
    {
      buffer, size := new char[0], 0;
      this.maximum := maximum;
    }

    /** Doubles the capacity until it is enough, without ever exceeding twice what is allowed. */
    static method Capacity(present: nat, required: nat, maximum: nat) returns (capacity: nat)
      requires present < required <= maximum
      ensures required <= capacity && (capacity <= maximum || capacity == 4096)
    {
      capacity := if present == 0 then 4096 else present;
      while capacity < required
        invariant 0 < capacity && (capacity <= maximum || capacity == 4096)
        decreases maximum - capacity
      {
        if capacity > maximum / 2 {
          capacity := maximum;
          break;
        }
        capacity := capacity * 2;
      }
    }

    /** Takes a chunk whole or refuses it. */
    method Collect(bytes: string) returns (category: Category)
      requires Valid()
      modifies this, buffer
      ensures Valid() && (buffer == old(buffer) || fresh(buffer))
      ensures category in {NoError, EncodingFailed}
      ensures Contents() == if category.NoError? then old(Contents()) + bytes else old(Contents())
      ensures category.NoError? ==> bytes != ""
      ensures bytes == "" || |bytes| > maximum - old(size) ==> !category.NoError?
    {
      if bytes == "" || |bytes| > maximum - size {
        return EncodingFailed;
      }
      var required := size + |bytes|;
      ghost var before := Contents();
      if required > buffer.Length {
        var capacity := Capacity(buffer.Length, required, maximum);
        var granted: bool := *;
        if !granted {
          return EncodingFailed;
        }
        var grown := new char[capacity](_ => '\0');
        forall i | 0 <= i < size {
          grown[i] := buffer[i];
        }
        buffer := grown;
        assert buffer[..size] == before;
      }
      forall i | 0 <= i < |bytes| {
        buffer[size + i] := bytes[i];
      }
      assert buffer[..required] == before + bytes;
      size := required;
      return NoError;
    }
  }

  datatype Encoded = Encoded(error: Error, count: nat)

  /** Runs the adapter, which may emit any chunks, ignore what the sink answers, and report any count.
      `given` is everything it emitted and `taken` what the sink kept of that. */
  method EncodeRaster(raster: Raster, page: EncodedPage, cancelled: bool)
    returns (r: Encoded, ghost given: string)
    requires page.Valid() && page.Contents() == ""
    modifies page, page.buffer
    ensures page.Valid() && (page.buffer == old(page.buffer) || fresh(page.buffer))
    ensures r.error.category.NoError? ==> Admit(raster, cancelled).Encode?
    ensures !Admit(raster, cancelled).Encode? ==> given == page.Contents() == "" && r.error.retry.Never?
    ensures |page.Contents()| <= |given| && (|given| == |page.Contents()| ==> given == page.Contents())
  {
    given := "";
    var verdict := Admit(raster, cancelled);
    if verdict.Stopped? {
      return Encoded(Error(Cancelled, Never, NoAction), 0), given;
    }
    if !verdict.Encode? {
      return Encoded(Error(RasterInvalid, Never, CorrectRaster), 0), given;
    }
    var chunks: seq<string> := *;
    for i := 0 to |chunks|
      invariant page.Valid() && (page.buffer == old(page.buffer) || fresh(page.buffer))
      invariant |page.Contents()| <= |given| && (|given| == |page.Contents()| ==> given == page.Contents())
    {
      given := given + chunks[i];
      var ignored := page.Collect(chunks[i]);
    }
    var category: Category, count: nat := *, *;
    if category.Cancelled? {
      return Encoded(Error(category, Never, NoAction), count), given;
    }
    if !category.NoError? {
      return Encoded(Error(category, if count == 0 then SafeAutomatic else Explicit, RetryJob), count), given;
    }
    return Encoded(NONE, count), given;
  }

  datatype Metadata = Metadata(state: State, pages: nat, sent: nat, error: Error)

  /** What a run is judged by. `given` is everything the encoder ever emitted, `emitted` what the page
      buffers kept of it, and `truthful` says that it has reported its own counts correctly so far. */
  datatype Book = Book(base: nat, given: string, emitted: string, truthful: bool,
          published: seq<State>, pageEnds: seq<nat>)

  /** The wire carries a prefix of what was emitted, all of it between pages, and `sent` says how much. */
  ghost predicate Conserved(m: Metadata, b: Book, wire: string) {
    && b.base <= |wire| && m.sent == |wire| - b.base
    && wire[b.base..] <= b.emitted && (b.truthful ==> wire[b.base..] <= b.given)
    && (m.state in {Preparing, WaitingForMedia, Completed} ==>
      wire[b.base..] == b.emitted && (b.truthful ==> b.given == b.emitted))
    && (m.state in {Accepted, HeldForFirmware, HeldForDevice} ==> b.emitted == b.given == "" && m.pages == 0)
  }

  /** What the state, the counters and the error promise each other. */
  ghost predicate Honest(m: Metadata, b: Book) {
    && (m.state in {Accepted, HeldForFirmware, HeldForDevice, Failed} ==> m.sent == 0)
    && (m.state.FailedPartial? ==> m.sent > 0)
    && (m.state in {Failed, FailedPartial, Canceled} && m.sent > 0 ==>
      m.error.retry == Explicit && m.error.action == RetryJob)
    && (m.state in {Failed, FailedPartial, Canceled} ==> (m.state.Canceled? <==> m.error.category.Cancelled?))
    && (m.pages > 0 ==> m.sent > 0) && (m.state.Completed? ==> m.pages > 0)
    && |b.pageEnds| == m.pages
    && LegalPath(b.published) && b.published[|b.published| - 1] == m.state
  }

  /** How a job ends on an error, with so much sent. */
  function Ending(error: Error, sent: nat): State {
    if error.category.Cancelled? then Canceled else if sent > 0 then FailedPartial else Failed
  }

  lemma EndIsBooked(m: Metadata, b: Book, n: Metadata, c: Book, wire: string)
    requires Honest(m, b) && Conserved(n.(state := Transmitting), b, wire)
    requires n.pages == m.pages && n.sent >= m.sent && n.state == Ending(n.error, n.sent)
    requires n.sent > 0 ==> n.error.retry == Explicit && n.error.action == RetryJob
    requires c == b.(published := b.published + [n.state]) && LegalPath(c.published)
    ensures Conserved(n, c, wire) && Honest(n, c)
  {
  }

  /** Nothing has been sent of a page that failed to encode, so it may be tried again without asking. */
  function Refusal(error: Error): Error {
    if error.category.NoError? then Error(EncodingFailed, SafeAutomatic, RetryJob)
    else if error.retry.Explicit? && !error.category.Cancelled? then error.(retry := SafeAutomatic)
    else error
  }

  /** Nothing was booked but further states. */
  ghost predicate OnlyPublished(a: Book, b: Book) {
    b == a.(published := b.published) && a.published <= b.published
  }

  /** The same attempt goes on: whatever was published and sent stays so. */
  ghost predicate Onward(a: Book, b: Book) {
    b.base == a.base && a.published <= b.published
  }

  class Job {
    const device: D.Printer
    const maximum: nat
    var metadata: Metadata
    ghost var book: Book

    ghost function Repr(): set<object> {
      {this} + device.Repr()
    }

    ghost predicate Valid()
      reads Repr()
    {
      && this !in device.Repr() && device.Valid()
      && Conserved(metadata, book, device.usb.wire) && Honest(metadata, book)
      && forall i :: 0 <= i < |book.pageEnds| ==> book.pageEnds[i] <= |device.usb.trace|
    }

    constructor (device: D.Printer)
      requires device.Valid()
      ensures Valid() && this.device == device && metadata == Metadata(Accepted, 0, 0, NONE) && maximum == 67108864
      ensures book == Book(|device.usb.wire|, "", "", true, [Accepted], [])
    {
      this.device, maximum := device, MAX_ENCODED;
      metadata := Metadata(Accepted, 0, 0, NONE);
      book := Book(|device.usb.wire|, "", "", true, [Accepted], []);
    }

    method SetState(next: State, error: Error)
      requires LegalPath(book.published) && book.published[|book.published| - 1] == metadata.state
      requires Legal(metadata.state, next)
      modifies this
      ensures metadata == old(metadata).(state := next, error := error)
      ensures book == old(book).(published := old(book).published + [next]) && LegalPath(book.published)
    {
      metadata := metadata.(state := next, error := error);
      book := book.(published := book.published + [next]);
    }

    /** Ends the job: canceled if that was the reason, otherwise failed, partially once anything was sent. */
    method Fail(error: Error, bytes: nat)
      requires this !in device.Repr() && device.Valid() && Honest(metadata, book)
      requires forall i :: 0 <= i < |book.pageEnds| ==> book.pageEnds[i] <= |device.usb.trace|
      requires Conserved(metadata.(state := Transmitting, sent := metadata.sent + bytes), book, device.usb.wire)
      requires Legal(metadata.state, Failed) && (metadata.sent + bytes > 0 ==> Legal(metadata.state, FailedPartial))
      modifies this
      ensures Valid() && OnlyPublished(old(book), book)
      ensures metadata.sent == old(metadata.sent) + bytes && metadata.pages == old(metadata.pages)
      ensures metadata.state == Ending(error, metadata.sent)
      ensures metadata.error == if metadata.sent > 0 then Error(error.category, Explicit, RetryJob) else error
    {
      ghost var m, b := metadata, book;
      metadata := metadata.(sent := metadata.sent + bytes);
      var reported := if metadata.sent > 0 then Error(error.category, Explicit, RetryJob) else error;
      SetState(Ending(error, metadata.sent), reported);
      EndIsBooked(m, b, metadata, book, device.usb.wire);
    }

    /** What has been uploaded since was this firmware. */
    ghost predicate Uploads(before: seq<U.Transfer>, firmware: Option<string>)
      reads Repr()
    {
      before <= device.usb.uploads && D.Bounded(device.usb.uploads[|before|..], firmware)
    }

    method Prepare(firmware: Option<string>, expected: Option<string>) returns (r: Error)
      requires Valid()
      modifies Repr()
      ensures Valid() && device.usb.wire == old(device.usb.wire) && old(device.usb.trace) <= device.usb.trace
      ensures Uploads(old(device.usb.uploads), firmware)
      ensures OnlyPublished(old(book), book)
      ensures old(metadata.state) !in {Accepted, HeldForFirmware, HeldForDevice} ==>
                r == INVALID_STATE && metadata == old(metadata) && book == old(book)
                && device.usb.trace == old(device.usb.trace)
      ensures old(metadata.state) in {Accepted, HeldForFirmware, HeldForDevice} ==>
                && r == metadata.error && metadata.pages == 0
                && metadata.state in {Preparing, HeldForFirmware, HeldForDevice, Failed, Canceled}
      ensures r.category.NoError? ==>
                metadata.state == Preparing && device.state == D.Ready && expected == Some(device.version)
      ensures old(metadata.state) in {Accepted, HeldForFirmware, HeldForDevice} ==>
                && (metadata.state == HeldForDevice ==>
                      old(device.state) == D.Absent && device.state in {D.Absent, D.Unsupported})
                && (metadata.state == HeldForFirmware ==> r.category.FirmwareMissing?)
                && (r.category.FirmwareMissing? ==> metadata.state in {HeldForFirmware, HeldForDevice})
    {
      if metadata.state !in {Accepted, HeldForFirmware, HeldForDevice} {
        return INVALID_STATE;
      }
      var cancelled: bool := *;
      if cancelled {
        Fail(Error(Cancelled, Never, NoAction), 0);
      } else {
        var connected := NONE;
        if device.state == D.Absent {
          var result := device.Connect();
          connected := result.error;
        }
        if connected.category.NoError? {
          Load(firmware, expected);
        } else {
          SetState(HeldForDevice, connected);
        }
      }
      return metadata.error;
    }

    /** Bootstraps the printer for this job. */
    method Load(firmware: Option<string>, expected: Option<string>)
      requires Valid() && metadata.state in {Accepted, HeldForFirmware, HeldForDevice}
      modifies Repr()
      ensures Valid() && device.usb.wire == old(device.usb.wire) && old(device.usb.trace) <= device.usb.trace
      ensures Uploads(old(device.usb.uploads), firmware)
      ensures OnlyPublished(old(book), book)
      ensures metadata.pages == 0 && metadata.state in {Preparing, HeldForFirmware, Failed, Canceled}
      ensures metadata.error.category.NoError? <==> metadata.state == Preparing
      ensures metadata.state == Preparing ==> device.state == D.Ready && expected == Some(device.version)
      ensures metadata.state == HeldForFirmware <==> metadata.error.category.FirmwareMissing?
    {
      var result := device.Bootstrap(firmware, expected);
      if result.error.category.NoError? {
        SetState(Preparing, NONE);
      } else if result.error.category.FirmwareMissing? {
        SetState(HeldForFirmware, result.error);
      } else {
        Fail(result.error, result.bytes);
      }
    }

    /** `rest` is exactly what of the emitted bytes is still to be sent. */
    ghost predicate InFlight(rest: string)
      reads Repr()
    {
      && Valid() && metadata.state == Transmitting
      && device.usb.wire[book.base..] + rest == book.emitted && (book.truthful ==> book.given == book.emitted)
    }

    /** Books what one send achieved, and ends the job if it failed. */
    method Account(error: Error, taken: nat, ghost before: string, ghost rest: string)
      requires this !in device.Repr() && device.Valid() && Honest(metadata, book) && metadata.state == Transmitting
      requires forall i :: 0 <= i < |book.pageEnds| ==> book.pageEnds[i] <= |device.usb.trace|
      requires Conserved(metadata, book, before) && before[book.base..] + rest == book.emitted
      requires (book.truthful ==> book.given == book.emitted) && taken <= |rest|
      requires device.usb.wire == before + rest[..taken]
      modifies this
      ensures Valid() && metadata.pages == old(metadata.pages) && OnlyPublished(old(book), book)
      ensures error.category.NoError? ==> InFlight(rest[taken..])
      ensures !error.category.NoError? ==>
                metadata.state in {Canceled, Failed, FailedPartial} && !metadata.error.category.NoError?
    {
      Advance(before, book.base, rest, book.emitted, taken);
      if error.category.NoError? {
        metadata := metadata.(sent := metadata.sent + taken);
      } else {
        Fail(error, taken);
      }
    }

    /** The first byte of a job may be tried three times; once anything was sent, each chunk gets one try. */
    method SendChunk(rest: string) returns (ok: bool, taken: nat)
      requires InFlight(rest) && rest != ""
      modifies Repr()
      ensures Valid() && taken <= |rest| && taken <= 65536 && device.usb.wire == old(device.usb.wire) + rest[..taken]
      ensures old(device.usb.trace) <= device.usb.trace && device.usb.uploads == old(device.usb.uploads)
      ensures U.Tried(old(device.usb.trace), device.usb.trace, if old(metadata.sent) == 0 then 3 else 1)
      ensures metadata.pages == old(metadata.pages) && OnlyPublished(old(book), book)
      ensures ok ==> taken > 0 && InFlight(rest[taken..])
      ensures ok ==> U.OnlyHanded(old(device.usb.trace), device.usb.trace)
      ensures !ok ==> metadata.state in {Canceled, Failed, FailedPartial} && !metadata.error.category.NoError?
    {
      var cancelled: bool := *;
      if cancelled {
        Fail(Error(Cancelled, Never, NoAction), 0);
        return false, 0;
      }
      var chunk := if |rest| > CHUNK then CHUNK else |rest|;
      var result := device.Send(rest[..chunk], false, if metadata.sent == 0 then D.MAX_ATTEMPTS else 1);
      assert rest[..chunk][..result.bytes] == rest[..result.bytes];
      Account(result.error, result.bytes, old(device.usb.wire), rest);
      return result.error.category.NoError?, result.bytes;
    }

    /** One chunk, from an offset on. */
    method SendPart(page: string, offset: nat, ghost wire: string) returns (ok: bool, next: nat)
      requires offset < |page| && InFlight(page[offset..]) && device.usb.wire == wire + page[..offset]
      modifies Repr()
      ensures Valid() && old(device.usb.trace) <= device.usb.trace && wire <= device.usb.wire <= wire + page
      ensures device.usb.uploads == old(device.usb.uploads)
      ensures metadata.pages == old(metadata.pages) && OnlyPublished(old(book), book)
      ensures ok ==>
                && offset < next <= |page| && InFlight(page[next..]) && device.usb.wire == wire + page[..next]
                && U.OnlyHanded(old(device.usb.trace), device.usb.trace)
      ensures !ok ==> metadata.state in {Canceled, Failed, FailedPartial} && !metadata.error.category.NoError?
    {
      var taken;
      ok, taken := SendChunk(page[offset..]);
      Reslice(wire, page, offset, taken);
      next := offset + taken;
    }

    /** Sends a page from the buffer, chunk by chunk. */
    method Transmit(page: string) returns (ok: bool)
      requires InFlight(page) && page != ""
      modifies Repr()
      ensures Valid() && old(device.usb.trace) <= device.usb.trace && device.usb.uploads == old(device.usb.uploads)
      ensures old(device.usb.wire) <= device.usb.wire <= old(device.usb.wire) + page
      ensures metadata.pages == old(metadata.pages) && OnlyPublished(old(book), book)
      ensures ok ==> InFlight("") && device.usb.wire == old(device.usb.wire) + page
      ensures ok ==> U.OnlyHanded(old(device.usb.trace), device.usb.trace)
      ensures !ok ==> metadata.state in {Canceled, Failed, FailedPartial} && !metadata.error.category.NoError?
    {
      var offset := 0;
      ok := true;
      while offset < |page|
        invariant offset <= |page| && InFlight(page[offset..]) && ok
        invariant device.usb.wire == old(device.usb.wire) + page[..offset]
        invariant metadata.pages == old(metadata.pages) && OnlyPublished(old(book), book)
        invariant U.OnlyHanded(old(device.usb.trace), device.usb.trace)
        invariant device.usb.uploads == old(device.usb.uploads)
        decreases |page| - offset
      {
        ghost var before := device.usb.trace;
        ok, offset := SendPart(page, offset, old(device.usb.wire));
        U.OnlyHandedChains(old(device.usb.trace), before, device.usb.trace);
        if !ok {
          return;
        }
      }
    }

    /** Refuses the encoded page unless the encoder's count agrees with what arrived. */
    method Judge(encoded: Encoded, page: string, ghost given: string) returns (ok: bool)
      requires Valid() && metadata.state == Preparing
      requires |page| <= |given| && (|page| == |given| ==> page == given)
      modifies this
      ensures ok ==> page != "" && InFlight(page) && encoded.error.category.NoError?
      ensures book.emitted == old(book.emitted) + page && book.given == old(book.given) + given
      ensures book.truthful == (old(book.truthful) && (encoded.error.category.NoError? ==> encoded.count == |given|))
      ensures !ok ==>
                Valid() && metadata.state in {Canceled, Failed, FailedPartial} && !metadata.error.category.NoError?
      ensures !ok && metadata.state == Failed ==> metadata.error.retry != Explicit
      ensures metadata.sent == old(metadata.sent)
      ensures metadata.pages == old(metadata.pages) && book.pageEnds == old(book.pageEnds) && Onward(old(book), book)
    {
      ghost var next := book.(
        given := book.given + given, emitted := book.emitted + page,
        truthful := book.truthful && (encoded.error.category.NoError? ==> encoded.count == |given|));
      PageIsBooked(metadata, book, next, device.usb.wire, page, given);
      book := next;
      ok := encoded.error.category.NoError? && page != "" && encoded.count == |page|;
      if ok {
        SetState(Transmitting, NONE);
      } else {
        Fail(Refusal(encoded.error), 0);
      }
    }

    /** Encodes a page into memory. */
    method EncodePage(raster: Raster) returns (ok: bool, page: string)
      requires Valid() && metadata.state == Preparing
      modifies this
      ensures ok ==> page != "" && InFlight(page) && Admit(raster, false).Encode?
      ensures ok ==> book.emitted == old(book.emitted) + page
      ensures !ok ==>
                Valid() && metadata.state in {Canceled, Failed, FailedPartial} && !metadata.error.category.NoError?
      ensures metadata.pages == old(metadata.pages) && book.pageEnds == old(book.pageEnds) && Onward(old(book), book)
    {
      var buffer := new EncodedPage(maximum);
      var cancelled: bool := *;
      var encoded: Encoded;
      ghost var given: string;
      encoded, given := EncodeRaster(raster, buffer, cancelled);
      page := buffer.buffer[..buffer.size];
      ok := Judge(encoded, page, given);
    }

    /** The page is through: it counts, and the job waits for the next one. */
    method FinishPage()
      requires InFlight("") && metadata.sent > 0
      modifies this
      ensures Valid() && metadata.state == Preparing && metadata.error == NONE
      ensures metadata.pages == old(metadata.pages) + 1
      ensures book == old(book).(published := old(book.published) + [Preparing],
              pageEnds := old(book.pageEnds) + [|device.usb.trace|])
    {
      metadata := metadata.(pages := metadata.pages + 1);
      book := book.(pageEnds := book.pageEnds + [|device.usb.trace|]);
      SetState(Preparing, NONE);
    }

    /** Encodes, sends and counts one page. */
    method PrintPage(raster: Raster)
      requires Valid() && metadata.state == Preparing
      modifies Repr()
      ensures Valid() && old(device.usb.trace) <= device.usb.trace && old(device.usb.wire) <= device.usb.wire
      ensures device.usb.uploads == old(device.usb.uploads) && Onward(old(book), book)
      ensures metadata.error.category.NoError? ==>
                && metadata.state == Preparing && Admit(raster, false).Encode?
                && metadata.pages == old(metadata.pages) + 1
                && book.pageEnds == old(book.pageEnds) + [|device.usb.trace|]
                && forall k :: |old(device.usb.trace)| <= k < |device.usb.trace| ==> device.usb.trace[k].Handed?
      ensures !metadata.error.category.NoError? ==>
                && metadata.state in {Canceled, Failed, FailedPartial}
                && metadata.pages == old(metadata.pages) && book.pageEnds == old(book.pageEnds)
    {
      var ok, page := EncodePage(raster);
      if ok {
        ok := Transmit(page);
        if ok {
          FinishPage();
        }
      }
    }

    method SubmitPage(raster: Raster) returns (r: Error)
      requires Valid()
      modifies Repr()
      ensures Valid() && old(device.usb.trace) <= device.usb.trace && old(device.usb.wire) <= device.usb.wire
      ensures device.usb.uploads == old(device.usb.uploads) && Onward(old(book), book)
      ensures if old(metadata.state) != Preparing then
                r == INVALID_STATE && metadata == old(metadata) && book == old(book)
                && device.usb.trace == old(device.usb.trace)
                && device.usb.wire == old(device.usb.wire)
              else r == metadata.error
      ensures r.category.NoError? ==>
                && old(metadata.state) == metadata.state == Preparing && Admit(raster, false).Encode?
                && metadata.pages == old(metadata.pages) + 1
                && book.pageEnds == old(book.pageEnds) + [|device.usb.trace|]
                && forall k :: |old(device.usb.trace)| <= k < |device.usb.trace| ==> device.usb.trace[k].Handed?
      ensures old(metadata.state) == Preparing && !r.category.NoError? ==>
                && metadata.state in {Canceled, Failed, FailedPartial}
                && metadata.pages == old(metadata.pages) && book.pageEnds == old(book.pageEnds)
    {
      if metadata.state != Preparing {
        return INVALID_STATE;
      }
      var cancelled: bool := *;
      if cancelled {
        Fail(Error(Cancelled, Never, NoAction), 0);
      } else {
        PrintPage(raster);
      }
      return metadata.error;
    }

    method Complete(cancelled: bool) returns (r: Error)
      requires Valid()
      modifies this
      ensures Valid() && metadata.sent == old(metadata.sent) && metadata.pages == old(metadata.pages)
      ensures OnlyPublished(old(book), book)
      ensures old(metadata.state) != Preparing || old(metadata.pages) == 0 ==>
                r == INVALID_STATE && metadata == old(metadata)
      ensures old(metadata.state) == Preparing && old(metadata.pages) > 0 ==>
                metadata.state == if cancelled then Canceled else Completed
      ensures r.category.NoError? <==> old(metadata.state) == Preparing && metadata.state == Completed
      ensures r.category.NoError? ==>
                && device.usb.wire[book.base..] == book.emitted && |book.emitted| == metadata.sent > 0
                && (book.truthful ==> book.emitted == book.given)
    {
      if metadata.state != Preparing || metadata.pages == 0 {
        return INVALID_STATE;
      }
      if cancelled {
        Cancel();
      } else {
        SetState(Completed, Error(NoError, Never, NoAction));
      }
      return metadata.error;
    }

    /** Only a job of which nothing ever reached the wire may start over, so nothing is forgotten. */
    method Retry() returns (r: Error)
      requires Valid()
      modifies this
      ensures Valid() && Onward(old(book), book)
      ensures r.category.NoError? <==> old(metadata.state) == Failed && old(metadata.error.retry) == Explicit
      ensures r.category.NoError? ==>
                metadata == Metadata(Accepted, 0, 0, NONE) && old(metadata.sent) == old(metadata.pages) == 0
      ensures !r.category.NoError? ==> r == INVALID_STATE && metadata == old(metadata) && book == old(book)
    {
      if metadata.state != Failed || metadata.sent != 0 || metadata.error.retry != Explicit {
        return INVALID_STATE;
      }
      metadata := metadata.(sent := 0, pages := 0);
      book := book.(given := "", emitted := "", truthful := true, pageEnds := []);
      SetState(Accepted, NONE);
      return metadata.error;
    }

    method WaitForMedia(conditions: set<Condition>) returns (r: Error)
      requires Valid()
      modifies this
      ensures Valid() && OnlyPublished(old(book), book)
      ensures metadata.sent == old(metadata.sent) && metadata.pages == old(metadata.pages)
      ensures if old(metadata.state) == Preparing
                  && (MediaEmpty in conditions || ManualFeed in conditions || CoverOpen in conditions)
              then metadata.state == WaitingForMedia && r == metadata.error == D.FromConditions(conditions)
              else r == INVALID_STATE && metadata == old(metadata)
    {
      if metadata.state != Preparing {
        return INVALID_STATE;
      }
      var error := D.FromConditions(conditions);
      if error.category !in {MediaRequired, ManualFeedRequired, CoverIsOpen} {
        return INVALID_STATE;
      }
      SetState(WaitingForMedia, error);
      return metadata.error;
    }

    method ResumeMedia() returns (r: Error)
      requires Valid()
      modifies this
      ensures Valid() && OnlyPublished(old(book), book)
      ensures if old(metadata.state) == WaitingForMedia
              then metadata == old(metadata).(state := Preparing, error := NONE)
              else r == INVALID_STATE && metadata == old(metadata)
    {
      if metadata.state != WaitingForMedia {
        return INVALID_STATE;
      }
      SetState(Preparing, NONE);
      return metadata.error;
    }

    /** What was sent may or may not have been printed: only the user can decide to send it again. */
    method OutputFailed()
      requires Valid()
      modifies this
      ensures Valid() && OnlyPublished(old(book), book)
      ensures metadata.sent == old(metadata.sent) && metadata.pages == old(metadata.pages)
      ensures if old(metadata.state) in {Preparing, WaitingForMedia}
              then && metadata.state == (if metadata.sent > 0 then FailedPartial else Failed)
                   && metadata.error == Error(TransferIncomplete, Explicit, RetryJob)
              else metadata == old(metadata)
    {
      if metadata.state in {Preparing, WaitingForMedia} {
        Fail(Error(TransferIncomplete, Explicit, RetryJob), 0);
      }
    }

    method Cancel()
      requires Valid()
      modifies this
      ensures Valid() && OnlyPublished(old(book), book)
      ensures metadata.sent == old(metadata.sent) && metadata.pages == old(metadata.pages)
      ensures if Terminal(old(metadata.state)) || old(metadata.state) == Failed then metadata == old(metadata)
              else metadata.state == Canceled && metadata.error.category.Cancelled?
      ensures metadata != old(metadata) ==>
                metadata.error ==
                if metadata.sent > 0 then Error(Cancelled, Explicit, RetryJob) else Error(Cancelled, Never, NoAction)
    {
      if metadata.state in {Completed, Canceled, Failed, FailedPartial} {
        return;
      }
      SetState(Canceled, if metadata.sent > 0 then Error(Cancelled, Explicit, RetryJob)
        else Error(Cancelled, Never, NoAction));
    }

    method Shutdown()
      requires Valid()
      modifies Repr()
      ensures Valid() && device.state == D.Absent && device.usb.wire == old(device.usb.wire)
      ensures device.usb.uploads == old(device.usb.uploads)
      ensures old(device.usb.trace) <= device.usb.trace
      ensures OnlyPublished(old(book), book)
      ensures metadata.sent == old(metadata.sent) && metadata.pages == old(metadata.pages)
      ensures Terminal(old(metadata.state)) || old(metadata.state) == Failed ==> metadata == old(metadata)
      ensures metadata.state in {Completed, Canceled, Failed, FailedPartial}
    {
      if metadata.state !in {Completed, Canceled, Failed} {
        Cancel();
      }
      device.Disconnect();
    }
  }

  /** The calls that the runtime makes on a job. */
  datatype Call =
    | DoPrepare(firmware: Option<string>, expected: Option<string>) | DoSubmit(raster: Raster)
    | DoComplete(cancelled: bool) | DoRetry
    | DoWait(conditions: set<Condition>) | DoResume | DoOutputFailed | DoCancel | DoShutdown

  method PerformHere(job: Job, call: Call)
    requires job.Valid() && !call.DoPrepare? && !call.DoSubmit? && !call.DoShutdown?
    modifies job
    ensures job.Valid() && Onward(old(job.book), job.book)
    ensures Terminal(old(job.metadata.state)) ==> job.metadata == old(job.metadata)
  {
    match call
    case DoComplete(cancelled) => var error := job.Complete(cancelled);
    case DoRetry => var error := job.Retry();
    case DoWait(conditions) => var error := job.WaitForMedia(conditions);
    case DoResume => var error := job.ResumeMedia();
    case DoOutputFailed => job.OutputFailed();
    case DoCancel => job.Cancel();
    case _ =>
  }

  method Perform(job: Job, call: Call)
    requires job.Valid()
    modifies job.Repr()
    ensures job.Valid() && Onward(old(job.book), job.book)
    ensures old(job.device.usb.wire) <= job.device.usb.wire
    ensures Terminal(old(job.metadata.state)) ==>
              job.metadata == old(job.metadata) && job.device.usb.wire == old(job.device.usb.wire)
  {
    match call
    case DoPrepare(firmware, expected) => var error := job.Prepare(firmware, expected);
    case DoSubmit(raster) => var error := job.SubmitPage(raster);
    case DoShutdown => job.Shutdown();
    case _ => PerformHere(job, call);
  }

  /** Whatever the runtime calls, in whatever order: the wire only grows, states are published along legal
      steps only, and a job that completed, was canceled or failed partially stays exactly as it is. */
  method Run(job: Job, calls: seq<Call>)
    requires job.Valid()
    modifies job.Repr()
    ensures job.Valid() && Onward(old(job.book), job.book)
    ensures old(job.device.usb.wire) <= job.device.usb.wire
    ensures Terminal(old(job.metadata.state)) ==>
              job.metadata == old(job.metadata) && job.device.usb.wire == old(job.device.usb.wire)
    ensures var sent := job.device.usb.wire[job.book.base..];
            && sent <= job.book.emitted && |sent| == job.metadata.sent
            && (job.metadata.state.Completed? ==> sent == job.book.emitted)
    ensures job.metadata.state.Failed? ==> job.metadata.sent == 0
    ensures job.metadata.state.FailedPartial? ==> job.metadata.sent > 0
    ensures job.metadata.state in {Failed, FailedPartial, Canceled} && job.metadata.sent > 0 ==>
              job.metadata.error.retry == Explicit && job.metadata.error.action == RetryJob
    ensures LegalPath(job.book.published)
  {
    for i := 0 to |calls|
      invariant job.Valid() && Onward(old(job.book), job.book)
      invariant old(job.device.usb.wire) <= job.device.usb.wire
      invariant Terminal(old(job.metadata.state)) ==>
                  job.metadata == old(job.metadata) && job.device.usb.wire == old(job.device.usb.wire)
    {
      Perform(job, calls[i]);
    }
  }

  lemma PageIsBooked(m: Metadata, b: Book, next: Book, wire: string, page: string, given: string)
    requires Conserved(m, b, wire) && m.state == Preparing && (next.truthful ==> b.truthful)
    requires next == b.(given := b.given + given, emitted := b.emitted + page, truthful := next.truthful)
    ensures Conserved(m.(state := Transmitting), next, wire) && wire[b.base..] + page == next.emitted
  {
  }

  lemma Reslice(wire: string, page: string, offset: nat, taken: nat)
    requires offset <= |page| && taken <= |page| - offset
    ensures wire + page[..offset] + page[offset..][..taken] == wire + page[..offset + taken]
    ensures page[offset..][taken..] == page[offset + taken..]
    ensures wire <= wire + page[..offset + taken] <= wire + page
  {
    assert page[..offset] + page[offset..][..taken] == page[..offset + taken];
    assert wire + page[..offset] + page[offset..][..taken] == wire + (page[..offset] + page[offset..][..taken]);
  }

  lemma Advance(wire: string, base: nat, rest: string, emitted: string, taken: nat)
    requires base <= |wire| && taken <= |rest| && wire[base..] + rest == emitted
    ensures (wire + rest[..taken])[base..] + rest[taken..] == emitted
    ensures (wire + rest[..taken])[base..] <= emitted
  {
    assert (wire + rest[..taken])[base..] == wire[base..] + rest[..taken];
    assert wire[base..] + rest[..taken] + rest[taken..] == wire[base..] + rest;
  }
}
