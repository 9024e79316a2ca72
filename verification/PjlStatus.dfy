/** The byte-at-a-time framer, whose frames are parsed in place and destroyed by it. */
module PjlStatus {
  import opened Outcomes
  import opened PjlSpec

  /** The framer's whole state as a value: the reading, the unfinished frame, and whether it is lost. */
  datatype Framer = Framer(reading: Reading, pending: string, discarding: bool)

  function Step(f: Framer, c: char): Framer {
    if c == FORM_FEED then Framer(if f.discarding then f.reading else Interpret(f.pending, f.reading), "", false)
    else if f.discarding then f
    else if c == '\0' || |f.pending| + 1 >= FRAME_SIZE then f.(discarding := true)
    else f.(pending := f.pending + [c])
  }

  function After(f: Framer, bytes: string): Framer {
    if bytes == "" then f else Step(After(f, bytes[..|bytes| - 1]), bytes[|bytes| - 1])
  }

  /** Cutting off the first line leaves the rest of the frame as it was, and free of terminators. */
  lemma HeaderStays(was: string, now: string, end: nat, n: nat)
    requires end < n < |was| == |now| && was[end + 1..] == now[end + 1..] && '\0' !in was[..n]
    ensures '\0' !in Bare(was[..end])
    ensures now[end + 1..n + 1] == was[end + 1..n + 1] && '\0' !in now[end + 1..n]
  {
    forall i | 0 <= i < end
      ensures was[..end][i] != '\0'
    {
      assert was[..n][i] == was[i];
    }
    forall i | end + 1 <= i < |was|
      ensures was[i] == now[i]
    {
      assert was[end + 1..][i - end - 1] == now[end + 1..][i - end - 1];
    }
    forall i | end + 1 <= i < n
      ensures now[i] != '\0'
    {
      assert was[..n][i] == was[i];
    }
  }


  class Status {
    const frame: array<char>
    var length: nat
    var conditions: set<Condition>
    var code: nat
    var online: bool
    var completed: nat
    var discarding: bool

    ghost predicate Valid()
      reads this, frame
    {
      frame.Length == FRAME_SIZE && length < FRAME_SIZE && '\0' !in frame[..length]
    }

    function Current(): Reading
      reads this
    {
      Reading(conditions, code, online, completed)
    }

    ghost function Abstract(): Framer
      requires Valid()
      reads this, frame
    {
      Framer(Current(), frame[..length], discarding)
    }

    constructor ()
      ensures Valid() && fresh(frame)
      ensures Abstract() == Framer(Reading({}, 0, false, 0), "", false)
    {
      frame := new char[FRAME_SIZE](_ => '\0');
      length, conditions, code, online, completed, discarding := 0, {}, 0, false, 0, false;
    }

    /** What a released connection leaves: nothing. */
    method Reset()
      requires Valid()
      modifies this
      ensures completed == 0
      ensures Valid() && Abstract() == Framer(Reading({}, 0, false, 0), "", false)
    {
      length, conditions, code, online, completed, discarding := 0, {}, 0, false, 0, false;
    }

    /** Finds `c` in the C string at `p`, which ends at `n`. */
    method Find(p: nat, c: char, ghost n: nat) returns (at: nat)
      requires frame.Length == FRAME_SIZE && p <= n < FRAME_SIZE
      requires frame[n] == '\0' && '\0' !in frame[p..n] && c != '\0'
      ensures at == p + Index(frame[p..n], c)
    {
      at := p;
      while frame[at] != '\0' && frame[at] != c
        invariant p <= at <= n
        invariant Index(frame[p..n], c) == at - p + Index(frame[at..n], c)
        decreases n - at
      {
        assert frame[at..n][0] == frame[at] && frame[at..n][1..] == frame[at + 1..n];
        at := at + 1;
      }
    }

    /** Ends the line at `p` with a NUL, and takes its carriage return away. */
    method CutLine(p: nat, ghost n: nat) returns (found: bool, end: nat, size: nat)
      requires frame.Length == FRAME_SIZE && p <= n < FRAME_SIZE
      requires frame[n] == '\0' && '\0' !in frame[p..n]
      modifies frame
      ensures end == p + old(Index(frame[p..n], '\n')) && (found <==> end < n)
      ensures !found ==> frame[..] == old(frame[..])
      ensures found ==> p + size <= end && frame[p + size] == '\0' && frame[p..p + size] == old(Bare(frame[p..end]))
      ensures found ==> frame[end + 1..] == old(frame[end + 1..])
    {
      ghost var text := frame[p..n];
      end := Find(p, '\n', n);
      found := frame[end] == '\n';
      if !found {
        return found, end, 0;
      }
      size := end - p;
      ghost var line := frame[p..end];
      assert line == text[..size];
      frame[end] := '\0';
      assert frame[p..end] == line;
      if size > 0 && frame[p + size - 1] == '\r' {
        size := size - 1;
        frame[p + size] := '\0';
        assert frame[p..p + size] == line[..size];
      }
    }

    /** Compares the C string at `p`, which is `size` long, with a literal. */
    method Equal(p: nat, text: string, ghost size: nat) returns (same: bool)
      requires frame.Length == FRAME_SIZE && p + size < FRAME_SIZE
      requires frame[p + size] == '\0' && '\0' !in frame[p..p + size] && '\0' !in text
      ensures same <==> frame[p..p + size] == text
    {
      var prefix := StartsWith(p, text, size);
      if !prefix {
        return false;
      }
      same := frame[p + |text|] == '\0';
      if |text| < size {
        assert frame[p..p + size][|text|] in frame[p..p + size];
      }
    }

    method StartsWith(p: nat, key: string, ghost size: nat) returns (prefix: bool)
      requires frame.Length == FRAME_SIZE && p + size < FRAME_SIZE
      requires frame[p + size] == '\0' && '\0' !in frame[p..p + size] && '\0' !in key
      ensures prefix <==> key <= frame[p..p + size]
    {
      var i := 0;
      while i < |key|
        invariant 0 <= i <= |key| && i <= size
        invariant key[..i] == frame[p..p + i]
      {
        if frame[p + i] != key[i] {
          if i < size {
            assert frame[p..p + size][i] != key[i];
          }
          return false;
        }
        assert key[i] != '\0';
        i := i + 1;
      }
      assert frame[p..p + size][..|key|] == frame[p..p + |key|];
      return true;
    }

    /** The five digits of a code line. */
    method ReadCode(p: nat) returns (valid: bool, number: nat)
      requires frame.Length == FRAME_SIZE && p + 10 <= FRAME_SIZE
      ensures valid <==> Digits(frame[p + 5..p + 10])
      ensures valid ==> number == Value(frame[p + 5..p + 10])
    {
      number := 0;
      var i := 5;
      while i < 10
        invariant 5 <= i <= 10
        invariant Digits(frame[p + 5..p + i]) && number == Value(frame[p + 5..p + i])
      {
        if frame[p + i] < '0' || frame[p + i] > '9' {
          assert frame[p + 5..p + 10][i - 5] == frame[p + i];
          return false, 0;
        }
        assert frame[p + 5..p + i + 1][..i - 5] == frame[p + 5..p + i];
        number := number * 10 + (frame[p + i] - '0') as nat;
        i := i + 1;
      }
      return true, number;
    }

    /** Splits the frame into a NUL-terminated header and the untouched rest. */
    method CutHeader(ghost n: nat) returns (found: bool, body: nat, ghost size: nat)
      requires Valid() && n == length && frame[n] == '\0'
      modifies frame
      ensures body == old(Index(frame[..n], '\n')) + 1 && (found <==> body <= n)
      ensures found ==> size < body && frame[size] == '\0' && frame[..size] == old(Bare(frame[..body - 1]))
      ensures found ==> '\0' !in frame[..size]
      ensures found ==> frame[body..n + 1] == old(frame[body..n + 1]) && '\0' !in frame[body..n]
    {
      ghost var was := frame[..];
      assert frame[0..n] == was[..n];
      var cut, end, length := CutLine(0, n);
      found, body, size := cut, end + 1, length;
      if found {
        ghost var now := frame[..];
        assert now[body..] == frame[body..] == was[body..];
        HeaderStays(was, now, end, n);
        assert frame[..size] == frame[0..size] == Bare(was[..end]);
        assert frame[body..n + 1] == now[body..n + 1] && frame[body..n] == now[body..n];
      }
    }

    /** One page per document: only this exact report establishes that the document is out. */
    method CountCompletion(body: nat, ghost n: nat)
      requires frame.Length == FRAME_SIZE && body <= n < FRAME_SIZE
      requires frame[n] == '\0' && '\0' !in frame[body..n]
      modifies this`completed
      ensures completed == old(completed) + if frame[body..n] in {END_CRLF, END_LF} then 1 else 0
    {
      var crlf := Equal(body, END_CRLF, n - body);
      var lf := Equal(body, END_LF, n - body);
      if crlf || lf {
        completed := completed + 1;
      }
    }

    method IsReport(ghost size: nat) returns (report: bool)
      requires frame.Length == FRAME_SIZE && size < FRAME_SIZE
      requires frame[size] == '\0' && '\0' !in frame[..size]
      ensures report <==> frame[..size] in {"@PJL USTATUS DEVICE", "@PJL USTATUS TIMED", "@PJL INFO STATUS"}
    {
      assert frame[0..size] == frame[..size];
      var device := Equal(0, "@PJL USTATUS DEVICE", size);
      var timed := Equal(0, "@PJL USTATUS TIMED", size);
      var info := Equal(0, "@PJL INFO STATUS", size);
      return device || timed || info;
    }

    /** What a line of a report says; `Useless` lines are skipped. */
    method ReadLine(p: nat, size: nat) returns (line: Line)
      requires frame.Length == FRAME_SIZE && p + size < FRAME_SIZE
      requires frame[p + size] == '\0' && '\0' !in frame[p..p + size]
      ensures line == Meaning(frame[p..p + size])
    {
      ghost var text := frame[p..p + size];
      var isCode := StartsWith(p, "CODE=", size);
      if isCode {
        if size != 10 {
          return Broken;
        }
        var valid, number := ReadCode(p);
        assert text[5..] == frame[p + 5..p + 10];
        return if valid then Code(number) else Broken;
      }
      var isOnline := StartsWith(p, "ONLINE=", size);
      if !isOnline {
        return Useless;
      }
      assert text[7..] == frame[p + 7..p + size] && text == "ONLINE=" + text[7..];
      var yes := Equal(p + 7, "TRUE", size - 7);
      var no := Equal(p + 7, "FALSE", size - 7);
      return if yes then Online(true) else if no then Online(false) else Broken;
    }

    method NextLine(p: nat, ghost n: nat, ghost rest: string) returns (found: bool, line: Line, next: nat)
      requires frame.Length == FRAME_SIZE && p <= n < FRAME_SIZE
      requires frame[n] == '\0' && frame[p..n] == rest && '\0' !in rest
      modifies frame
      ensures next == p + Index(rest, '\n') + 1 && (found <==> next <= n)
      ensures found ==> line == Meaning(Bare(rest[..Index(rest, '\n')]))
      ensures found ==> frame[next..n] == rest[Index(rest, '\n') + 1..] && frame[n] == '\0'
    {
      ghost var k := Index(rest, '\n');
      var cut, end, size := CutLine(p, n);
      next := end + 1;
      if !cut {
        return false, Useless, next;
      }
      assert frame[next..] == old(frame[next..]);
      assert frame[next..n] == frame[next..][..n - next] && old(frame[next..])[..n - next] == rest[k + 1..];
      assert frame[n] == frame[next..][n - next];
      assert old(frame[p..end]) == rest[..k];
      assert forall c :: c in Bare(rest[..k]) ==> c in rest;
      line := ReadLine(p, size);
      found := true;
    }

    /** Reads the lines of a report, destroying them on the way. */
    method ReadReport(body: nat, ghost n: nat) returns (report: Option<(nat, bool)>)
      requires frame.Length == FRAME_SIZE && body <= n < FRAME_SIZE
      requires frame[n] == '\0' && '\0' !in frame[body..n]
      modifies frame
      ensures report == old(Report(frame[body..n]))
    {
      ghost var text, rest := frame[body..n], frame[body..n];
      ScanFindsTheReport(text);
      var code: Option<nat>, online: Option<bool> := None, None;
      var p := body;
      while frame[p] != '\0'
        invariant body <= p <= n
        invariant frame[p..n] == rest && frame[n] == '\0' && '\0' !in rest
        invariant Report(text) == Remaining(rest, code, online)
        decreases n - p
      {
        FirstLine(rest);
        ghost var k := Index(rest, '\n');
        var found, line, next := NextLine(p, n, rest);
        if !found {
          return None;
        }
        ScanOneLine(Bare(rest[..k]), line, Lines(rest[k + 1..]), code, online);
        if line.Broken? || (line.Code? && code.Some?) || (line.Online? && online.Some?) {
          return None;
        }
        if line.Code? {
          code := Some(line.number);
        } else if line.Online? {
          online := Some(line.yes);
        }
        rest, p := rest[k + 1..], next;
      }
      return if code.Some? && online.Some? then Some((code.value, online.value)) else None;
    }

    /** Takes a report over; a request for paper is only given up for proof of recovery. */
    method Apply(newCode: nat, isOnline: bool)
      modifies this`code, this`online, this`conditions
      ensures Current() == Update(old(Current()), newCode, isOnline)
    {
      code, online := newCode, isOnline;
      if newCode == 40021 {
        conditions := {CoverOpen};
      } else if newCode >= 41000 && newCode < 42000 {
        conditions := if (newCode / 100) % 10 == 1 then {ManualFeed} else {MediaEmpty};
      } else if newCode >= 30000 {
        conditions := {Fault};
      } else if (MediaEmpty in conditions || ManualFeed in conditions) && !(newCode == 10001 && isOnline) {
        return;
      } else {
        conditions := if isOnline then {} else {NotSelected};
      }
    }

    /** Parses the frame in the buffer; only the reading outlives it. */
    method ParseFrame()
      requires Valid() && frame[length] == '\0'
      modifies frame, this`conditions, this`code, this`online, this`completed
      ensures Current() == Interpret(old(frame[..length]), old(Current()))
    {
      ghost var text := frame[..length];
      var found, body, size := CutHeader(length);
      if !found {
        return;
      }
      assert frame[body..length] == frame[body..length + 1][..length - body];
      assert text[body..] == old(frame[body..length + 1])[..length - body];
      assert frame[length] == frame[body..length + 1][length - body];
      assert text[..body - 1] == old(frame[..body - 1]);
      assert frame[0..size] == frame[..size];
      var job := Equal(0, JOB, size);
      if job {
        CountCompletion(body, length);
        return;
      }
      var isReport := IsReport(size);
      if !isReport {
        return;
      }
      var report := ReadReport(body, length);
      if report.Some? {
        Apply(report.value.0, report.value.1);
      }
    }

    /** Feeds any piece of the stream; the next piece carries on where this one stopped. */
    method Feed(bytes: string)
      requires Valid()
      modifies this, frame
      ensures Valid() && Abstract() == After(old(Abstract()), bytes)
    {
      var i := 0;
      while i < |bytes|
        invariant 0 <= i <= |bytes|
        invariant Valid() && Abstract() == After(old(Abstract()), bytes[..i])
      {
        assert bytes[..i + 1][..i] == bytes[..i];
        FeedByte(bytes[i]);
        i := i + 1;
      }
      assert bytes[..i] == bytes;
    }

    method FeedByte(c: char)
      requires Valid()
      modifies this, frame
      ensures Valid() && Abstract() == Step(old(Abstract()), c)
    {
      if c == FORM_FEED {
        if !discarding {
          ghost var text := frame[..length];
          frame[length] := '\0';
          assert frame[..length] == text;
          ParseFrame();
        }
        length, discarding := 0, false;
        assert frame[..length] == "";
      } else if !discarding {
        if c == '\0' || length + 1 >= FRAME_SIZE {
          discarding := true;
        } else {
          ghost var text := frame[..length];
          frame[length] := c;
          length := length + 1;
          assert frame[..length] == text + [c];
        }
      }
    }
  }

  /** Pieces add up: how the stream was cut makes no difference. */
  lemma {:induction false} ChunkingIsInvisible(f: Framer, a: string, b: string)
    ensures After(f, a + b) == After(After(f, a), b)
  {
    if b == "" {
      assert a + b == a;
    } else {
      ChunkingIsInvisible(f, a, b[..|b| - 1]);
      assert (a + b)[..|a + b| - 1] == a + b[..|b| - 1];
    }
  }

  /** Streaming is splitting on form feeds, dropping what is no frame, and folding over the rest;
      an unfinished segment is still whole in the buffer unless it is already beyond use. */
  lemma {:induction false} StreamingRefinesFolding(r: Reading, bytes: string)
    ensures var (done, rest) := Segments(bytes);
            var f := After(Framer(r, "", false), bytes);
            && f.reading == Fold(done, r)
            && f.discarding == ('\0' in rest || |rest| >= 1024)
            && (f.discarding || f.pending == rest)
            && |f.pending| < 1024 && f.pending <= rest
  {
    if bytes != "" {
      var n := |bytes| - 1;
      StreamingRefinesFolding(r, bytes[..n]);
      var (done, rest) := Segments(bytes[..n]);
      var c := bytes[n];
      if c == FORM_FEED {
        assert (done + [rest])[..|done|] == done;
      } else {
        assert '\0' in rest + [c] <==> '\0' in rest || c == '\0';
      }
    }
  }

  /** So whatever bytes a new connection has brought, in whatever pieces, a condition holds exactly if one
      report shows it: the last that had an effect, of the whole frames short enough for the buffer. */
  lemma ConditionsOfTheStream(bytes: string) returns (i: nat)
    ensures var r := After(Framer(Reading({}, 0, false, 0), "", false), bytes).reading;
            var reports := Reports(Segments(bytes).0);
            && (reports == [] ==> r.conditions == {})
            && (reports != [] ==>
              && Rules(reports, i) && (r.code, r.online) == reports[|reports| - 1]
              && (ManualFeed in r.conditions <==> 41100 <= reports[i].0 <= 41199)
              && (MediaEmpty in r.conditions <==> 41000 <= reports[i].0 < 42000 && reports[i].0 / 100 != 411)
              && (CoverOpen in r.conditions <==> reports[i].0 == 40021)
              && (Fault in r.conditions <==>
                   reports[i].0 >= 30000 && reports[i].0 != 40021 && reports[i].0 / 1000 != 41)
              && (NotSelected in r.conditions <==> reports[i].0 < 30000 && !reports[i].1))
  {
    StreamingRefinesFolding(Reading({}, 0, false, 0), bytes);
    i := ConditionsAreOfOneReport(Segments(bytes).0);
  }
}
