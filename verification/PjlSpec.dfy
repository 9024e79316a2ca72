/** What a stream of PJL status messages means, without buffers or cursors. */
module PjlSpec {
  import opened Outcomes

  datatype Condition = MediaEmpty | NotSelected | Fault | ManualFeed | CoverOpen

  /** The status that the frames seen so far add up to. */
  datatype Reading = Reading(conditions: set<Condition>, code: nat, online: bool, completed: nat)

  const FORM_FEED := '\U{0C}'
  const FRAME_SIZE := 1024
  const JOB := "@PJL USTATUS JOB"
  const END_CRLF := "END\r\nRESULT=OK\r\nPAGES=1\r\n"
  const END_LF := "END\nRESULT=OK\nPAGES=1\n"

  /** The position of the first `c`, or the length if there is none. */
  function Index(text: string, c: char): (n: nat)
    ensures n <= |text|
    ensures n < |text| ==> text[n] == c
    ensures c !in text[..n]
  {
    if text == "" || text[0] == c then 0
    else
      var n := Index(text[1..], c) + 1;
      assert text[..n] == [text[0]] + text[1..][..n - 1];
      n
  }

  lemma {:induction false} IndexIs(text: string, c: char, n: nat)
    requires n <= |text| && c !in text[..n] && (n < |text| ==> text[n] == c)
    ensures Index(text, c) == n
  {
    if n > 0 {
      assert text[0] in text[..n];
      assert forall i :: 0 <= i < n - 1 ==> text[1..][i] == text[..n][i + 1];
      IndexIs(text[1..], c, n - 1);
    }
  }

  /** A line without its carriage return. */
  function Bare(line: string): string {
    if line != "" && line[|line| - 1] == '\r' then line[..|line| - 1] else line
  }

  /** The terminated lines of a text. */
  function Lines(text: string): seq<string>
    decreases |text|
  {
    var n := Index(text, '\n');
    if n == |text| then [] else [Bare(text[..n])] + Lines(text[n + 1..])
  }

  predicate Terminated(text: string) {
    text == "" || text[|text| - 1] == '\n'
  }

  /** The lines that start with `key`. */
  function Select(lines: seq<string>, key: string): seq<string> {
    if lines == [] then []
    else (if key <= lines[0] then [lines[0]] else []) + Select(lines[1..], key)
  }

  predicate Digits(text: string) {
    forall i :: 0 <= i < |text| ==> '0' <= text[i] <= '9'
  }

  function Value(digits: string): nat
    requires Digits(digits)
  {
    if digits == "" then 0
    else 10 * Value(digits[..|digits| - 1]) + (digits[|digits| - 1] - '0') as nat
  }

  predicate IsCode(line: string) {
    |line| == 10 && Digits(line[5..])
  }

  predicate IsOnline(line: string) {
    line == "ONLINE=TRUE" || line == "ONLINE=FALSE"
  }

  /** The body of a device report: terminated lines with exactly one code and one online state. */
  function Report(body: string): Option<(nat, bool)> {
    var codes := Select(Lines(body), "CODE=");
    var onlines := Select(Lines(body), "ONLINE=");
    if Terminated(body) && |codes| == 1 && IsCode(codes[0]) && |onlines| == 1 && IsOnline(onlines[0])
    then Some((Value(codes[0][5..]), onlines[0] == "ONLINE=TRUE"))
    else None
  }

  predicate PaperNeeded(r: Reading) {
    MediaEmpty in r.conditions || ManualFeed in r.conditions
  }

  function Update(r: Reading, code: nat, online: bool): Reading {
    var conditions :=
      if code == 40021 then {CoverOpen}
      else if 41000 <= code < 42000 then (if code / 100 % 10 == 1 then {ManualFeed} else {MediaEmpty})
      else if code >= 30000 then {Fault}
      else if PaperNeeded(r) && !(code == 10001 && online) then r.conditions
      else if online then {} else {NotSelected};
    r.(code := code, online := online, conditions := conditions)
  }

  predicate Completes(frame: string) {
    var n := Index(frame, '\n');
    n < |frame| && Bare(frame[..n]) == JOB && frame[n + 1..] in {END_CRLF, END_LF}
  }

  /** The report that a whole frame carries. */
  function Reported(frame: string): Option<(nat, bool)> {
    var n := Index(frame, '\n');
    if n < |frame| && Bare(frame[..n]) in {"@PJL USTATUS DEVICE", "@PJL USTATUS TIMED", "@PJL INFO STATUS"}
    then Report(frame[n + 1..]) else None
  }

  function Interpret(frame: string, r: Reading): Reading {
    if Completes(frame) then r.(completed := r.completed + 1)
    else match Reported(frame)
         case Some((code, online)) => Update(r, code, online)
         case None => r
  }

  /** A frame that fits the buffer and is a C string. */
  predicate Acceptable(segment: string) {
    '\0' !in segment && |segment| < FRAME_SIZE
  }

  function Fold(segments: seq<string>, r: Reading): Reading {
    if segments == [] then r
    else
      var last := segments[|segments| - 1];
      var before := Fold(segments[..|segments| - 1], r);
      if Acceptable(last) then Interpret(last, before) else before
  }

  /** The segments that a form feed ends, and what follows the last one. */
  function Segments(bytes: string): (r: (seq<string>, string)) {
    if bytes == "" then ([], "")
    else
      var (done, rest) := Segments(bytes[..|bytes| - 1]);
      var c := bytes[|bytes| - 1];
      if c == FORM_FEED then (done + [rest], "") else (done, rest + [c])
  }

  function Joined(segments: seq<string>): string {
    if segments == [] then ""
    else Joined(segments[..|segments| - 1]) + segments[|segments| - 1] + [FORM_FEED]
  }

  /** Splitting loses nothing and stops at every form feed. */
  lemma {:induction false} SegmentsSplit(bytes: string)
    ensures var (done, rest) := Segments(bytes);
            bytes == Joined(done) + rest
            && '\U{0C}' !in rest && forall s :: s in done ==> '\U{0C}' !in s
  {
    if bytes != "" {
      var n := |bytes| - 1;
      SegmentsSplit(bytes[..n]);
      var (done, rest) := Segments(bytes[..n]);
      assert bytes == bytes[..n] + [bytes[n]];
      if bytes[n] == FORM_FEED {
        assert (done + [rest])[..|done|] == done;
        assert Joined(done + [rest]) == Joined(done) + rest + [FORM_FEED];
      }
    }
  }

  lemma SelectAppends(a: seq<string>, b: seq<string>, key: string)
    ensures Select(a + b, key) == Select(a, key) + Select(b, key)
  {
    if a == [] {
      assert a + b == b;
    } else {
      assert (a + b)[1..] == a[1..] + b;
    }
  }

  /** One line at a time, as a reader that remembers what it has found would take them. */
  datatype Line = Code(number: nat) | Online(yes: bool) | Broken | Useless

  function Meaning(line: string): Line {
    if "CODE=" <= line then (if IsCode(line) then Code(Value(line[5..])) else Broken)
    else if "ONLINE=" <= line then (if IsOnline(line) then Online(line == "ONLINE=TRUE") else Broken)
    else Useless
  }

  predicate Spoils(line: Line, code: Option<nat>, online: Option<bool>) {
    line.Broken? || (line.Code? && code.Some?) || (line.Online? && online.Some?)
  }

  function Scan(lines: seq<string>, code: Option<nat>, online: Option<bool>): Option<(nat, bool)> {
    if lines == [] then
      if code.Some? && online.Some? then Some((code.value, online.value)) else None
    else
      var line := Meaning(lines[0]);
      if Spoils(line, code, online) then None
      else Scan(lines[1..], if line.Code? then Some(line.number) else code,
                            if line.Online? then Some(line.yes) else online)
  }

  function Remaining(rest: string, code: Option<nat>, online: Option<bool>): Option<(nat, bool)> {
    if Terminated(rest) then Scan(Lines(rest), code, online) else None
  }

  /** The key lines among `seen` are well formed, and each key has occurred at most once. */
  ghost predicate Agrees(seen: seq<string>, code: Option<nat>, online: Option<bool>) {
    var codes := Select(seen, "CODE=");
    var onlines := Select(seen, "ONLINE=");
    && |codes| == (if code.Some? then 1 else 0)
    && |onlines| == (if online.Some? then 1 else 0)
    && (code.Some? ==> IsCode(codes[0]) && code.value == Value(codes[0][5..]))
    && (online.Some? ==> IsOnline(onlines[0]) && online.value == (onlines[0] == "ONLINE=TRUE"))
  }

  lemma OneMoreLine(seen: seq<string>, line: string, code: Option<nat>, online: Option<bool>)
    requires Agrees(seen, code, online)
    ensures "CODE=" <= line && IsCode(line) && code.None? ==>
              Agrees(seen + [line], Some(Value(line[5..])), online)
    ensures !("CODE=" <= line) && "ONLINE=" <= line && IsOnline(line) && online.None? ==>
              Agrees(seen + [line], code, Some(line == "ONLINE=TRUE"))
    ensures !("CODE=" <= line) && !("ONLINE=" <= line) ==> Agrees(seen + [line], code, online)
  {
    SelectAppends(seen, [line], "CODE=");
    SelectAppends(seen, [line], "ONLINE=");
    assert Select([line], "CODE=") == if "CODE=" <= line then [line] else [];
    assert Select([line], "ONLINE=") == if "ONLINE=" <= line then [line] else [];
    if "CODE=" <= line {
      assert line[0] == 'C';
      assert !("ONLINE=" <= line);
    }
  }

  /** A malformed or repeated key line spoils the whole report, whatever follows it. */
  lemma SpoiledLines(seen: seq<string>, line: string, rest: seq<string>, code: Option<nat>, online: Option<bool>)
    requires Agrees(seen, code, online)
    requires ("CODE=" <= line && (code.Some? || !IsCode(line)))
          || ("ONLINE=" <= line && (online.Some? || !IsOnline(line)))
    ensures var codes := Select(seen + [line] + rest, "CODE=");
            var onlines := Select(seen + [line] + rest, "ONLINE=");
            !(|codes| == 1 && IsCode(codes[0]) && |onlines| == 1 && IsOnline(onlines[0]))
  {
    var key := if "CODE=" <= line && (code.Some? || !IsCode(line)) then "CODE=" else "ONLINE=";
    SelectAppends(seen, [line], key);
    SelectAppends(seen + [line], rest, key);
    assert Select([line], key) == [line];
    assert Select(seen + [line] + rest, key) == Select(seen, key) + [line] + Select(rest, key);
  }

  lemma {:induction false} ScanAgrees(seen: seq<string>, lines: seq<string>, code: Option<nat>, online: Option<bool>)
    requires Agrees(seen, code, online)
    ensures var codes := Select(seen + lines, "CODE=");
            var onlines := Select(seen + lines, "ONLINE=");
            Scan(lines, code, online) ==
            if |codes| == 1 && IsCode(codes[0]) && |onlines| == 1 && IsOnline(onlines[0])
            then Some((Value(codes[0][5..]), onlines[0] == "ONLINE=TRUE")) else None
    decreases |lines|
  {
    if lines == [] {
      assert seen + lines == seen;
    } else {
      var line := lines[0];
      assert seen + lines == seen + [line] + lines[1..];
      OneMoreLine(seen, line, code, online);
      match Meaning(line) {
        case Code(number) =>
          if code.Some? { SpoiledLines(seen, line, lines[1..], code, online); }
          else { ScanAgrees(seen + [line], lines[1..], Some(number), online); }
        case Online(yes) =>
          if online.Some? { SpoiledLines(seen, line, lines[1..], code, online); }
          else { ScanAgrees(seen + [line], lines[1..], code, Some(yes)); }
        case Broken => SpoiledLines(seen, line, lines[1..], code, online);
        case Useless => ScanAgrees(seen + [line], lines[1..], code, online);
      }
    }
  }

  /** The reader finds a report exactly where the declarative definition sees one. */
  lemma ScanFindsTheReport(body: string)
    ensures Remaining(body, None, None) == Report(body)
  {
    ScanAgrees([], Lines(body), None, None);
    assert [] + Lines(body) == Lines(body);
  }

  lemma FirstLine(text: string)
    requires text != ""
    ensures var n := Index(text, '\n');
            if n == |text| then !Terminated(text)
            else (Terminated(text[n + 1..]) <==> Terminated(text))
                 && Lines(text) == [Bare(text[..n])] + Lines(text[n + 1..])
  {
    var n := Index(text, '\n');
    if n == |text| {
      assert text[..n] == text && text[|text| - 1] in text[..n];
    }
  }

  lemma ScanOneLine(first: string, line: Line, lines: seq<string>, code: Option<nat>, online: Option<bool>)
    requires line == Meaning(first)
    ensures Scan([first] + lines, code, online) ==
            if Spoils(line, code, online) then None
            else Scan(lines, if line.Code? then Some(line.number) else code,
                             if line.Online? then Some(line.yes) else online)
  {
    assert ([first] + lines)[1..] == lines;
  }

  // --- What any run of frames keeps.

  predicate SingleCondition(r: Reading) {
    |r.conditions| <= 1
  }

  lemma {:induction false} AtMostOneCondition(segments: seq<string>, r: Reading)
    requires SingleCondition(r)
    ensures SingleCondition(Fold(segments, r))
  {
    if segments != [] {
      AtMostOneCondition(segments[..|segments| - 1], r);
    }
  }

  function Completions(segments: seq<string>): nat {
    if segments == [] then 0
    else
      var last := segments[|segments| - 1];
      Completions(segments[..|segments| - 1]) + if Acceptable(last) && Completes(last) then 1 else 0
  }

  lemma {:induction false} CompletedIsExact(segments: seq<string>, r: Reading)
    ensures Fold(segments, r).completed == r.completed + Completions(segments)
  {
    if segments != [] {
      CompletedIsExact(segments[..|segments| - 1], r);
    }
  }

  /** A report that proves paper recovery, or that a different fault has replaced the paper request. */
  predicate Clears(frame: string) {
    Reported(frame).Some? &&
    var (code, online) := Reported(frame).value;
    (code == 10001 && online) || (code >= 30000 && !(41000 <= code < 42000))
  }

  /** A request for paper outlives every message but those. */
  lemma {:induction false} PaperRequestIsSticky(segments: seq<string>, r: Reading)
    requires PaperNeeded(r) && SingleCondition(r)
    ensures (forall s :: s in segments && Acceptable(s) ==> !Clears(s)) ==> PaperNeeded(Fold(segments, r))
  {
    if segments != [] && forall s :: s in segments && Acceptable(s) ==> !Clears(s) {
      var n := |segments| - 1;
      assert forall s :: s in segments[..n] ==> s in segments;
      assert segments[n] in segments;
      PaperRequestIsSticky(segments[..n], r);
    }
  }

  lemma PaperRequestIsClearedExactly(frame: string, r: Reading)
    requires PaperNeeded(r)
    ensures PaperNeeded(Interpret(frame, r)) <==> !Clears(frame)
  {
    if Completes(frame) {
      assert Bare(frame[..Index(frame, '\n')]) == JOB;
    }
  }

  // --- What the conditions mean: they are those of a single report.

  /** The reports that the frames carry, in order. */
  function Reports(segments: seq<string>): seq<(nat, bool)> {
    if segments == [] then []
    else
      var last := segments[|segments| - 1];
      Reports(segments[..|segments| - 1])
      + if Acceptable(last) && Reported(last).Some? then [Reported(last).value] else []
  }

  /** Whether a report says that this is the matter, taken by itself. */
  predicate Shows(report: (nat, bool), c: Condition) {
    var (code, online) := report;
    match c
    case ManualFeed => 41100 <= code <= 41199
    case MediaEmpty => 41000 <= code <= 41099 || 41200 <= code <= 41999
    case CoverOpen => code == 40021
    case Fault => code >= 30000 && code != 40021 && !(41000 <= code <= 41999)
    case NotSelected => code < 30000 && !online
  }

  predicate AsksForPaper(report: (nat, bool)) {
    41000 <= report.0 <= 41999
  }

  /** Serious reports, and the one that says that all is well, count whatever came before. */
  predicate Decides(report: (nat, bool)) {
    report.0 >= 30000 || report == (10001, true)
  }

  /** A request for paper has been made before `n`, and nothing has decided otherwise since. */
  ghost predicate Pending(reports: seq<(nat, bool)>, n: nat)
    requires n <= |reports|
  {
    exists p :: 0 <= p < n && AsksForPaper(reports[p]) && forall k :: p < k < n ==> !Decides(reports[k])
  }

  /** The last report that had an effect: one that decides or is not outweighed by a request for paper, and
      itself such a request if others have come since. */
  ghost predicate Rules(reports: seq<(nat, bool)>, i: nat) {
    && i < |reports| && (Decides(reports[i]) || !Pending(reports, i))
    && (i + 1 < |reports| ==> AsksForPaper(reports[i]))
    && forall j :: i < j < |reports| ==> !Decides(reports[j])
  }

  /** What one report leaves of a reading. */
  lemma OneReport(frame: string, r: Reading)
    requires Reported(frame).Some?
    ensures var (code, online) := Reported(frame).value;
            var after := Interpret(frame, r);
            && after.code == code && after.online == online && after.completed == r.completed
            && (Decides((code, online)) || !PaperNeeded(r) ==>
                 forall c :: c in after.conditions <==> Shows((code, online), c))
            && (!Decides((code, online)) && PaperNeeded(r) ==> after.conditions == r.conditions)
  {
  }

  lemma NoReport(frame: string, r: Reading)
    requires Reported(frame).None?
    ensures Interpret(frame, r) == r.(completed := Interpret(frame, r).completed)
  {
  }

  /** After a further report, it is that one or still the old one that rules. */
  lemma OneMoreReport(reports: seq<(nat, bool)>, i: nat, report: (nat, bool))
    requires Rules(reports, i)
    ensures Pending(reports, |reports|) <==> AsksForPaper(reports[i])
    ensures Rules(reports + [report], if Decides(report) || !AsksForPaper(reports[i]) then |reports| else i)
  {
    var more := reports + [report];
    var n := |reports|;
    forall m: nat | m <= n
      ensures Pending(more, m) <==> Pending(reports, m)
    {
      if Pending(reports, m) {
        var p :| 0 <= p < m && AsksForPaper(reports[p]) && forall k :: p < k < m ==> !Decides(reports[k]);
        assert AsksForPaper(more[p]) && forall k :: p < k < m ==> !Decides(more[k]);
      }
      if Pending(more, m) {
        var p :| 0 <= p < m && AsksForPaper(more[p]) && forall k :: p < k < m ==> !Decides(more[k]);
        assert AsksForPaper(reports[p]) && forall k :: p < k < m ==> !Decides(more[k]) && reports[k] == more[k];
      }
    }
    if !AsksForPaper(reports[i]) {
      assert i == n - 1;
    }
  }

  /** The conditions are exactly those that one report shows, and which one that is, is decided by the
      reports alone; the code and the online state are those of the last. */
  ghost predicate ReadFrom(reports: seq<(nat, bool)>, r: Reading, i: nat) {
    if reports == [] then r.conditions == {} && r.code == 0 && !r.online
    else
      && Rules(reports, i) && (forall c :: c in r.conditions <==> Shows(reports[i], c))
      && (r.code, r.online) == reports[|reports| - 1]
  }

  lemma ReadOn(reports: seq<(nat, bool)>, r: Reading, i: nat, frame: string) returns (j: nat)
    requires ReadFrom(reports, r, i) && Reported(frame).Some?
    ensures ReadFrom(reports + [Reported(frame).value], Interpret(frame, r), j)
  {
    var report := Reported(frame).value;
    OneReport(frame, r);
    if reports == [] {
      assert reports + [report] == [report] && !Pending([report], 0);
      j := 0;
    } else {
      assert PaperNeeded(r) <==> AsksForPaper(reports[i]);
      OneMoreReport(reports, i, report);
      j := if Decides(report) || !AsksForPaper(reports[i]) then |reports| else i;
    }
  }

  /** After any frames, from nothing, the conditions are those of one report. */
  lemma {:induction false} ConditionsAreOfOneReport(segments: seq<string>) returns (i: nat)
    ensures ReadFrom(Reports(segments), Fold(segments, Reading({}, 0, false, 0)), i)
  {
    i := 0;
    if segments != [] {
      var n := |segments| - 1;
      var before := Fold(segments[..n], Reading({}, 0, false, 0));
      i := ConditionsAreOfOneReport(segments[..n]);
      if Acceptable(segments[n]) {
        if Reported(segments[n]).Some? {
          i := ReadOn(Reports(segments[..n]), before, i, segments[n]);
        } else {
          NoReport(segments[n], before);
          assert Reports(segments) == Reports(segments[..n]) + [] == Reports(segments[..n]);
        }
      } else {
        assert Reports(segments) == Reports(segments[..n]) + [] == Reports(segments[..n]);
      }
    }
  }

  /** There is only one such report. */
  lemma OnlyOneRules(reports: seq<(nat, bool)>, i: nat, j: nat)
    requires Rules(reports, i) && Rules(reports, j)
    ensures i == j
  {
    if i < j {
      assert Pending(reports, j);
    } else if j < i {
      assert Pending(reports, i);
    }
  }

  /** A request stays the very same one under everything that does not decide. */
  lemma {:induction false} PendingRequestStays(segments: seq<string>, r: Reading)
    requires PaperNeeded(r) && forall k :: 0 <= k < |Reports(segments)| ==> !Decides(Reports(segments)[k])
    ensures Fold(segments, r).conditions == r.conditions
  {
    if segments != [] {
      var n := |segments| - 1;
      var before := Reports(segments[..n]);
      assert forall k :: 0 <= k < |before| ==> before[k] == Reports(segments)[k];
      PendingRequestStays(segments[..n], r);
      if Acceptable(segments[n]) {
        if Reported(segments[n]).Some? {
          assert Reports(segments)[|before|] == Reported(segments[n]).value;
          OneReport(segments[n], Fold(segments[..n], r));
        } else {
          NoReport(segments[n], Fold(segments[..n], r));
        }
      }
    }
  }

  lemma LineFirst(line: string, eol: string, rest: string)
    requires '\n' !in line && '\r' !in line && eol in {"\n", "\r\n"}
    ensures var text := line + eol + rest;
            var n := Index(text, '\n');
            n < |text| && Bare(text[..n]) == line && text[n + 1..] == rest
  {
    var text := line + eol + rest;
    var n := |line| + |eol| - 1;
    assert text[n] == eol[|eol| - 1] == '\n';
    assert text[..n] == line + eol[..|eol| - 1];
    IndexIs(text, '\n', n);
    assert text[n + 1..] == rest;
    if |eol| == 2 {
      assert text[..n][..n - 1] == line;
    } else {
      assert text[..n] == line;
    }
  }

  lemma LinesFirst(line: string, eol: string, rest: string)
    requires '\n' !in line && '\r' !in line && eol in {"\n", "\r\n"}
    ensures Lines(line + eol + rest) == [line] + Lines(rest)
    ensures rest == "" || Terminated(rest) ==> Terminated(line + eol + rest)
  {
    LineFirst(line, eol, rest);
    if rest == "" {
      assert (line + eol + rest)[|line + eol| - 1] == eol[|eol| - 1];
    }
  }

  function Body(digits: string, online: bool, eol: string): string {
    "CODE=" + digits + eol + (OnlineLine(online) + eol)
  }

  function OnlineLine(online: bool): string {
    if online then "ONLINE=TRUE" else "ONLINE=FALSE"
  }

  lemma KeysOfBody(digits: string, online: bool)
    requires |digits| == 5
    ensures var lines := ["CODE=" + digits, OnlineLine(online)];
            Select(lines, "CODE=") == [lines[0]] && Select(lines, "ONLINE=") == [lines[1]]
  {
    var code, last := "CODE=" + digits, OnlineLine(online);
    assert code[0] == 'C' && last[0] == 'O' && "CODE=" <= code && "ONLINE=" <= last;
    var none: seq<string> := [];
    assert [code, last][1..] == [last] && [last][1..] == none;
    assert Select([last], "CODE=") == [] && Select([last], "ONLINE=") == [last];
  }

  lemma TwoLines(first: string, last: string, eol: string)
    requires '\n' !in first + last && '\r' !in first + last && eol in {"\n", "\r\n"}
    ensures Terminated(first + eol + (last + eol))
    ensures Lines(first + eol + (last + eol)) == [first, last]
  {
    assert forall c :: c in first || c in last ==> c in first + last;
    LinesFirst(first, eol, last + eol);
    assert last + eol + "" == last + eol;
    LinesFirst(last, eol, "");
  }

  lemma BodyReadsBack(digits: string, online: bool, eol: string)
    requires |digits| == 5 && Digits(digits) && eol in {"\n", "\r\n"}
    ensures Report(Body(digits, online, eol)) == Some((Value(digits), online))
  {
    KeysOfBody(digits, online);
    TwoLines("CODE=" + digits, OnlineLine(online), eol);
    assert ("CODE=" + digits)[5..] == digits;
    assert OnlineLine(online) == "ONLINE=TRUE" <==> online;
  }

  lemma HeadersAreLines(header: string)
    requires header in {"@PJL USTATUS DEVICE", "@PJL USTATUS TIMED", "@PJL INFO STATUS"}
    ensures '\n' !in header && '\r' !in header
  {
  }

  /** Reading undoes printing, for every code, with either line end. */
  lemma ReportReadsBack(header: string, digits: string, online: bool, eol: string)
    requires header in {"@PJL USTATUS DEVICE", "@PJL USTATUS TIMED", "@PJL INFO STATUS"}
    requires |digits| == 5 && Digits(digits) && eol in {"\n", "\r\n"}
    ensures Reported(header + eol + "CODE=" + digits + eol + (if online then "ONLINE=TRUE" else "ONLINE=FALSE") + eol)
            == Some((Value(digits), online))
  {
    HeadersAreLines(header);
    BodyReadsBack(digits, online, eol);
    LineFirst(header, eol, Body(digits, online, eol));
    Regroup(header, eol, "CODE=", digits, OnlineLine(online));
  }

  lemma Regroup(header: string, eol: string, key: string, digits: string, last: string)
    ensures header + eol + key + digits + eol + last + eol == header + eol + (key + digits + eol + (last + eol))
  {
  }

  lemma FiveDigits(text: string)
    requires |text| == 5 && Digits(text)
    ensures Value(text) == 10000 * (text[0] - '0') as nat + 1000 * (text[1] - '0') as nat
                           + 100 * (text[2] - '0') as nat + 10 * (text[3] - '0') as nat + (text[4] - '0') as nat
  {
    assert text[..4][..3] == text[..3] && text[..3][..2] == text[..2] && text[..2][..1] == text[..1];
    assert text[..1][..0] == "";
    assert Value(text[..1]) == (text[0] - '0') as nat;
    assert Value(text[..2]) == 10 * Value(text[..1]) + (text[1] - '0') as nat;
    assert Value(text[..3]) == 10 * Value(text[..2]) + (text[2] - '0') as nat;
    assert Value(text[..4]) == 10 * Value(text[..3]) + (text[3] - '0') as nat;
  }

  lemma ReportShows(frame: string, code: nat, online: bool, conditions: set<Condition>)
    requires Reported(frame) == Some((code, online)) && forall c :: c in conditions <==> Shows((code, online), c)
    ensures Interpret(frame, Reading({}, 0, false, 0)).conditions == conditions
  {
    OneReport(frame, Reading({}, 0, false, 0));
  }

  /** What the report of a code of five digits shows, by itself. */
  lemma FrameShows(digits: string, online: bool, code: nat, conditions: set<Condition>)
    requires |digits| == 5 && Digits(digits) && Value(digits) == code
    requires forall c :: c in conditions <==> Shows((code, online), c)
    ensures Interpret("@PJL USTATUS DEVICE" + "\r\n" + "CODE=" + digits + "\r\n"
                      + (if online then "ONLINE=TRUE" else "ONLINE=FALSE") + "\r\n",
                      Reading({}, 0, false, 0)).conditions == conditions
  {
    ReportReadsBack("@PJL USTATUS DEVICE", digits, online, "\r\n");
    ReportShows("@PJL USTATUS DEVICE" + "\r\n" + "CODE=" + digits + "\r\n"
                + (if online then "ONLINE=TRUE" else "ONLINE=FALSE") + "\r\n", code, online, conditions);
  }

  /** A document of one page has come out. */
  lemma CompletionFrame(eol: string, r: Reading)
    requires eol in {"\n", "\r\n"}
    ensures Interpret("@PJL USTATUS JOB" + eol + "END\r\nRESULT=OK\r\nPAGES=1\r\n", r) ==
            r.(completed := r.completed + 1)
    ensures Interpret("@PJL USTATUS JOB" + eol + "END\nRESULT=OK\nPAGES=1\n", r) == r.(completed := r.completed + 1)
  {
    LineFirst("@PJL USTATUS JOB", eol, "END\r\nRESULT=OK\r\nPAGES=1\r\n");
    LineFirst("@PJL USTATUS JOB", eol, "END\nRESULT=OK\nPAGES=1\n");
  }

  /** The printer waits for a sheet in its manual slot. */
  lemma ManualFeedFrame()
    ensures Interpret("@PJL USTATUS DEVICE" + "\r\n" + "CODE=" + "41101" + "\r\n" + "ONLINE=TRUE" + "\r\n",
                      Reading({}, 0, false, 0)).conditions == {ManualFeed}
  {
    FiveDigits("41101");
    FrameShows("41101", true, 41101, {ManualFeed});
  }

  /** It waits for paper in its tray. */
  lemma MediaEmptyFrame()
    ensures Interpret("@PJL USTATUS DEVICE" + "\r\n" + "CODE=" + "41003" + "\r\n" + "ONLINE=TRUE" + "\r\n",
                      Reading({}, 0, false, 0)).conditions == {MediaEmpty}
  {
    FiveDigits("41003");
    FrameShows("41003", true, 41003, {MediaEmpty});
  }

  /** Its cover is open. */
  lemma CoverOpenFrame()
    ensures Interpret("@PJL USTATUS DEVICE" + "\r\n" + "CODE=" + "40021" + "\r\n" + "ONLINE=FALSE" + "\r\n",
                      Reading({}, 0, false, 0)).conditions == {CoverOpen}
  {
    FiveDigits("40021");
    FrameShows("40021", false, 40021, {CoverOpen});
  }

  /** Something else is wrong with it. */
  lemma FaultFrame()
    ensures Interpret("@PJL USTATUS DEVICE" + "\r\n" + "CODE=" + "50001" + "\r\n" + "ONLINE=FALSE" + "\r\n",
                      Reading({}, 0, false, 0)).conditions == {Fault}
  {
    FiveDigits("50001");
    FrameShows("50001", false, 50001, {Fault});
  }

  /** It is off line. */
  lemma OfflineFrame()
    ensures Interpret("@PJL USTATUS DEVICE" + "\r\n" + "CODE=" + "10023" + "\r\n" + "ONLINE=FALSE" + "\r\n",
                      Reading({}, 0, false, 0)).conditions == {NotSelected}
  {
    FiveDigits("10023");
    FrameShows("10023", false, 10023, {NotSelected});
  }

  /** It is ready. */
  lemma ReadyFrame()
    ensures Interpret("@PJL USTATUS DEVICE" + "\r\n" + "CODE=" + "10001" + "\r\n" + "ONLINE=TRUE" + "\r\n",
                      Reading({}, 0, false, 0)).conditions == {}
  {
    FiveDigits("10001");
    FrameShows("10001", true, 10001, {});
  }

  /** A frame that was cut inside a line changes nothing, and neither does one that repeats itself, nor any
      other that carries neither a completion nor a well-formed report. */
  lemma MalformedChangesNothing(frame: string, r: Reading)
    ensures frame == "" || frame[|frame| - 1] != '\n' ==> Interpret(frame, r) == r
    ensures var n := Index(frame, '\n');
            n < |frame| && Bare(frame[..n]) != JOB
            && (|Select(Lines(frame[n + 1..]), "CODE=")| > 1 || |Select(Lines(frame[n + 1..]), "ONLINE=")| > 1) ==>
              Interpret(frame, r) == r
    ensures Interpret(frame, r) == r || Completes(frame) || Reported(frame).Some?
  {
    var n := Index(frame, '\n');
    if n < |frame| && frame[|frame| - 1] != '\n' {
      var body := frame[n + 1..];
      assert body[|body| - 1] == frame[|frame| - 1];
      assert END_CRLF[|END_CRLF| - 1] == END_LF[|END_LF| - 1] == '\n';
    }
  }

  lemma OtherHeadersChangeNothing(frame: string, r: Reading)
    requires Index(frame, '\n') < |frame| ==>
               Bare(frame[..Index(frame, '\n')]) !in
               {"@PJL USTATUS JOB", "@PJL USTATUS DEVICE", "@PJL USTATUS TIMED", "@PJL INFO STATUS"}
    ensures Interpret(frame, r) == r
  {
  }

  lemma {:induction false} SelectFinds(lines: seq<string>, key: string, line: string)
    requires line in lines && key <= line
    ensures line in Select(lines, key)
  {
    if lines[0] != line {
      assert line in lines[1..];
      SelectFinds(lines[1..], key, line);
    }
  }

  lemma CodeNeedsFiveDigits(line: string)
    requires |line| != 10 || exists k :: 5 <= k < 10 && !('0' <= line[k] <= '9')
    ensures !IsCode(line)
  {
    if |line| == 10 {
      var k :| 5 <= k < 10 && !('0' <= line[k] <= '9');
      assert line[5..][k - 5] == line[k];
    }
  }

  /** A code line with anything but five digits spoils its report wherever it stands. */
  lemma BrokenCodeSpoils(body: string, line: string)
    requires line in Lines(body) && "CODE=" <= line
    requires |line| != 10 || exists k :: 5 <= k < 10 && !('0' <= line[k] <= '9')
    ensures Report(body).None?
  {
    SelectFinds(Lines(body), "CODE=", line);
    CodeNeedsFiveDigits(line);
  }

  /** So does an online line with anything but the two words. */
  lemma BrokenOnlineSpoils(body: string, line: string)
    requires line in Lines(body) && "ONLINE=" <= line && line != "ONLINE=TRUE" && line != "ONLINE=FALSE"
    ensures Report(body).None?
  {
    SelectFinds(Lines(body), "ONLINE=", line);
  }

  /** So the tail of a frame never counts before it is there: no cut of a completion report inside a line
      is one. */
  lemma CutCompletionIsNone(frame: string, cut: nat)
    requires Completes(frame) && cut < |frame| && (cut == 0 || frame[cut - 1] != '\n')
    ensures !Completes(frame[..cut])
  {
    var part := frame[..cut];
    if part != "" {
      assert part[|part| - 1] == frame[cut - 1];
    }
    MalformedChangesNothing(part, Reading({}, 0, false, 0));
  }
}
