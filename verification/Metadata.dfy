/** The metadata of a firmware generation: printing it, and reading single fields back. */
module Metadata {
  import opened Outcomes

  /** Printable enough: nothing that could end a line, or a C string. */
  predicate TextValid(text: string, maximum: nat) {
    0 < |text| <= maximum && forall i :: 0 <= i < |text| ==> ' ' <= text[i] && text[i] != '\U{7f}'
  }

  lemma TextIsPrintable(text: string, maximum: nat)
    ensures TextValid(text, maximum) <==>
              1 <= |text| <= maximum && forall i :: 0 <= i < |text| ==> text[i] as int >= 32 && text[i] as int != 127
  {
  }

  /** Lines, each with its terminator. */
  function Joined(lines: seq<string>): string {
    if lines == [] then "" else lines[0] + "\n" + Joined(lines[1..])
  }

  datatype Item = Item(key: string, value: string)

  function Line(entry: Item): string {
    entry.key + "=" + entry.value
  }

  function Laid(entries: seq<Item>): seq<string> {
    if entries == [] then [] else [Line(entries[0])] + Laid(entries[1..])
  }

  function Entries(source: string, version: string, digest: string): seq<Item> {
    [Item("schema", "1"), Item("affirmation", "lawful-acquisition"), Item("source", source),
     Item("version-build", version), Item("sha256", digest)]
  }

  function Print(source: string, version: string, digest: string): string {
    Joined(Laid(Entries(source, version, digest)))
  }

  /** The first line end at or after the start, or the length of the text. */
  function LineEnd(text: string): (end: nat)
    ensures end <= |text| && (end < |text| ==> text[end] == '\n')
    ensures forall i :: 0 <= i < end ==> text[i] != '\n'
  {
    if text == "" || text[0] == '\n' then 0 else 1 + LineEnd(text[1..])
  }

  /** The terminated lines of a text. */
  function Lines(text: string): seq<string> {
    var end := LineEnd(text);
    if end == |text| then [] else [text[..end]] + Lines(text[end + 1..])
  }

  predicate WellFormed(text: string) {
    '\0' !in text && (text == "" || text[|text| - 1] == '\n')
  }

  predicate Carries(line: string, name: string) {
    |line| > |name| + 1 && line[..|name|] == name && line[|name|] == '='
  }

  /** What the lines give for a name, in order. */
  function Values(lines: seq<string>, name: string): seq<string> {
    if lines == [] then []
    else Match(lines[0], name) + Values(lines[1..], name)
  }

  /** The value of a field that occurs exactly once and fits a buffer of the given size with its terminator. */
  function Field(text: string, name: string, size: nat): Option<string> {
    var values := Values(Lines(text), name);
    if WellFormed(text) && |values| == 1 && |values[0]| < size then Some(values[0]) else None
  }

  lemma {:induction false} LinesStep(line: string, rest: string)
    requires '\n' !in line
    ensures LineEnd(line + "\n" + rest) == |line|
    ensures Lines(line + "\n" + rest) == [line] + Lines(rest)
  {
    var text := line + "\n" + rest;
    var end := LineEnd(text);
    assert text[|line|] == '\n';
    assert forall i :: 0 <= i < |line| ==> text[i] == line[i];
    assert text[..end] == line && text[end + 1..] == rest;
  }

  /** Reading undoes printing, as long as no line holds a line end. */
  lemma {:induction false} LinesOfJoined(lines: seq<string>)
    requires forall i :: 0 <= i < |lines| ==> '\n' !in lines[i]
    ensures Lines(Joined(lines)) == lines
  {
    if lines != [] {
      LinesOfJoined(lines[1..]);
      LinesStep(lines[0], Joined(lines[1..]));
    }
  }

  function Found(value: Option<string>): seq<string> {
    if value.Some? then [value.value] else []
  }

  /** The value on one line, if the line is for this name. */
  function Match(line: string, name: string): seq<string> {
    if Carries(line, name) then [line[|name| + 1..]] else []
  }

  /** What the text gives for a name from a position on. */
  function From(text: string, at: nat, name: string): seq<string>
    requires at <= |text|
  {
    Values(Lines(text[at..]), name)
  }

  predicate Single(values: seq<string>, size: nat) {
    |values| == 1 && |values[0]| < size
  }

  lemma FromStart(text: string, name: string, size: nat)
    ensures Field(text, name, size) ==
            if WellFormed(text) && Single(From(text, 0, name), size) then Some(From(text, 0, name)[0]) else None
    ensures From(text, |text|, name) == []
  {
    assert text[0..] == text;
  }

  /** Reads the line at the cursor. Once this fails, the text can no longer have the one fitting value. */
  method ReadLine(text: string, cursor: nat, name: string, size: nat, value: Option<string>)
    returns (ok: bool, next: nat, r: Option<string>)
    requires cursor < |text| && (value.Some? ==> |value.value| < size)
    ensures next <= |text| && (r.Some? ==> |r.value| < size)
    ensures ok ==> cursor < next && text[next - 1] == '\n'
    ensures ok ==> Found(value) + From(text, cursor, name) == Found(r) + From(text, next, name)
    ensures !ok ==> !WellFormed(text) || !Single(Found(value) + From(text, cursor, name), size)
  {
    var end := cursor + LineEnd(text[cursor..]);
    if end == |text| {
      LastLineOpen(text, cursor);
      return false, 0, None;
    }
    LinesAt(text, cursor, end, name);
    var matched := Match(text[cursor..end], name);
    ok, r := Take(value, matched, From(text, end + 1, name), size);
    next := end + 1;
  }

  method Take(value: Option<string>, matched: seq<string>, ghost rest: seq<string>, size: nat)
    returns (ok: bool, r: Option<string>)
    requires |matched| <= 1 && (value.Some? ==> |value.value| < size)
    ensures r.Some? ==> |r.value| < size
    ensures ok ==> Found(value) + (matched + rest) == Found(r) + rest
    ensures !ok ==> !Single(Found(value) + (matched + rest), size)
  {
    if matched == [] {
      return true, value;
    }
    if value.Some? || |matched[0]| >= size {
      return false, None;
    }
    return true, Some(matched[0]);
  }

  /** Walks the lines with a cursor, as long as nothing speaks against the field. */
  method MetadataValue(text: string, name: string, size: nat) returns (value: Option<string>)
    ensures value == Field(text, name, size)
  {
    FromStart(text, name, size);
    value := None;
    if '\0' in text {
      return;
    }
    var cursor := 0;
    while cursor < |text|
      invariant cursor <= |text| && (cursor > 0 ==> text[cursor - 1] == '\n')
      invariant From(text, 0, name) == Found(value) + From(text, cursor, name) && (value.Some? ==> |value.value| < size)
      decreases |text| - cursor
    {
      var ok;
      ok, cursor, value := ReadLine(text, cursor, name, size, value);
      if !ok {
        return None;
      }
    }
  }

  lemma LastLineOpen(text: string, cursor: nat)
    requires cursor < |text| && cursor + LineEnd(text[cursor..]) == |text|
    ensures !WellFormed(text)
  {
    assert text[cursor..][|text| - cursor - 1] == text[|text| - 1];
  }

  lemma LinesAt(text: string, cursor: nat, end: nat, name: string)
    requires cursor < |text| && end == cursor + LineEnd(text[cursor..]) < |text|
    ensures text[end] == '\n'
    ensures From(text, cursor, name) == Match(text[cursor..end], name) + From(text, end + 1, name)
  {
    assert text[cursor..][..end - cursor] == text[cursor..end];
    assert text[cursor..][end - cursor + 1..] == text[end + 1..];
    var lines := Lines(text[cursor..]);
    assert lines[0] == text[cursor..end] && lines[1..] == Lines(text[end + 1..]);
  }

  /** The values that were entered under a name. */
  function Given(entries: seq<Item>, name: string): seq<string> {
    if entries == [] then []
    else Own(entries[0], name) + Given(entries[1..], name)
  }

  function Own(entry: Item, name: string): seq<string> {
    if entry.key == name then [entry.value] else []
  }

  predicate PlainKey(key: string) {
    '=' !in key && '\n' !in key && '\0' !in key
  }

  /** What a line may hold without being taken for something else. */
  predicate Plain(entry: Item) {
    PlainKey(entry.key) && entry.value != "" && '\n' !in entry.value && '\0' !in entry.value
  }

  /** A line answers to its own key only, whatever its value says. */
  lemma MatchesOwnKey(entry: Item, name: string)
    requires Plain(entry) && '=' !in name
    ensures Match(Line(entry), name) == Own(entry, name)
  {
    var line := Line(entry);
    assert line[|entry.key|] == '=' && line[..|entry.key|] == entry.key && line[|entry.key| + 1..] == entry.value;
    assert forall i :: 0 <= i < |entry.key| ==> line[i] == entry.key[i] != '=';
    if Carries(line, name) {
      assert forall i :: 0 <= i < |name| ==> line[i] == name[i] != '=';
      assert |name| == |entry.key|;
    }
  }

  /** A line without a value does not answer at all. */
  lemma EmptyValueIsNone(key: string)
    ensures Match(key + "=", key) == []
  {
  }

  lemma {:induction false} ValuesOfLaid(entries: seq<Item>, name: string)
    requires '=' !in name && forall i :: 0 <= i < |entries| ==> Plain(entries[i])
    ensures Values(Laid(entries), name) == Given(entries, name)
    ensures |Laid(entries)| == |entries|
    ensures forall i :: 0 <= i < |entries| ==> Laid(entries)[i] == Line(entries[i])
  {
    if entries != [] {
      MatchesOwnKey(entries[0], name);
      ValuesOfLaid(entries[1..], name);
      assert Laid(entries)[0] == Line(entries[0]) && Laid(entries)[1..] == Laid(entries[1..]);
    }
  }

  lemma {:induction false} JoinedIsWellFormed(lines: seq<string>)
    requires forall i :: 0 <= i < |lines| ==> '\0' !in lines[i]
    ensures WellFormed(Joined(lines))
  {
    if lines != [] {
      JoinedIsWellFormed(lines[1..]);
    }
  }

  /** Printing then reading returns, for every name, exactly what was entered under it. */
  lemma FieldOfEntries(entries: seq<Item>, name: string, size: nat)
    requires '=' !in name && forall i :: 0 <= i < |entries| ==> Plain(entries[i])
    ensures Field(Joined(Laid(entries)), name, size) ==
            if Single(Given(entries, name), size) then Some(Given(entries, name)[0]) else None
  {
    ValuesOfLaid(entries, name);
    forall i | 0 <= i < |entries|
      ensures '\n' !in Laid(entries)[i] && '\0' !in Laid(entries)[i]
    {
      assert Laid(entries)[i] == Line(entries[i]);
    }
    LinesOfJoined(Laid(entries));
    JoinedIsWellFormed(Laid(entries));
  }

  lemma ValidTextIsPlain(key: string, text: string, maximum: nat)
    requires TextValid(text, maximum) && PlainKey(key)
    ensures Plain(Item(key, text))
  {
  }

  /** Under a key that occurs once, one value was entered. */
  lemma {:induction false} GivenOnce(entries: seq<Item>, i: nat)
    requires i < |entries| && forall j :: 0 <= j < |entries| && j != i ==> entries[j].key != entries[i].key
    ensures Given(entries, entries[i].key) == [entries[i].value]
  {
    if i > 0 {
      GivenOnce(entries[1..], i - 1);
    } else {
      GivenNever(entries[1..], entries[0].key);
    }
  }

  lemma {:induction false} GivenNever(entries: seq<Item>, name: string)
    requires forall j :: 0 <= j < |entries| ==> entries[j].key != name
    ensures Given(entries, name) == []
  {
    if entries != [] {
      GivenNever(entries[1..], name);
    }
  }

  lemma KeysDiffer()
    ensures "schema" != "source" && "schema" != "sha256" && "source" != "sha256"
    ensures "schema" != "affirmation" && "schema" != "version-build" && "source" != "affirmation"
    ensures "source" != "version-build" && "sha256" != "affirmation" && "sha256" != "version-build"
    ensures "affirmation" != "version-build"
  {
    assert "schema"[1] == 'c' && "source"[1] == 'o' && "sha256"[1] == 'h';
    assert |"schema"| == |"source"| == |"sha256"| == 6 && |"affirmation"| == 11 && |"version-build"| == 13;
  }

  lemma KeysArePlain()
    ensures PlainKey("schema") && PlainKey("affirmation") && PlainKey("source") && PlainKey("version-build")
    ensures PlainKey("sha256")
  {
  }

  lemma ConstantsAreValid()
    ensures TextValid("1", 64) && TextValid("lawful-acquisition", 64)
  {
  }

  lemma EntriesArePlain(source: string, version: string, digest: string)
    requires TextValid(source, 4096) && TextValid(version, 256) && TextValid(digest, 64)
    ensures var entries := Entries(source, version, digest); forall i :: 0 <= i < 5 ==> Plain(entries[i])
  {
    KeysArePlain();
    ConstantsAreValid();
    ValidTextIsPlain("schema", "1", 64);
    ValidTextIsPlain("affirmation", "lawful-acquisition", 64);
    ValidTextIsPlain("source", source, 4096);
    ValidTextIsPlain("version-build", version, 256);
    ValidTextIsPlain("sha256", digest, 64);
  }

  /** Each field of a commit reads back as it was given, if it fits the reader's buffer. */
  lemma ItemReadsBack(source: string, version: string, digest: string, i: nat, size: nat)
    requires TextValid(source, 4096) && TextValid(version, 256) && TextValid(digest, 64) && i < 5
    ensures var entry := Entries(source, version, digest)[i];
            Field(Print(source, version, digest), entry.key, size) ==
            if |entry.value| < size then Some(entry.value) else None
  {
    var entries := Entries(source, version, digest);
    EntriesArePlain(source, version, digest);
    KeysDiffer();
    GivenOnce(entries, i);
    FieldOfEntries(entries, entries[i].key, size);
  }

  /** The metadata of a commit reads back as it was given: no source text can forge another field. Only the
      version can be too long, for a reader whose buffer is smaller than what an import accepts. */
  lemma PrintedFieldsReadBack(source: string, version: string, digest: string)
    requires TextValid(source, 4096) && TextValid(version, 256) && TextValid(digest, 64)
    ensures var text := Print(source, version, digest);
            && Field(text, "schema", 8) == Some("1")
            && Field(text, "affirmation", 64) == Some("lawful-acquisition")
            && Field(text, "source", 4097) == Some(source)
            && Field(text, "version-build", 64) == (if |version| < 64 then Some(version) else None)
            && Field(text, "sha256", 65) == Some(digest)
  {
    ItemReadsBack(source, version, digest, 0, 8);
    ItemReadsBack(source, version, digest, 1, 64);
    ItemReadsBack(source, version, digest, 2, 4097);
    ItemReadsBack(source, version, digest, 3, 64);
    ItemReadsBack(source, version, digest, 4, 65);
  }

  /** The very text. */
  lemma PrintedText(source: string, version: string, digest: string)
    ensures Print(source, version, digest) ==
            "schema" + "=" + "1" + "\n" + ("affirmation" + "=" + "lawful-acquisition" + "\n"
            + ("source" + "=" + source + "\n" + ("version-build" + "=" + version + "\n"
            + ("sha256" + "=" + digest + "\n"))))
  {
    var e := Entries(source, version, digest);
    LaidAt(e[4..]);
    LaidAt(e[3..]);
    LaidAt(e[2..]);
    LaidAt(e[1..]);
    LaidAt(e);
    assert e[4..][1..] == [] && e[3..][1..] == e[4..] && e[2..][1..] == e[3..] && e[1..][1..] == e[2..];
    assert Joined(Laid(e[4..])) == "sha256" + "=" + digest + "\n" + "";
  }

  lemma LaidAt(entries: seq<Item>)
    requires entries != []
    ensures Joined(Laid(entries)) == entries[0].key + "=" + entries[0].value + "\n" + Joined(Laid(entries[1..]))
  {
    assert Laid(entries)[0] == Line(entries[0]) && Laid(entries)[1..] == Laid(entries[1..]);
  }

  function Length(entries: seq<Item>): nat {
    if entries == [] then 0 else |entries[0].key| + |entries[0].value| + 2 + Length(entries[1..])
  }

  lemma {:induction false} JoinedLength(entries: seq<Item>)
    ensures |Joined(Laid(entries))| == Length(entries)
  {
    if entries != [] {
      JoinedLength(entries[1..]);
      assert Laid(entries)[1..] == Laid(entries[1..]);
    }
  }

  /** The text always fits the buffer that is set aside for it, with its terminator. */
  lemma PrintFits(source: string, version: string, digest: string)
    ensures |Print(source, version, digest)| == |source| + |version| + |digest| + 71
  {
    var e := Entries(source, version, digest);
    JoinedLength(e);
    assert e[4..][1..] == [] && e[3..][1..] == e[4..] && e[2..][1..] == e[3..] && e[1..][1..] == e[2..];
    assert Length(e[4..]) == |digest| + 8;
    assert Length(e[3..]) == |version| + 15 + Length(e[4..]);
    assert Length(e[2..]) == |source| + 8 + Length(e[3..]);
    assert Length(e[1..]) == 31 + Length(e[2..]);
  }
}
