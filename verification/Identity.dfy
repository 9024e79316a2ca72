/** The IEEE 1284 identity of a printer: a list of `NAME:value;` fields. */
module Identity {
  import opened Outcomes
  import opened PjlSpec

  const VERSION_SIZE := 64

  /** The terminated fields of an identity; what follows the last semicolon is no field. */
  function Fields(identity: string): seq<string>
    decreases |identity|
  {
    var n := Index(identity, ';');
    if n == |identity| then [] else [identity[..n]] + Fields(identity[n + 1..])
  }

  /** The first field of that name. */
  function Lookup(fields: seq<string>, name: string): Option<string> {
    if fields == [] then None
    else if name + ":" <= fields[0] then Some(fields[0][|name| + 1..])
    else Lookup(fields[1..], name)
  }

  function Field(identity: string, name: string): Option<string> {
    Lookup(Fields(identity), name)
  }

  predicate Reference(identity: string) {
    && Field(identity, "MFG") in {Some("Hewlett-Packard"), Some("HP")}
    && Field(identity, "MDL") == Some("HP LaserJet 1020")
  }

  /** The firmware version, where it is usable: not empty, and short enough to be stored. */
  function Version(identity: string): Option<string> {
    match Field(identity, "FWVER")
    case Some(v) => if 0 < |v| < VERSION_SIZE then Some(v) else None
    case None => None
  }

  function Printed(fields: seq<(string, string)>): string {
    if fields == [] then "" else fields[0].0 + ":" + fields[0].1 + ";" + Printed(fields[1..])
  }

  /** A field is found with exactly its value wherever it stands, unless an earlier one has its name. */
  lemma {:induction false} PrintedFieldIsFound(before: seq<(string, string)>, name: string, value: string,
          after: string)
    requires ':' !in name && ';' !in name && ';' !in value
    requires forall f :: f in before ==> ':' !in f.0 && ';' !in f.0 && ';' !in f.1 && f.0 != name
    ensures Field(Printed(before) + name + ":" + value + ";" + after, name) == Some(value)
  {
    var identity := Printed(before) + name + ":" + value + ";" + after;
    if before == [] {
      var field := name + ":" + value;
      assert identity == field + ";" + after;
      FirstField(field, after);
      assert field[|name| + 1..] == value;
    } else {
      var field := before[0].0 + ":" + before[0].1;
      var rest := Printed(before[1..]) + name + ":" + value + ";" + after;
      assert identity == field + ";" + rest;
      FirstField(field, rest);
      assert before[0] in before && forall f :: f in before[1..] ==> f in before;
      PrintedFieldIsFound(before[1..], name, value, after);
      if name + ":" <= field {
        SameName(name, before[0].0, value, before[0].1);
      }
    }
  }

  /** The identity of a printer, as it sends it. */
  function Sent(maker: string, model: string, version: string, after: string): string {
    Printed([("MFG", maker), ("MDL", model), ("FWVER", version)]) + after
  }

  lemma PrintedStep(name: string, value: string, rest: seq<(string, string)>)
    ensures Printed([(name, value)] + rest) == name + ":" + value + ";" + Printed(rest)
  {
  }

  lemma SentText(maker: string, model: string, version: string, after: string)
    ensures Sent(maker, model, version, after) ==
            "MFG" + ":" + maker + ";" + ("MDL" + ":" + model + ";" + ("FWVER" + ":" + version + ";" + after))
  {
    var b, c := ("MDL", model), ("FWVER", version);
    assert [("MFG", maker), b, c] == [("MFG", maker)] + [b, c] && [b, c] == [b] + [c] && [c] == [c] + [];
    PrintedStep("MFG", maker, [b, c]);
    PrintedStep("MDL", model, [c]);
    PrintedStep("FWVER", version, []);
  }

  lemma Regroup(before: string, name: string, value: string, rest: string)
    ensures before + name + ":" + value + ";" + rest == before + (name + ":" + value + ";" + rest)
  {
  }

  lemma MakerIsFound(maker: string, model: string, version: string, after: string)
    requires ';' !in maker
    ensures Field(Sent(maker, model, version, after), "MFG") == Some(maker)
  {
    SentText(maker, model, version, after);
    var rest := "MDL" + ":" + model + ";" + ("FWVER" + ":" + version + ";" + after);
    PrintedFieldIsFound([], "MFG", maker, rest);
    assert Printed([]) + "MFG" + ":" + maker + ";" + rest == "MFG" + ":" + maker + ";" + rest;
  }

  lemma ModelIsFound(maker: string, model: string, version: string, after: string)
    requires ';' !in maker && ';' !in model
    ensures Field(Sent(maker, model, version, after), "MDL") == Some(model)
  {
    SentText(maker, model, version, after);
    var rest := "FWVER" + ":" + version + ";" + after;
    assert "MFG" != "MDL" && [("MFG", maker)] == [("MFG", maker)] + [];
    PrintedFieldIsFound([("MFG", maker)], "MDL", model, rest);
    PrintedStep("MFG", maker, []);
    assert Printed([("MFG", maker)]) == "MFG" + ":" + maker + ";";
    Regroup("MFG" + ":" + maker + ";", "MDL", model, rest);
  }

  lemma VersionIsFound(maker: string, model: string, version: string, after: string)
    requires ';' !in maker && ';' !in model && ';' !in version
    ensures Field(Sent(maker, model, version, after), "FWVER") == Some(version)
  {
    SentText(maker, model, version, after);
    var before := [("MFG", maker)] + [("MDL", model)];
    assert [("MDL", model)] == [("MDL", model)] + [];
    PrintedFieldIsFound(before, "FWVER", version, after);
    PrintedStep("MFG", maker, [("MDL", model)]);
    PrintedStep("MDL", model, []);
    assert Printed(before) == "MFG" + ":" + maker + ";" + ("MDL" + ":" + model + ";");
    Regroup(Printed(before), "FWVER", version, after);
    assert Printed(before) + ("FWVER" + ":" + version + ";" + after) ==
           "MFG" + ":" + maker + ";" + ("MDL" + ":" + model + ";" + ("FWVER" + ":" + version + ";" + after));
  }

  /** Only that maker's printer of that model is the reference printer, and the version is what it says. */
  lemma PrinterIsRecognized(maker: string, model: string, version: string, after: string)
    requires ';' !in maker && ';' !in model && ';' !in version
    ensures Reference(Sent(maker, model, version, after)) <==>
              maker in {"Hewlett-Packard", "HP"} && model == "HP LaserJet 1020"
    ensures Version(Sent(maker, model, version, after)) == if 0 < |version| <= 63 then Some(version) else None
  {
    MakerIsFound(maker, model, version, after);
    ModelIsFound(maker, model, version, after);
    VersionIsFound(maker, model, version, after);
  }

  lemma FirstField(field: string, rest: string)
    requires ';' !in field
    ensures Fields(field + ";" + rest) == [field] + Fields(rest)
  {
    var identity := field + ";" + rest;
    assert identity[..|field|] == field;
    IndexIs(identity, ';', |field|);
    assert identity[|field| + 1..] == rest;
  }

  lemma SameName(name: string, other: string, value: string, otherValue: string)
    requires ':' !in name && ':' !in other
    requires name + ":" <= other + ":" + otherValue
    ensures name == other
  {
    var field := other + ":" + otherValue;
    assert field[..|name|] == (name + ":")[..|name|] == name && field[|name|] == (name + ":")[|name|];
    assert field[..|other|] == other;
    IndexIs(field, ':', |name|);
    IndexIs(field, ':', |other|);
  }

  lemma NameEndsAtColon(text: string, name: string)
    requires ':' !in name
    ensures name + ":" <= text <==> |name| < |text| && Index(text, ':') == |name| && text[..|name|] == name
  {
    if name + ":" <= text {
      assert text[|name|] == (name + ":")[|name|] && text[..|name|] == (name + ":")[..|name|] == name;
      IndexIs(text, ':', |name|);
    } else if |name| < |text| {
      assert text[..|name| + 1] == text[..|name|] + [text[|name|]];
    }
  }

  lemma FieldsStep(rest: string, n: nat)
    requires n == Index(rest, ';') < |rest|
    ensures Fields(rest) == [rest[..n]] + Fields(rest[n + 1..])
  {
  }

  lemma NoFields(rest: string)
    requires Index(rest, ';') == |rest|
    ensures Fields(rest) == []
  {
  }

  /** The name of a field ends at its first colon. */
  method ValueUnder(text: string, name: string) returns (value: Option<string>)
    requires ':' !in name
    ensures value == if name + ":" <= text then Some(text[|name| + 1..]) else None
  {
    NameEndsAtColon(text, name);
    var colon := Index(text, ':');
    if colon < |text| && colon == |name| && text[..colon] == name {
      return Some(text[colon + 1..]);
    }
    return None;
  }

  /** How much the first field of what is left takes up with its terminator, or 0 if it has none. */
  method FirstOf(rest: string) returns (size: nat)
    ensures size <= |rest|
    ensures size == 0 ==> Fields(rest) == []
    ensures size > 0 ==>
              Fields(rest) != [] && Fields(rest)[0] == rest[..size - 1] && Fields(rest)[1..] == Fields(rest[size..])
  {
    var end := Index(rest, ';');
    if end == |rest| {
      NoFields(rest);
      return 0;
    }
    FieldsStep(rest, end);
    return end + 1;
  }

  /** The value of the first field, if it has the name, or else how much to pass over. */
  method Look(rest: string, name: string) returns (value: Option<string>, size: nat)
    requires ':' !in name
    ensures size <= |rest|
    ensures value.Some? || size == 0 ==> Field(rest, name) == value
    ensures value.None? && size > 0 ==> Field(rest, name) == Field(rest[size..], name)
  {
    value := None;
    size := FirstOf(rest);
    if size > 0 {
      value := ValueUnder(rest[..size - 1], name);
    }
  }

  /** The cursor over the fields of an identity. */
  method FindField(identity: string, name: string) returns (value: Option<string>)
    requires ':' !in name
    ensures value == Field(identity, name)
  {
    var field := 0;
    assert identity[0..] == identity;
    while field < |identity|
      invariant field <= |identity| && Field(identity, name) == Field(identity[field..], name)
    {
      var size;
      value, size := Look(identity[field..], name);
      if value.Some? || size == 0 {
        return;
      }
      assert identity[field..][size..] == identity[field + size..];
      field := field + size;
    }
    return None;
  }
}
