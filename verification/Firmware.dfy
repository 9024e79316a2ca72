/** Importing firmware that the user supplies, and loading it again when the printer needs it. */
module Firmware {
  import opened Outcomes
  import opened FirmwareStore
  import opened Metadata

  type Byte = x: nat | x < 256
  type Digest = d: seq<Byte> | |d| == 32 witness seq(32, _ => 0)

  const MAX_IMPORT := 0xFFFF_FFFF
  const MAX_LOAD := 0x10_0000
  const VERSION_SIZE := 64
  const DIGITS := "0123456789abcdef"

  predicate IsHex(c: char) {
    '0' <= c <= '9' || 'a' <= c <= 'f'
  }

  function DigitValue(c: char): (value: nat)
    ensures value < 16
  {
    if '0' <= c <= '9' then c as int - '0' as int
    else if 'a' <= c <= 'f' then c as int - 'a' as int + 10
    else 0
  }

  function Digit(value: nat): (c: char)
    requires value < 16
    ensures IsHex(c) && DigitValue(c) == value
  {
    DIGITS[value]
  }

  function HexPair(b: Byte): (text: string)
    ensures |text| == 2 && IsHex(text[0]) && IsHex(text[1])
  {
    [Digit(b / 16), Digit(b % 16)]
  }

  function Hex(digest: seq<Byte>): (text: string)
    ensures |text| == 2 * |digest|
    ensures forall i :: 0 <= i < |text| ==> IsHex(text[i])
  {
    if digest == [] then "" else HexPair(digest[0]) + Hex(digest[1..])
  }

  function Unhex(text: string): seq<Byte> {
    if |text| < 2 then [] else [16 * DigitValue(text[0]) + DigitValue(text[1])] + Unhex(text[2..])
  }

  lemma PairDecodes(b: Byte)
    ensures 16 * DigitValue(HexPair(b)[0]) + DigitValue(HexPair(b)[1]) == b
  {
  }

  /** The printed digest determines the digest. */
  lemma {:induction false} HexDecodes(digest: seq<Byte>)
    ensures Unhex(Hex(digest)) == digest
  {
    if digest != [] {
      PairDecodes(digest[0]);
      HexDecodes(digest[1..]);
      assert Hex(digest)[2..] == Hex(digest[1..]);
    }
  }

  lemma {:induction false} HexAppends(digest: seq<Byte>, next: Byte)
    ensures Hex(digest + [next]) == Hex(digest) + HexPair(next)
  {
    if digest == [] {
      assert [next][1..] == [];
    } else {
      HexAppends(digest[1..], next);
      assert (digest + [next])[1..] == digest[1..] + [next];
    }
  }

  /** Fills a C buffer with the printed digest and its terminator. */
  method Sha256Hex(digest: Digest, output: array<char>)
    requires output.Length == 65
    modifies output
    ensures output[..64] == Hex(digest) && output[64] == '\0'
  {
    for index := 0 to 32
      invariant output[..2 * index] == Hex(digest[..index])
    {
      output[index * 2] := Digit(digest[index] / 16);
      output[index * 2 + 1] := Digit(digest[index] % 16);
      HexAppends(digest[..index], digest[index]);
      assert digest[..index] + [digest[index]] == digest[..index + 1];
    }
    output[64] := '\0';
    assert digest[..32] == digest;
  }

  datatype Allowed = Allowed(digest: Digest, count: nat, version: string)

  datatype ReadState = ReadComplete | ReadFailed | ReadUnknown

  datatype Request = Request(contents: Option<string>, source: Option<string>, affirmed: bool, read: ReadState)

  datatype Verdict = Accepted(source: string, contents: string, version: string)
      | InvalidState | Corrupt | NotAffirmed | NotSupported

  function Match(allowlist: seq<Allowed>, count: nat, digest: Digest): (r: Option<Allowed>)
    ensures r.Some? ==> r.value in allowlist && r.value.count == count && r.value.digest == digest
    ensures r.None? ==> forall e :: e in allowlist ==> e.count != count || e.digest != digest
  {
    if allowlist == [] then None
    else if allowlist[0].count == count && allowlist[0].digest == digest then Some(allowlist[0])
    else Match(allowlist[1..], count, digest)
  }

  function Decide(request: Request, allowlist: seq<Allowed>, sha: string -> Digest): Verdict {
    if request.read.ReadUnknown? then InvalidState
    else if request.read.ReadFailed? || request.contents.None? || !(0 < |request.contents.value| <= MAX_IMPORT)
      then Corrupt
    else if request.source.None? || !TextValid(request.source.value, 4096) then InvalidState
    else if !request.affirmed then NotAffirmed
    else if allowlist == [] then InvalidState
    else
      var contents := request.contents.value;
      var matched := Match(allowlist, |contents|, sha(contents));
      if matched.None? then NotSupported
      else if !TextValid(matched.value.version, 256) then InvalidState
      else Accepted(request.source.value, contents, matched.value.version)
  }

  /** Nothing is accepted that was not read whole, affirmed and listed by content; anything listed with a
      usable version is, if it is described. */
  lemma AcceptanceNeedsAffirmationAndListing(request: Request, allowlist: seq<Allowed>, sha: string -> Digest)
    ensures var v := Decide(request, allowlist, sha);
            v.Accepted? ==>
              && request.read.ReadComplete? && request.affirmed
              && request.contents == Some(v.contents) && request.source == Some(v.source) && TextValid(v.source, 4096)
              && Allowed(sha(v.contents), |v.contents|, v.version) in allowlist
    ensures forall e :: e in allowlist ==>
              request.read.ReadComplete? && request.affirmed && request.source.Some?
              && TextValid(request.source.value, 4096)
              && request.contents.Some? && 0 < |request.contents.value| <= 4294967295
              && e.count == |request.contents.value| && e.digest == sha(request.contents.value)
              && (forall f :: f in allowlist ==> TextValid(f.version, 256)) ==>
                Decide(request, allowlist, sha).Accepted?
  {
  }

  /** Every refusal says why, and looks no further than that. */
  lemma RefusalsTellWhy(request: Request, allowlist: seq<Allowed>, sha: string -> Digest)
    ensures var v := Decide(request, allowlist, sha);
            && (v.Corrupt? <==>
                 && !request.read.ReadUnknown?
                 && (request.read.ReadFailed? || request.contents.None? || request.contents.value == ""
                     || |request.contents.value| > 4294967295))
            && (v.NotAffirmed? ==> !request.affirmed)
            && (v.NotSupported? ==>
                 && request.affirmed && request.contents.Some?
                 && forall e :: e in allowlist ==>
                      e.count != |request.contents.value| || e.digest != sha(request.contents.value))
            && (!request.affirmed ==> v.NotAffirmed? || v.Corrupt? || v.InvalidState?)
            && (v.InvalidState? ==>
                 || request.read.ReadUnknown? || request.source.None? || !TextValid(request.source.value, 4096)
                 || allowlist == [] || exists e :: e in allowlist && !TextValid(e.version, 256))
  {
  }

  /** What a commit of an accepted import is to leave active. */
  function Stored(v: Verdict, sha: string -> Digest): Entry
    requires v.Accepted?
  {
    Pair(v.contents, Print(v.source, v.version, Hex(sha(v.contents))))
  }

  method ImportFirmware(store: LocalStore, request: Request, allowlist: seq<Allowed>, sha: string -> Digest)
    returns (o: Outcome)
    modifies store
    ensures var v := Decide(request, allowlist, sha);
            && (o.Done? ==> v.Accepted? && store.active == Stored(v, sha))
            && (!v.Accepted? ==> o.Raised? && store.active == old(store.active))
            && (v.Accepted? ==> Result(store.active, o) == Committing(
                  old(store.active), v.contents, Print(v.source, v.version, Hex(sha(v.contents))), old(store.answers)))
            && (v.Accepted? && old(store.active).Present? ==> store.active in {old(store.active), Stored(v, sha)})
            && (v.Accepted? && old(store.active).Odd? ==> !o.Done? && store.active == old(store.active))
            && (v.Accepted? && old(store.active).Missing? ==>
              store.active in {Missing, Stored(v, sha), Removed(Stored(v, sha), 1), Removed(Stored(v, sha), 2)})
  {
    var v := Decide(request, allowlist, sha);
    if !v.Accepted? {
      return Raised;
    }
    var digest := new char[65];
    Sha256Hex(sha(v.contents), digest);
    ghost var before, answers := store.active, store.answers;
    o := store.Commit(v.contents, Print(v.source, v.version, digest[..64]));
    CommittingIsSafe(before, v.contents, Print(v.source, v.version, digest[..64]), answers);
  }

  datatype Loaded = Loaded(firmware: string, version: string)

  function ReadFile(file: Option<string>): Option<string> {
    if file.Some? && 0 < |file.value| <= MAX_LOAD then file else None
  }

  predicate OnAllowlist(allowlist: seq<Allowed>, contents: string, version: string, sha: string -> Digest) {
    exists i :: 0 <= i < |allowlist| && allowlist[i] == Allowed(sha(contents), |contents|, version)
  }

  predicate DigestMatches(contents: string, text: Option<string>, sha: string -> Digest) {
    text.Some? && |text.value| == 64 && Hex(sha(contents)) == text.value
  }

  function Load(e: Entry, testDevice: bool, allowlist: seq<Allowed>, sha: string -> Digest): Option<Loaded> {
    if !e.Present? then None
    else
      var contents, metadata := ReadFile(e.generation.contents), ReadFile(e.generation.metadata);
      if contents.None? || metadata.None? then None
      else
        var version := Field(metadata.value, "version-build", VERSION_SIZE);
        if Field(metadata.value, "schema", 8) == Some("1")
           && Field(metadata.value, "affirmation", 64) == Some("lawful-acquisition")
           && version.Some?
           && DigestMatches(contents.value, Field(metadata.value, "sha256", 65), sha)
           && (testDevice || OnAllowlist(allowlist, contents.value, version.value, sha))
        then Some(Loaded(contents.value, version.value)) else None
  }

  /** What is loaded from any active place at all, torn or tampered with as it may be: exactly what is
      stored there, described as it has to be, under its own digest, and on the list. */
  lemma LoadsExactly(e: Entry, testDevice: bool, allowlist: seq<Allowed>, sha: string -> Digest, loaded: Loaded)
    ensures Load(e, testDevice, allowlist, sha) == Some(loaded) <==>
              && e.Present? && e.generation.contents == Some(loaded.firmware) && 0 < |loaded.firmware| <= 1048576
              && e.generation.metadata.Some?
              && var text := e.generation.metadata.value;
              && 0 < |text| <= 1048576
              && Field(text, "schema", 8) == Some("1") && Field(text, "affirmation", 64) == Some("lawful-acquisition")
              && Field(text, "version-build", 64) == Some(loaded.version)
              && Field(text, "sha256", 65) == Some(Hex(sha(loaded.firmware)))
              && (testDevice || Allowed(sha(loaded.firmware), |loaded.firmware|, loaded.version) in allowlist)
  {
  }

  /** The one file that production accepts: HPLIP's, of 128999 bytes, by its digest. */
  predicate Genuine(contents: string, sha: string -> Digest) {
    |contents| == 128999
    && sha(contents) ==
         [0x9a, 0x6d, 0x03, 0xc8, 0x58, 0xd9, 0xcf, 0x64, 0xba, 0x86, 0xfd, 0xbe, 0x6c, 0xf0, 0xbe, 0xec,
          0x12, 0x97, 0xd2, 0xe4, 0x5e, 0x60, 0x61, 0x62, 0xb1, 0x9f, 0x38, 0x57, 0xef, 0xae, 0x4f, 0xf4]
  }

  /** Nothing but the one listed file is ever loaded for a real printer. */
  lemma OnlyListedFirmwareLoads(e: Entry, sha: string -> Digest)
    ensures var r := Load(e, false, [PRODUCTION], sha);
            r.Some? ==> Genuine(r.value.firmware, sha) && r.value.version == "20080222"
  {
    var r := Load(e, false, [PRODUCTION], sha);
    if r.Some? {
      LoadsExactly(e, false, [PRODUCTION], sha, r.value);
      assert Allowed(sha(r.value.firmware), |r.value.firmware|, r.value.version) == [PRODUCTION][0];
    }
  }

  lemma HexIsText(digest: Digest)
    ensures TextValid(Hex(digest), 64)
  {
    var text := Hex(digest);
    forall i | 0 <= i < |text|
      ensures ' ' <= text[i] && text[i] != '\U{7f}'
    {
      assert IsHex(text[i]);
    }
  }

  /** An accepted import loads as exactly what was imported, with its version, if and only if it is small
      enough for the loader and its version fits the loader's buffer; otherwise it never loads. */
  lemma ImportThenLoad(request: Request, testDevice: bool, allowlist: seq<Allowed>, sha: string -> Digest)
    requires Decide(request, allowlist, sha).Accepted?
    ensures var v := Decide(request, allowlist, sha);
            Load(Stored(v, sha), testDevice, allowlist, sha) ==
              if |v.contents| <= MAX_LOAD && |v.version| < VERSION_SIZE then Some(Loaded(v.contents, v.version))
                else None
  {
    var v := Decide(request, allowlist, sha);
    var digest := sha(v.contents);
    HexIsText(digest);
    PrintedFieldsReadBack(v.source, v.version, Hex(digest));
    PrintFits(v.source, v.version, Hex(digest));
    var matched := Match(allowlist, |v.contents|, digest);
    var i :| 0 <= i < |allowlist| && allowlist[i] == matched.value;
    assert allowlist[i] == Allowed(digest, |v.contents|, v.version);
  }

  /** The one entry that production imports are checked against. */
  const PRODUCTION: Allowed := Allowed(
    [0x9a, 0x6d, 0x03, 0xc8, 0x58, 0xd9, 0xcf, 0x64, 0xba, 0x86, 0xfd, 0xbe, 0x6c, 0xf0, 0xbe, 0xec,
     0x12, 0x97, 0xd2, 0xe4, 0x5e, 0x60, 0x61, 0x62, 0xb1, 0x9f, 0x38, 0x57, 0xef, 0xae, 0x4f, 0xf4],
    128999, "20080222")

  /** Whatever passes the production list loads again. */
  lemma ProductionImportLoads(request: Request, sha: string -> Digest)
    requires Decide(request, [PRODUCTION], sha).Accepted?
    ensures var v := Decide(request, [PRODUCTION], sha);
            Load(Stored(v, sha), false, [PRODUCTION], sha) == Some(Loaded(v.contents, "20080222"))
            && |v.contents| == 128999
  {
    ImportThenLoad(request, false, [PRODUCTION], sha);
  }

  /** A list may name a version that imports and never loads: 64 characters are enough. */
  lemma LongVersionNeverLoads(sha: string -> Digest)
    ensures var request := Request(Some("firmware"), Some("disk"), true, ReadComplete);
            var allowlist := [Allowed(sha("firmware"), 8, seq(64, _ => '1'))];
            var v := Decide(request, allowlist, sha);
            v.Accepted? && Load(Stored(v, sha), true, allowlist, sha).None?
  {
    var request := Request(Some("firmware"), Some("disk"), true, ReadComplete);
    var allowlist := [Allowed(sha("firmware"), 8, seq(64, _ => '1'))];
    assert |"firmware"| == 8;
    assert TextValid("disk", 4096) && TextValid(allowlist[0].version, 256);
    assert Decide(request, allowlist, sha).version == allowlist[0].version;
    ImportThenLoad(request, true, allowlist, sha);
  }

  /** Whatever failures and interruptions came before, firmware that loads is that of one import, under the
      version that was imported with it. */
  lemma LoadedIsOneImport(e: Entry, imports: seq<Import>, testDevice: bool,
          allowlist: seq<Allowed>, sha: string -> Digest)
    requires Unmixed(e, imports)
    ensures var loaded := Load(e, testDevice, allowlist, sha);
            loaded.Some? ==>
              exists i :: 0 <= i < |imports|
                && imports[i].contents == loaded.value.firmware
                && Field(imports[i].metadata, "version-build", VERSION_SIZE) == Some(loaded.value.version)
  {
    if OneOf(e, imports) {
      var i :| 0 <= i < |imports| && e == Pair(imports[i].contents, imports[i].metadata);
      assert imports[i].contents == e.generation.contents.value;
    }
  }
}
