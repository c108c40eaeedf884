/** The release manifest: the text the release tooling writes and the strict reader of the
    updater, line by line. */
module ReleaseManifest {
  import opened Basics

  const FORMAT: string := "denju-release-manifest-v1"
  const SERVER_IMAGE: string := "ghcr.io/amxv/denju-server:v"
  const MAX_SIZE: nat := 0x1_0000_0000_0000_0000

  const CLIENT_ASSETS: seq<string> := [
    "denju_darwin_amd64", "denju_darwin_arm64", "denju_linux_amd64",
    "denju_linux_arm64", "denju_windows_amd64.exe", "denju_windows_arm64.exe"]

  type Bytes = seq<bv8>

  /** Digest of a file, as lower-case hexadecimal text. */
  type Sha = Bytes -> string

  datatype Asset = Asset(sha: string, size: nat)

  datatype Manifest = Manifest(version: string, assets: map<string, Asset>)

  // ----- characters ----------------------------------------------------------------------

  predicate IsDigit(c: char) { '0' <= c <= '9' }

  predicate IsHex(c: char) { IsDigit(c) || 'a' <= c <= 'f' || 'A' <= c <= 'F' }

  predicate IsLetter(c: char) { 'a' <= c <= 'z' || 'A' <= c <= 'Z' }

  function Lower(c: char): char {
    if 'A' <= c <= 'Z' then (c as int + 32) as char else c
  }

  function LowerAll(s: string): string {
    seq(|s|, i requires 0 <= i < |s| => Lower(s[i]))
  }

  predicate ValidVersion(version: string) {
    0 < |version| <= 64
        && forall i | 0 <= i < |version| :: IsLetter(version[i]) || IsDigit(version[i]) || version[i] in {'.', '-', '+'}
  }

  predicate ValidSha(sha: string) {
    |sha| == 64 && forall i | 0 <= i < |sha| :: IsHex(sha[i])
  }

  // ----- numbers ----------------------------------------------------------------------------

  function Digit(n: nat): char
    requires n < 10
  {
    ('0' as int + n) as char
  }

  function Show(n: nat): (s: string)
    ensures s != [] && forall i :: 0 <= i < |s| ==> IsDigit(s[i])
  {
    if n < 10 then [Digit(n)] else Show(n / 10) + [Digit(n % 10)]
  }

  function Value(s: string): Option<nat> {
    if s == [] then Some(0) else
      var n := |s| - 1;
      var high := Value(s[..n]);
      if IsDigit(s[n]) && high.Some? then Some(high.value * 10 + (s[n] as int - '0' as int)) else None
  }

  /** `parse::<u64>`: an optional plus sign, at least one digit, in range. */
  function ParseSize(s: string): Option<nat> {
    var digits := if s != [] && s[0] == '+' then s[1..] else s;
    if digits == [] then None
    else if Value(digits).Some? && Value(digits).value < MAX_SIZE then Value(digits) else None
  }

  lemma {:induction false} ValueOfShow(n: nat)
    ensures Value(Show(n)) == Some(n)
  {
    if n >= 10 {
      ValueOfShow(n / 10);
      assert (Show(n / 10) + [Digit(n % 10)])[..|Show(n / 10)|] == Show(n / 10);
    } else {
      assert [Digit(n)][..0] == [];
      assert Value([]) == Some(0);
    }
  }

  lemma SizeRoundTrips(n: nat)
    requires n < MAX_SIZE
    ensures ParseSize(Show(n)) == Some(n)
  {
    ValueOfShow(n);
  }

  // ----- lines and fields ---------------------------------------------------------------------

  /** `lines`: what stands between line feeds. A carriage return before one is white space. */
  function Lines(text: string): seq<string>
    decreases |text|
  {
    if text == [] then [] else
      var end := LineEnd(text);
      [text[..end]] + (if end == |text| then [] else Lines(text[end + 1..]))
  }

  function LineEnd(text: string): (end: nat)
    ensures end <= |text| && (end < |text| ==> text[end] == '\n')
    ensures forall i :: 0 <= i < end ==> text[i] != '\n'
  {
    if text == [] || text[0] == '\n' then 0 else 1 + LineEnd(text[1..])
  }

  function WordEnd(s: string): (end: nat)
    ensures end <= |s| && (end < |s| ==> IsWhite(s[end]))
    ensures forall i :: 0 <= i < end ==> !IsWhite(s[i])
  {
    if s == [] || IsWhite(s[0]) then 0 else 1 + WordEnd(s[1..])
  }

  /** `split_whitespace`. A line is blank exactly when it has no fields. */
  function Fields(line: string): seq<string>
    decreases |line|
  {
    if line == [] then []
    else if IsWhite(line[0]) then Fields(line[1..])
    else
      var end := WordEnd(line);
      [line[..end]] + Fields(line[end..])
  }

  predicate IsWord(s: string) {
    s != [] && forall i | 0 <= i < |s| :: !IsWhite(s[i])
  }

  function Spaced(fields: seq<string>): string {
    if fields == [] then [] else if |fields| == 1 then fields[0] else fields[0] + " " + Spaced(fields[1..])
  }

  lemma WordEndOf(word: string, rest: string)
    requires IsWord(word) && (rest != [] ==> IsWhite(rest[0]))
    ensures WordEnd(word + rest) == |word|
  {
    var s := word + rest;
    assert forall i :: 0 <= i < |word| ==> s[i] == word[i];
    assert rest != [] ==> s[|word|] == rest[0];
  }

  lemma {:induction false} FieldsOfSpaced(fields: seq<string>)
    requires forall f :: f in fields ==> IsWord(f)
    ensures Fields(Spaced(fields)) == fields
    decreases |fields|
  {
    if fields != [] {
      var tail := Spaced(fields)[|fields[0]|..];
      if |fields| == 1 {
        WordEndOf(fields[0], []);
        assert fields[0] + [] == fields[0] && fields[0][..|fields[0]|] == fields[0] && fields[0][|fields[0]|..] == [];
        assert Fields([]) == [];
      } else {
        var rest := " " + Spaced(fields[1..]);
        assert Spaced(fields) == fields[0] + rest;
        WordEndOf(fields[0], rest);
        assert (fields[0] + rest)[..|fields[0]|] == fields[0] && (fields[0] + rest)[|fields[0]|..] == rest;
        assert rest[1..] == Spaced(fields[1..]);
        FieldsOfSpaced(fields[1..]);
      }
    }
  }

  /** Every line ended by a line feed. */
  function Ended(lines: seq<string>): string {
    if lines == [] then [] else lines[0] + "\n" + Ended(lines[1..])
  }

  predicate OneLine(s: string) {
    forall i | 0 <= i < |s| :: s[i] != '\n'
  }

  lemma LineEndOf(line: string, rest: string)
    requires OneLine(line)
    ensures LineEnd(line + ("\n" + rest)) == |line|
  {
    var s := line + ("\n" + rest);
    assert forall i :: 0 <= i < |line| ==> s[i] == line[i];
    assert s[|line|] == '\n';
  }

  lemma {:induction false} LinesOfEnded(lines: seq<string>)
    requires forall l :: l in lines ==> OneLine(l)
    ensures Lines(Ended(lines)) == lines
    decreases |lines|
  {
    if lines != [] {
      var rest := "\n" + Ended(lines[1..]);
      var text := lines[0] + rest;
      assert Ended(lines) == text;
      LineEndOf(lines[0], Ended(lines[1..]));
      assert text[..|lines[0]|] == lines[0] && text[|lines[0]| + 1..] == Ended(lines[1..]);
      LinesOfEnded(lines[1..]);
    }
  }

  lemma {:induction false} SpacedIsOneLine(fields: seq<string>)
    requires forall f :: f in fields ==> IsWord(f)
    ensures OneLine(Spaced(fields))
    decreases |fields|
  {
    if fields != [] {
      assert IsWhite('\n') && fields[0] in fields;
      forall i | 0 <= i < |fields[0]| ensures fields[0][i] != '\n' {
        assert !IsWhite(fields[0][i]);
      }
      if |fields| > 1 { SpacedIsOneLine(fields[1..]); }
    }
  }

  // ----- reading -------------------------------------------------------------------------------

  datatype Reading = Reading(format: Option<string>, version: Option<string>, assets: map<string, Asset>,
                             image: Option<string>)

  function Start(): Reading { Reading(None, None, map[], None) }

  /** One non-blank line. None is the error of a duplicated, unsupported or malformed line. */
  function ReadLine(r: Reading, fields: seq<string>): Option<Reading> {
    if |fields| == 2 && fields[0] == "format" then
      if r.format.Some? then None else Some(r.(format := Some(fields[1])))
    else if |fields| == 2 && fields[0] == "version" then
      if r.version.Some? then None else Some(r.(version := Some(fields[1])))
    else if |fields| == 4 && fields[0] == "asset" then
      if fields[1] !in CLIENT_ASSETS || fields[1] in r.assets || !ValidSha(fields[2]) || ParseSize(fields[3]).None? then
        None
      else Some(r.(assets := r.assets[fields[1] := Asset(LowerAll(fields[2]), ParseSize(fields[3]).value)]))
    else if |fields| == 2 && fields[0] == "server_image" then
      if r.image.Some? then None else Some(r.(image := Some(fields[1])))
    else None
  }

  function ReadLines(r: Reading, lines: seq<seq<string>>): Option<Reading>
    decreases |lines|
  {
    if lines == [] then Some(r)
    else match ReadLine(r, lines[0])
      case None => None
      case Some(next) => ReadLines(next, lines[1..])
  }

  /** What must hold when all lines are read. */
  function Finish(r: Reading): Option<Manifest> {
    if r.format != Some(FORMAT) || r.version.None? || !ValidVersion(r.version.value) then None
    else if |r.assets| != |CLIENT_ASSETS| || exists name | name in CLIENT_ASSETS :: name !in r.assets then None
    else if r.image != Some(SERVER_IMAGE + r.version.value) then None
    else Some(Manifest(r.version.value, r.assets))
  }

  function Parsed(lines: seq<seq<string>>): Option<Manifest> {
    match ReadLines(Start(), lines)
    case None => None
    case Some(r) => Finish(r)
  }

  /** The non-blank lines of a text, as fields. */
  function FieldLines(lines: seq<string>): seq<seq<string>> {
    if lines == [] then [] else
      var fields := Fields(lines[0]);
      (if fields == [] then [] else [fields]) + FieldLines(lines[1..])
  }

  function ParseText(text: string): Option<Manifest> {
    Parsed(FieldLines(Lines(text)))
  }

  /** `parse_manifest`: a loop over the lines that fills the four parts. */
  method ParseManifest(text: string) returns (manifest: Option<Manifest>)
    ensures manifest == ParseText(text)
  {
    var lines := Lines(text);
    var r := Start();
    assert lines[0..] == lines;
    for i := 0 to |lines|
      invariant ParseText(text)
                == match ReadLines(r, FieldLines(lines[i..])) case None => None case Some(last) => Finish(last)
    {
      assert lines[i..][1..] == lines[i + 1..];
      var fields := Fields(lines[i]);
      assert [] + FieldLines(lines[i + 1..]) == FieldLines(lines[i + 1..]);
      if fields != [] {
        assert ([fields] + FieldLines(lines[i + 1..]))[1..] == FieldLines(lines[i + 1..]);
        var next := ReadLine(r, fields);
        if next.None? { return None; }
        r := next.value;
      }
    }
    assert lines[|lines|..] == [];
    manifest := Finish(r);
  }

  // ----- strictness ----------------------------------------------------------------------------

  function Filled(r: Reading): nat {
    (if r.format.Some? then 1 else 0) + (if r.version.Some? then 1 else 0) + |r.assets|
    + (if r.image.Some? then 1 else 0)
  }

  lemma LineFillsOne(r: Reading, fields: seq<string>)
    requires ReadLine(r, fields).Some?
    ensures Filled(ReadLine(r, fields).value) == Filled(r) + 1
  {
  }

  lemma {:induction false} EveryLineFillsOne(r: Reading, lines: seq<seq<string>>)
    requires ReadLines(r, lines).Some?
    ensures Filled(ReadLines(r, lines).value) == Filled(r) + |lines|
    decreases |lines|
  {
    hide ReadLine, Filled;
    if lines != [] {
      LineFillsOne(r, lines[0]);
      EveryLineFillsOne(ReadLine(r, lines[0]).value, lines[1..]);
    }
  }

  /** An accepted manifest has nine non-blank lines: dropping, repeating or adding any one makes
      it unacceptable. */
  lemma AcceptedHasNineLines(lines: seq<seq<string>>)
    requires Parsed(lines).Some?
    ensures |lines| == 9
  {
    EveryLineFillsOne(Start(), lines);
  }

  lemma AnyOtherLineIsRejected(lines: seq<seq<string>>, i: nat, extra: seq<string>)
    requires Parsed(lines).Some?
    ensures i < |lines| ==> Parsed(lines[..i] + lines[i + 1..]).None?
    ensures i <= |lines| ==> Parsed(lines[..i] + [extra] + lines[i..]).None?
  {
    AcceptedHasNineLines(lines);
    if i < |lines| && Parsed(lines[..i] + lines[i + 1..]).Some? {
      AcceptedHasNineLines(lines[..i] + lines[i + 1..]);
    }
    if i <= |lines| && Parsed(lines[..i] + [extra] + lines[i..]).Some? {
      AcceptedHasNineLines(lines[..i] + [extra] + lines[i..]);
    }
  }

  // ----- order -----------------------------------------------------------------------------------

  lemma LinesCommute(r: Reading, a: seq<string>, b: seq<string>)
    ensures ReadLines(r, [a, b]) == ReadLines(r, [b, a])
  {
    ReadTwo(r, a, b);
    ReadTwo(r, b, a);
    var ab, ba := ReadLines(r, [a, b]), ReadLines(r, [b, a]);
    if ab.Some? && ba.Some? {
      assert ab.value.assets == ba.value.assets;
    }
  }

  lemma ReadTwo(r: Reading, a: seq<string>, b: seq<string>)
    ensures ReadLines(r, [a, b]) == match ReadLine(r, a) case None => None case Some(next) => ReadLine(next, b)
  {
    assert [a, b][1..] == [b] && [b][1..] == [];
    if ReadLine(r, a).Some? {
      var next := ReadLine(r, a).value;
      assert ReadLines(r, [a, b]) == ReadLines(next, [b]);
      assert ReadLine(next, b).Some? ==> ReadLines(ReadLine(next, b).value, []) == ReadLine(next, b);
    }
  }

  lemma {:induction false} ReadAppend(r: Reading, a: seq<seq<string>>, b: seq<seq<string>>)
    ensures ReadLines(r, a + b) == match ReadLines(r, a) case None => None case Some(next) => ReadLines(next, b)
    decreases |a|
  {
    if a == [] {
      assert a + b == b;
    } else {
      assert (a + b)[1..] == a[1..] + b;
      if ReadLine(r, a[0]).Some? { ReadAppend(ReadLine(r, a[0]).value, a[1..], b); }
    }
  }

  /** A line can be read first instead of where it stands. */
  lemma {:induction false} ReadFirst(r: Reading, before: seq<seq<string>>, line: seq<string>, after: seq<seq<string>>)
    ensures ReadLines(r, before + [line] + after) == ReadLines(r, [line] + (before + after))
    decreases |before|
  {
    if before == [] {
      assert before + [line] + after == [line] + (before + after);
    } else {
      var head, rest := before[0], before[1..];
      assert before + [line] + after == [head] + (rest + [line] + after);
      assert [line] + (before + after) == [line, head] + (rest + after);
      assert [head, line] + (rest + after) == [head] + ([line] + (rest + after));
      ReadAppend(r, [head], rest + [line] + after);
      ReadAppend(r, [head], [line] + (rest + after));
      if ReadLines(r, [head]).Some? { ReadFirst(ReadLines(r, [head]).value, rest, line, after); }
      ReadAppend(r, [head, line], rest + after);
      ReadAppend(r, [line, head], rest + after);
      LinesCommute(r, head, line);
    }
  }

  /** The order of the lines does not matter. */
  lemma {:induction false} OrderDoesNotMatter(r: Reading, a: seq<seq<string>>, b: seq<seq<string>>)
    requires multiset(a) == multiset(b)
    ensures ReadLines(r, a) == ReadLines(r, b)
    decreases |a|
  {
    if a == [] {
      assert |multiset(b)| == 0;
    } else {
      assert a[0] in multiset(b);
      var k :| 0 <= k < |b| && b[k] == a[0];
      assert b == b[..k] + [b[k]] + b[k + 1..];
      ReadFirst(r, b[..k], b[k], b[k + 1..]);
      var rest := b[..k] + b[k + 1..];
      assert a == [a[0]] + a[1..];
      assert multiset(a[1..]) == multiset(a) - multiset{a[0]};
      assert multiset(rest) == multiset(b) - multiset{b[k]};
      assert ([b[k]] + rest)[1..] == rest;
      if ReadLine(r, a[0]).Some? { OrderDoesNotMatter(ReadLine(r, a[0]).value, a[1..], rest); }
    }
  }

  lemma ReorderedManifest(a: seq<seq<string>>, b: seq<seq<string>>)
    requires multiset(a) == multiset(b)
    ensures Parsed(a) == Parsed(b)
  {
    OrderDoesNotMatter(Start(), a, b);
  }

  // ----- writing -----------------------------------------------------------------------------------

  /** The files to publish. */
  type Files = map<string, Bytes>

  function AssetLine(name: string, bytes: Bytes, sha: Sha): seq<string> {
    ["asset", name, sha(bytes), Show(|bytes|)]
  }

  /** The manifest, line by line, as fields. */
  function ManifestLines(version: string, files: Files, sha: Sha): seq<seq<string>>
    requires forall name :: name in CLIENT_ASSETS ==> name in files
  {
    [["format", FORMAT], ["version", version]]
    + seq(|CLIENT_ASSETS|,
          i requires 0 <= i < |CLIENT_ASSETS| => AssetLine(CLIENT_ASSETS[i], files[CLIENT_ASSETS[i]], sha))
    + [["server_image", SERVER_IMAGE + version]]
  }

  function SpacedAll(lines: seq<seq<string>>): seq<string> {
    seq(|lines|, i requires 0 <= i < |lines| => Spaced(lines[i]))
  }

  function ManifestText(version: string, files: Files, sha: Sha): string
    requires forall name :: name in CLIENT_ASSETS ==> name in files
  {
    Ended(SpacedAll(ManifestLines(version, files, sha)))
  }

  function ChecksumLine(name: string, bytes: Bytes, sha: Sha): string {
    sha(bytes) + "  " + name
  }

  lemma {:induction false} EndedSnoc(lines: seq<string>, line: string)
    ensures Ended(lines + [line]) == Ended(lines) + (line + "\n")
    decreases |lines|
  {
    if lines == [] {
      assert [] + [line] == [line] && [line][1..] == [];
      assert Ended([]) == [];
      assert line + "\n" + [] == line + "\n";
    } else {
      assert (lines + [line])[1..] == lines[1..] + [line];
      EndedSnoc(lines[1..], line);
    }
  }

  function Sums(files: Files, sha: Sha, n: nat): seq<string>
    requires n <= |CLIENT_ASSETS| && forall k :: 0 <= k < n ==> CLIENT_ASSETS[k] in files
  {
    seq(n, i requires 0 <= i < n => ChecksumLine(CLIENT_ASSETS[i], files[CLIENT_ASSETS[i]], sha))
  }

  /** The first lines of the manifest: its head, and `n` assets. */
  function Front(version: string, files: Files, sha: Sha, n: nat): seq<string>
    requires n <= |CLIENT_ASSETS| && forall k :: 0 <= k < n ==> CLIENT_ASSETS[k] in files
  {
    [Spaced(["format", FORMAT]), Spaced(["version", version])]
    + seq(n, i requires 0 <= i < n => Spaced(AssetLine(CLIENT_ASSETS[i], files[CLIENT_ASSETS[i]], sha)))
  }

  lemma OneMoreLine(version: string, files: Files, sha: Sha, n: nat)
    requires n < |CLIENT_ASSETS| && forall k :: 0 <= k <= n ==> CLIENT_ASSETS[k] in files
    ensures var name := CLIENT_ASSETS[n];
            && Ended(Front(version, files, sha, n + 1)) ==
                 Ended(Front(version, files, sha, n)) + (Spaced(AssetLine(name, files[name], sha)) + "\n")
            && Ended(Sums(files, sha, n + 1))
                == Ended(Sums(files, sha, n)) + (ChecksumLine(name, files[name], sha) + "\n")
  {
    var name := CLIENT_ASSETS[n];
    EndedSnoc(Front(version, files, sha, n), Spaced(AssetLine(name, files[name], sha)));
    EndedSnoc(Sums(files, sha, n), ChecksumLine(name, files[name], sha));
    assert Front(version, files, sha, n + 1)
        == Front(version, files, sha, n) + [Spaced(AssetLine(name, files[name], sha))];
    assert Sums(files, sha, n + 1) == Sums(files, sha, n) + [ChecksumLine(name, files[name], sha)];
  }

  lemma WholeText(version: string, files: Files, sha: Sha)
    requires forall name :: name in CLIENT_ASSETS ==> name in files
    ensures ManifestText(version, files, sha) ==
            Ended(Front(version, files, sha, |CLIENT_ASSETS|))
            + (Spaced(["server_image", SERVER_IMAGE + version]) + "\n")
  {
    var image := Spaced(["server_image", SERVER_IMAGE + version]);
    EndedSnoc(Front(version, files, sha, |CLIENT_ASSETS|), image);
    assert SpacedAll(ManifestLines(version, files, sha)) == Front(version, files, sha, |CLIENT_ASSETS|) + [image];
  }

  /** `write_manifest`: both texts grow in one loop over the assets; a missing file is an error. */
  method WriteManifest(version: string, files: Files, sha: Sha) returns (written: Option<(string, string)>)
    ensures written.Some? <==> forall name :: name in CLIENT_ASSETS ==> name in files
    ensures written.Some? ==>
              && written.value.0 == ManifestText(version, files, sha)
              && written.value.1 == Ended(Sums(files, sha, |CLIENT_ASSETS|))
  {
    hide Ended, Spaced, ManifestText, AssetLine, ChecksumLine;
    var manifest := "format " + FORMAT + "\n" + "version " + version + "\n";
    var checksums := "";
    HeadText(version, files, sha);
    for i := 0 to |CLIENT_ASSETS|
      invariant forall k :: 0 <= k < i ==> CLIENT_ASSETS[k] in files
      invariant manifest == Ended(Front(version, files, sha, i)) && checksums == Ended(Sums(files, sha, i))
    {
      var name := CLIENT_ASSETS[i];
      if name !in files { return None; }
      OneMoreLine(version, files, sha, i);
      manifest := manifest + (Spaced(AssetLine(name, files[name], sha)) + "\n");
      checksums := checksums + (ChecksumLine(name, files[name], sha) + "\n");
    }
    WholeText(version, files, sha);
    manifest := manifest + (Spaced(["server_image", SERVER_IMAGE + version]) + "\n");
    written := Some((manifest, checksums));
  }

  lemma HeadText(version: string, files: Files, sha: Sha)
    ensures "format " + FORMAT + "\n" + "version " + version + "\n" == Ended(Front(version, files, sha, 0))
    ensures Ended(Sums(files, sha, 0)) == ""
  {
    SpacedTwo("format", FORMAT);
    SpacedTwo("version", version);
    var a, b := Spaced(["format", FORMAT]), Spaced(["version", version]);
    assert [a, b] == ([] + [a]) + [b];
    EndedSnoc([], a);
    EndedSnoc([] + [a], b);
    assert Ended([]) == [];
    assert "format" + " " == "format " && "version" + " " == "version ";
    assert Front(version, files, sha, 0) == [a, b];
  }

  lemma SpacedTwo(a: string, b: string)
    ensures Spaced([a, b]) == a + " " + b
  {
    assert [a, b][1..] == [b];
  }

  // ----- the round trip -----------------------------------------------------------------------------

  ghost predicate IsDigest(sha: Sha) {
    forall bytes :: ValidSha(sha(bytes)) && LowerAll(sha(bytes)) == sha(bytes)
  }

  /** `verify_asset`. */
  predicate Verifies(asset: Asset, bytes: Bytes, sha: Sha) {
    |bytes| == asset.size && sha(bytes) == asset.sha
  }

  lemma NamesDiffer(i: nat, j: nat)
    requires i < j < |CLIENT_ASSETS|
    ensures CLIENT_ASSETS[i] != CLIENT_ASSETS[j]
  {
    assert "denju_darwin_amd64"[13] != "denju_darwin_arm64"[13] || "denju_darwin_amd64"[14] != "denju_darwin_arm64"[14];
    assert "denju_linux_amd64"[12] != "denju_linux_arm64"[12] || "denju_linux_amd64"[13] != "denju_linux_arm64"[13];
    assert "denju_windows_amd64.exe"[14] != "denju_windows_arm64.exe"[14]
        || "denju_windows_amd64.exe"[15] != "denju_windows_arm64.exe"[15];
  }

  lemma NamesAreWords(i: nat)
    requires i < |CLIENT_ASSETS|
    ensures IsWord(CLIENT_ASSETS[i])
  {
    var name := CLIENT_ASSETS[i];
    forall k | 0 <= k < |name| ensures !IsWhite(name[k]) {
      assert IsLetter(name[k]) || IsDigit(name[k]) || name[k] in {'_', '.'};
    }
  }

  lemma HexIsWord(s: string)
    requires ValidSha(s)
    ensures IsWord(s)
  {
    forall i | 0 <= i < |s| ensures !IsWhite(s[i]) {
      assert IsHex(s[i]);
    }
  }

  lemma NumberIsWord(n: nat)
    ensures IsWord(Show(n))
  {
    forall i | 0 <= i < |Show(n)| ensures !IsWhite(Show(n)[i]) {
      assert IsDigit(Show(n)[i]);
    }
  }

  lemma VersionIsWord(version: string)
    requires ValidVersion(version)
    ensures IsWord(version) && IsWord(SERVER_IMAGE + version)
  {
    forall i | 0 <= i < |version| ensures !IsWhite(version[i]) {
      assert IsLetter(version[i]) || IsDigit(version[i]) || version[i] in {'.', '-', '+'};
    }
    forall i | 0 <= i < |SERVER_IMAGE| ensures !IsWhite(SERVER_IMAGE[i]) {
    }
    forall i | 0 <= i < |SERVER_IMAGE + version| ensures !IsWhite((SERVER_IMAGE + version)[i]) {
    }
  }

  ghost predicate AllWords(lines: seq<seq<string>>) {
    forall k :: 0 <= k < |lines| ==> lines[k] != [] && forall f :: f in lines[k] ==> IsWord(f)
  }

  lemma LiteralsAreWords()
    ensures IsWord("format") && IsWord("version") && IsWord("asset") && IsWord("server_image") && IsWord(FORMAT)
  {
  }

  lemma AssetLineIsWords(i: nat, bytes: Bytes, sha: Sha)
    requires i < |CLIENT_ASSETS| && IsDigest(sha)
    ensures forall f :: f in AssetLine(CLIENT_ASSETS[i], bytes, sha) ==> IsWord(f)
  {
    hide IsWord;
    LiteralsAreWords();
    NamesAreWords(i);
    HexIsWord(sha(bytes));
    NumberIsWord(|bytes|);
  }

  lemma ManifestIsWords(version: string, files: Files, sha: Sha)
    requires ValidVersion(version) && IsDigest(sha) && forall name :: name in CLIENT_ASSETS ==> name in files
    ensures AllWords(ManifestLines(version, files, sha))
  {
    hide IsWord, IsDigest, ValidVersion;
    var lines := ManifestLines(version, files, sha);
    VersionIsWord(version);
    LiteralsAreWords();
    forall k | 0 <= k < |lines| ensures lines[k] != [] && forall f :: f in lines[k] ==> IsWord(f) {
      if 2 <= k < 2 + |CLIENT_ASSETS| {
        var name := CLIENT_ASSETS[k - 2];
        AssetLineIsWords(k - 2, files[name], sha);
        assert lines[k] == AssetLine(name, files[name], sha);
      }
    }
  }

  lemma {:induction false} FieldsOfAll(lines: seq<seq<string>>)
    requires AllWords(lines)
    ensures FieldLines(SpacedAll(lines)) == lines
    decreases |lines|
  {
    if lines != [] {
      assert lines[0] != [] && forall f :: f in lines[0] ==> IsWord(f);
      FieldsOfSpaced(lines[0]);
      assert SpacedAll(lines)[1..] == SpacedAll(lines[1..]);
      FieldsOfAll(lines[1..]);
    }
  }

  /** The text is read back as the lines it was written from. */
  lemma TextReadsBack(lines: seq<seq<string>>)
    requires AllWords(lines)
    ensures FieldLines(Lines(Ended(SpacedAll(lines)))) == lines
  {
    forall l | l in SpacedAll(lines) ensures OneLine(l) {
      var k :| 0 <= k < |lines| && SpacedAll(lines)[k] == l;
      SpacedIsOneLine(lines[k]);
    }
    LinesOfEnded(SpacedAll(lines));
    FieldsOfAll(lines);
  }

  function AssetsFrom(files: Files, sha: Sha, n: nat): map<string, Asset>
    requires n <= |CLIENT_ASSETS| && forall name :: name in CLIENT_ASSETS ==> name in files
  {
    map name | name in CLIENT_ASSETS[..n] :: Asset(sha(files[name]), |files[name]|)
  }

  function AssetLines(files: Files, sha: Sha, n: nat): seq<seq<string>>
    requires n <= |CLIENT_ASSETS| && forall name :: name in CLIENT_ASSETS ==> name in files
  {
    seq(n, i requires 0 <= i < n => AssetLine(CLIENT_ASSETS[i], files[CLIENT_ASSETS[i]], sha))
  }

  lemma AssetReads(r: Reading, name: string, bytes: Bytes, sha: Sha)
    requires name in CLIENT_ASSETS && name !in r.assets && IsDigest(sha) && |bytes| < MAX_SIZE
    ensures ReadLine(r, AssetLine(name, bytes, sha)) == Some(r.(assets := r.assets[name := Asset(sha(bytes), |bytes|)]))
  {
    SizeRoundTrips(|bytes|);
    assert ValidSha(sha(bytes));
  }

  lemma OneMoreAsset(files: Files, sha: Sha, n: nat)
    requires n < |CLIENT_ASSETS| && forall name :: name in CLIENT_ASSETS ==> name in files
    ensures var name := CLIENT_ASSETS[n];
            && name !in AssetsFrom(files, sha, n)
            && AssetsFrom(files, sha, n + 1)
                == AssetsFrom(files, sha, n)[name := Asset(sha(files[name]), |files[name]|)]
            && AssetLines(files, sha, n + 1) == AssetLines(files, sha, n) + [AssetLine(name, files[name], sha)]
  {
    var name := CLIENT_ASSETS[n];
    forall i | 0 <= i < n ensures CLIENT_ASSETS[i] != name { NamesDiffer(i, n); }
    assert CLIENT_ASSETS[..n + 1] == CLIENT_ASSETS[..n] + [name];
  }

  lemma {:induction false} AssetsReadBack(r: Reading, files: Files, sha: Sha, n: nat)
    requires n <= |CLIENT_ASSETS| && IsDigest(sha) && r.assets == map[]
    requires forall name :: name in CLIENT_ASSETS ==> name in files && |files[name]| < MAX_SIZE
    ensures ReadLines(r, AssetLines(files, sha, n)) == Some(r.(assets := AssetsFrom(files, sha, n)))
    ensures |AssetsFrom(files, sha, n)| == n
  {
    hide ReadLine, IsDigest, ReadLines, AssetsFrom, AssetLines, AssetLine;
    if n == 0 {
      NoAssets(r, files, sha);
    } else {
      AssetsReadBack(r, files, sha, n - 1);
      NextReadsBack(r, files, sha, n - 1);
    }
  }

  lemma NoAssets(r: Reading, files: Files, sha: Sha)
    requires forall name :: name in CLIENT_ASSETS ==> name in files
    ensures r.assets == map[] ==>
              ReadLines(r, AssetLines(files, sha, 0)) == Some(r.(assets := AssetsFrom(files, sha, 0)))
    ensures |AssetsFrom(files, sha, 0)| == 0
  {
    assert AssetsFrom(files, sha, 0) == map[] && AssetLines(files, sha, 0) == [];
  }

  lemma NextReadsBack(r: Reading, files: Files, sha: Sha, n: nat)
    requires n < |CLIENT_ASSETS| && IsDigest(sha)
    requires forall name :: name in CLIENT_ASSETS ==> name in files && |files[name]| < MAX_SIZE
    requires |AssetsFrom(files, sha, n)| == n
    requires ReadLines(r, AssetLines(files, sha, n)) == Some(r.(assets := AssetsFrom(files, sha, n)))
    ensures ReadLines(r, AssetLines(files, sha, n + 1)) == Some(r.(assets := AssetsFrom(files, sha, n + 1)))
    ensures |AssetsFrom(files, sha, n + 1)| == n + 1
  {
    hide ReadLine, IsDigest, ReadLines, AssetsFrom, AssetLines, AssetLine;
    var name := CLIENT_ASSETS[n];
    var line := AssetLine(name, files[name], sha);
    OneMoreAsset(files, sha, n);
    ReadAppend(r, AssetLines(files, sha, n), [line]);
    var was := r.(assets := AssetsFrom(files, sha, n));
    AssetReads(was, name, files[name], sha);
    ReadOne(was, line);
  }

  lemma ReadOne(r: Reading, line: seq<string>)
    ensures ReadLines(r, [line]) == ReadLine(r, line)
  {
    assert [line][1..] == [];
  }

  /** What is written is read back: the version, and for each asset the digest and size that its
      bytes verify against. */
  lemma ManifestRoundTrips(version: string, files: Files, sha: Sha)
    requires ValidVersion(version) && IsDigest(sha)
    requires forall name :: name in CLIENT_ASSETS ==> name in files && |files[name]| < MAX_SIZE
    ensures var m := ParseText(ManifestText(version, files, sha));
            && m.Some? && m.value.version == version
            && (forall name :: name in m.value.assets <==> name in CLIENT_ASSETS)
            && forall name :: name in CLIENT_ASSETS ==> Verifies(m.value.assets[name], files[name], sha)
  {
    ManifestIsWords(version, files, sha);
    TextReadsBack(ManifestLines(version, files, sha));
    ManifestReads(version, files, sha);
    hide ReadLines, ManifestLines, AllWords, IsDigest;
    assert CLIENT_ASSETS[..|CLIENT_ASSETS|] == CLIENT_ASSETS;
  }

  lemma HeadReads(version: string)
    ensures ReadLines(Start(), [["format", FORMAT], ["version", version]])
            == Some(Reading(Some(FORMAT), Some(version), map[], None))
  {
    ReadTwo(Start(), ["format", FORMAT], ["version", version]);
    assert "version" != "format";
  }

  lemma ImageReads(r: Reading, image: string)
    requires r.image.None?
    ensures ReadLine(r, ["server_image", image]) == Some(r.(image := Some(image)))
  {
    assert "server_image" != "format" && "server_image" != "version";
  }

  lemma ManifestReads(version: string, files: Files, sha: Sha)
    requires ValidVersion(version) && IsDigest(sha)
    requires forall name :: name in CLIENT_ASSETS ==> name in files && |files[name]| < MAX_SIZE
    ensures Parsed(ManifestLines(version, files, sha))
            == Some(Manifest(version, AssetsFrom(files, sha, |CLIENT_ASSETS|)))
  {
    hide ReadLine, ReadLines, IsDigest, ValidVersion;
    var lines := ManifestLines(version, files, sha);
    var head, image := [["format", FORMAT], ["version", version]], ["server_image", SERVER_IMAGE + version];
    var n := |CLIENT_ASSETS|;
    assert lines == head + AssetLines(files, sha, n) + [image];
    ReadAppend(Start(), head + AssetLines(files, sha, n), [image]);
    ReadAppend(Start(), head, AssetLines(files, sha, n));
    HeadReads(version);
    var r1 := Reading(Some(FORMAT), Some(version), map[], None);
    AssetsReadBack(r1, files, sha, n);
    var r2 := r1.(assets := AssetsFrom(files, sha, n));
    ReadOne(r2, image);
    ImageReads(r2, SERVER_IMAGE + version);
    assert CLIENT_ASSETS[..n] == CLIENT_ASSETS;
  }
}
