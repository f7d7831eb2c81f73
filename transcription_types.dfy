/**
 * The value types of the transcription service protocol and the display
 * name of a model: the id split at '-', the trailing all-digit segments
 * taken as a version, the other segments capitalised and joined with
 * spaces, then " v" and the version joined with dots.
 */
module TranscriptionTypes {
  import opened Wrappers
  import opened Text

  /** What a transcription call returns: the text and the detected language, if any. */
  datatype TranscriptionResult = TranscriptionResult(text: string, language: Option<string>)

  /** A model offered to the user, identified by its id. */
  datatype MistralModel = MistralModel(id: string, name: string, capabilities: seq<string>)

  /** `Character.isNumber`, restricted to the ASCII digits. */
  predicate IsDigit(c: char) {
    '0' <= c <= '9'
  }

  /** `allSatisfy(\.isNumber)`: true of the empty segment too. */
  predicate IsNumeric(segment: string) {
    forall i | 0 <= i < |segment| :: IsDigit(segment[i])
  }

  /**
   * Where the trailing run of numeric segments begins: every segment from
   * there on is numeric, and the one just before it (if any) is not.
   */
  function VersionStart(parts: seq<string>): (k: nat)
    ensures k <= |parts|
    ensures forall i :: k <= i < |parts| ==> IsNumeric(parts[i])
    ensures k > 0 ==> !IsNumeric(parts[k - 1])
  {
    if parts == [] || !IsNumeric(parts[|parts| - 1]) then |parts|
    else VersionStart(parts[..|parts| - 1])
  }

  /** Every segment with its first letter upper-cased. */
  function Capitalized(parts: seq<string>): (r: seq<string>)
    ensures |r| == |parts|
    ensures forall i :: 0 <= i < |r| ==> r[i] == Capitalize(parts[i])
  {
    if parts == [] then [] else [Capitalize(parts[0])] + Capitalized(parts[1..])
  }

  /** The name shown for a base and a version: "Base Words" or "Base Words v1.2". */
  function Rendered(base: seq<string>, version: seq<string>): string {
    var words := Join(Capitalized(base), " ");
    if version == [] then words else words + " v" + Join(version, ".")
  }

  /** `displayName`, as a specification. */
  function DisplayNameOf(id: string): string {
    var parts := Split(id, '-');
    var k := VersionStart(parts);
    Rendered(parts[..k], parts[k..])
  }

  /** `MistralModel.displayName`: peels the trailing numeric segments off one at a time. */
  method DisplayName(model: MistralModel) returns (name: string)
    ensures name == DisplayNameOf(model.id)
  {
    var all := Split(model.id, '-');
    var parts := all;
    var versionParts: seq<string> := [];
    while parts != [] && IsNumeric(parts[|parts| - 1])
      invariant parts + versionParts == all
      invariant VersionStart(parts) == VersionStart(all)
      decreases |parts|
    {
      versionParts := [parts[|parts| - 1]] + versionParts;
      parts := parts[..|parts| - 1];
    }
    assert parts == all[..VersionStart(all)];
    assert versionParts == all[VersionStart(all)..];
    var base := Join(Capitalized(parts), " ");
    if versionParts == [] {
      return base;
    }
    return base + " v" + Join(versionParts, ".");
  }

  /**
   * The version is exactly the longest run of numeric segments at the end
   * of the id: nothing numeric is left at the end of the base.
   */
  lemma VersionIsMaximalNumericSuffix(id: string)
    ensures var parts := Split(id, '-');
      var k := VersionStart(parts);
      && parts == parts[..k] + parts[k..]
      && (forall i :: 0 <= i < |parts[k..]| ==> IsNumeric(parts[k..][i]))
      && (parts[..k] != [] ==> !IsNumeric(parts[..k][|parts[..k]| - 1]))
  {
  }

  /** An id whose last segment is not all digits shows no version: just its capitalised words. */
  lemma {:induction false} NoVersionWithoutTrailingDigits(id: string)
    requires Split(id, '-') != [] && !IsNumeric(Split(id, '-')[|Split(id, '-')| - 1])
    ensures DisplayNameOf(id) == Join(Capitalized(Split(id, '-')), " ")
  {
    var parts := Split(id, '-');
    assert parts[..|parts|] == parts;
  }

  /**
   * The display name shows a version exactly when the id's last segment is
   * all digits.
   */
  lemma {:induction false} VersionShownIffTrailingDigits(id: string)
    ensures var parts := Split(id, '-');
      VersionStart(parts) < |parts| <==> parts != [] && IsNumeric(parts[|parts| - 1])
  {
  }

  lemma {:induction false} CapitalizeKeepsSpaces(w: string)
    requires w != [] && ' ' !in w
    ensures Capitalize(w) != [] && ' ' !in Capitalize(w)
  {
    var r := Capitalize(w);
    forall i | 0 <= i < |r|
      ensures r[i] != ' '
    {
      if i == 0 {
        assert w[0] != ' ';
      } else {
        assert r[i] == r[1..][i - 1] == w[1..][i - 1] == w[i];
      }
    }
  }

  /**
   * The base of the display name splits at its spaces back into the
   * capitalised segments of the id, provided the id has no spaces.
   */
  lemma {:induction false} BaseWordsRecoverSegments(id: string)
    requires ' ' !in id
    ensures var parts := Split(id, '-');
      var k := VersionStart(parts);
      Split(Join(Capitalized(parts[..k]), " "), ' ') == Capitalized(parts[..k])
  {
    var parts := Split(id, '-');
    var base := parts[..VersionStart(parts)];
    forall i | 0 <= i < |base|
      ensures Capitalized(base)[i] != [] && ' ' !in Capitalized(base)[i]
    {
      SegmentHasNoSpace(id, parts, VersionStart(parts), i);
      CapitalizeKeepsSpaces(base[i]);
    }
    SplitJoin(Capitalized(base), ' ');
  }

  lemma SegmentHasNoSpace(id: string, parts: seq<string>, k: nat, i: nat)
    requires ' ' !in id && parts == Split(id, '-') && k <= |parts| && i < k
    ensures parts[..k][i] != [] && ' ' !in parts[..k][i]
  {
    SplitKeepsCharacters(id, '-', ' ');
  }

  lemma {:induction false} VersionStartOfNumericTail(base: seq<string>, version: seq<string>)
    requires base != [] ==> !IsNumeric(base[|base| - 1])
    requires forall i :: 0 <= i < |version| ==> IsNumeric(version[i])
    ensures VersionStart(base + version) == |base|
    decreases |version|
  {
    if version == [] {
      assert base + version == base;
    } else {
      var parts := base + version;
      assert parts[..|parts| - 1] == base + version[..|version| - 1];
      VersionStartOfNumericTail(base, version[..|version| - 1]);
    }
  }

  /**
   * Conversely to the loop: an id made of base segments (the last of them
   * not numeric) followed by numeric version segments is displayed as the
   * capitalised base and that version.
   */
  lemma DisplayNameOfSegments(base: seq<string>, version: seq<string>)
    requires forall i :: 0 <= i < |base + version| ==> (base + version)[i] != [] && '-' !in (base + version)[i]
    requires base != [] ==> !IsNumeric(base[|base| - 1])
    requires forall i :: 0 <= i < |version| ==> IsNumeric(version[i])
    ensures DisplayNameOf(Join(base + version, "-")) == Rendered(base, version)
  {
    SplitJoin(base + version, '-');
    VersionStartOfNumericTail(base, version);
    assert (base + version)[..|base|] == base;
    assert (base + version)[|base|..] == version;
  }

  lemma Join3(a: string, b: string, c: string, sep: string)
    ensures Join([a, b, c], sep) == a + sep + b + sep + c
  {
    assert [a, b, c][1..] == [b, c];
    assert [b, c][1..] == [c];
    assert Join([b, c], sep) == b + sep + c;
  }

  lemma Capitalized3(a: string, b: string, c: string)
    ensures Capitalized([a, b, c]) == [Capitalize(a), Capitalize(b), Capitalize(c)]
  {
  }

  lemma JoinCons(x: string, rest: seq<string>, sep: string)
    requires rest != []
    ensures Join([x] + rest, sep) == x + sep + Join(rest, sep)
  {
    assert ([x] + rest)[1..] == rest;
  }

  /** A numeric segment holds no dash, so it survives the split at '-'. */
  lemma NumericHasNoDash(segment: string)
    requires IsNumeric(segment)
    ensures '-' !in segment
  {
    forall i | 0 <= i < |segment|
      ensures segment[i] != '-'
    {
      assert IsDigit(segment[i]);
    }
  }

  lemma {:induction false} Join5(a: string, b: string, c: string, d: string, e: string, sep: string)
    ensures Join([a, b, c, d, e], sep) == a + sep + b + sep + c + sep + d + sep + e
  {
    assert Join([e], sep) == e;
    assert [d] + [e] == [d, e];
    JoinCons(d, [e], sep);
    assert [c] + [d, e] == [c, d, e];
    JoinCons(c, [d, e], sep);
    assert [b] + [c, d, e] == [b, c, d, e];
    JoinCons(b, [c, d, e], sep);
    assert [a] + [b, c, d, e] == [a, b, c, d, e];
    JoinCons(a, [b, c, d, e], sep);
  }

  /** Three words that are segments of an id: non-empty, without a dash, the last not numeric. */
  predicate PlainWords(w1: string, w2: string, w3: string) {
    w1 != [] && w2 != [] && w3 != [] && '-' !in w1 && '-' !in w2 && '-' !in w3 && !IsNumeric(w3)
  }

  lemma CapitalizedWords(w1: string, w2: string, w3: string, c1: string, c2: string, c3: string)
    requires Capitalize(w1) == c1 && Capitalize(w2) == c2 && Capitalize(w3) == c3
    ensures Join(Capitalized([w1, w2, w3]), " ") == c1 + " " + c2 + " " + c3
  {
    Capitalized3(w1, w2, w3);
    Join3(c1, c2, c3, " ");
  }

  /** A three-word id followed by two numeric segments shows the words and a dotted version. */
  lemma ThreeWordsVersioned(id: string, w1: string, w2: string, w3: string,
                            c1: string, c2: string, c3: string, year: string, month: string)
    requires PlainWords(w1, w2, w3) && Capitalize(w1) == c1 && Capitalize(w2) == c2 && Capitalize(w3) == c3
    requires year != [] && month != [] && IsNumeric(year) && IsNumeric(month)
    requires id == w1 + "-" + w2 + "-" + w3 + "-" + year + "-" + month
    ensures DisplayNameOf(id) == c1 + " " + c2 + " " + c3 + " v" + year + "." + month
  {
    NumericHasNoDash(year);
    NumericHasNoDash(month);
    Join5(w1, w2, w3, year, month, "-");
    assert [w1, w2, w3] + [year, month] == [w1, w2, w3, year, month];
    DisplayNameOfSegments([w1, w2, w3], [year, month]);
    CapitalizedWords(w1, w2, w3, c1, c2, c3);
    assert Join([month], ".") == month;
    assert [year] + [month] == [year, month];
    JoinCons(year, [month], ".");
  }

  /** A three-word id with no numeric segment shows just the capitalised words. */
  lemma ThreeWords(id: string, w1: string, w2: string, w3: string, c1: string, c2: string, c3: string)
    requires PlainWords(w1, w2, w3) && Capitalize(w1) == c1 && Capitalize(w2) == c2 && Capitalize(w3) == c3
    requires id == w1 + "-" + w2 + "-" + w3
    ensures DisplayNameOf(id) == c1 + " " + c2 + " " + c3
  {
    Join3(w1, w2, w3, "-");
    assert [w1, w2, w3] + [] == [w1, w2, w3];
    DisplayNameOfSegments([w1, w2, w3], []);
    CapitalizedWords(w1, w2, w3, c1, c2, c3);
  }

  /** A one-segment id that is not numeric is shown capitalised. */
  lemma OneWord(w: string)
    requires w != [] && '-' !in w && !IsNumeric(w)
    ensures DisplayNameOf(w) == Capitalize(w)
  {
    assert [w] + [] == [w];
    DisplayNameOfSegments([w], []);
    assert Capitalized([w]) == [Capitalize(w)];
  }

  // The segments of the ids of MistralModelTests, named so that the proofs below work
  // on them by name rather than by their characters.
  const Voxtral := "voxtral"
  const Mini := "mini"
  const Transcribe := "transcribe"
  const Mistral := "mistral"
  const Small := "small"
  const Latest := "latest"
  const Year26 := "26"
  const Month02 := "02"
  const Year25 := "25"
  const Month07 := "07"

  lemma ExampleWords()
    ensures PlainWords(Voxtral, Mini, Transcribe) && PlainWords(Mistral, Small, Latest)
    ensures Capitalize(Voxtral) == "Voxtral" && Capitalize(Mini) == "Mini" && Capitalize(Transcribe) == "Transcribe"
    ensures Capitalize(Mistral) == "Mistral" && Capitalize(Small) == "Small" && Capitalize(Latest) == "Latest"
  {
    assert !IsDigit(Transcribe[0]) && !IsDigit(Latest[0]);
  }

  lemma ExampleDates()
    ensures Year26 != [] && Month02 != [] && IsNumeric(Year26) && IsNumeric(Month02)
    ensures Year25 != [] && Month07 != [] && IsNumeric(Year25) && IsNumeric(Month07)
  {
  }

  lemma Spelled2602(id: string)
    requires id == "voxtral-mini-transcribe-26-02"
    ensures id == Voxtral + "-" + Mini + "-" + Transcribe + "-" + Year26 + "-" + Month02
  {
  }

  lemma Spelled2507(id: string)
    requires id == "voxtral-mini-transcribe-25-07"
    ensures id == Voxtral + "-" + Mini + "-" + Transcribe + "-" + Year25 + "-" + Month07
  {
  }

  lemma SpelledSmallLatest(id: string)
    requires id == "mistral-small-latest"
    ensures id == Mistral + "-" + Small + "-" + Latest
  {
  }

  lemma Shown2602()
    ensures "Voxtral" + " " + "Mini" + " " + "Transcribe" + " v" + Year26 + "." + Month02 == "Voxtral Mini Transcribe v26.02"
  {
  }

  lemma Shown2507()
    ensures "Voxtral" + " " + "Mini" + " " + "Transcribe" + " v" + Year25 + "." + Month07 == "Voxtral Mini Transcribe v25.07"
  {
  }

  /**
   * The dated transcription models of MistralModelTests: voxtral-mini-transcribe
   * with version 26-02 or 25-07 is shown with a dotted version.
   */
  lemma DisplayNameVersionedExample(model: MistralModel)
    requires model.id == "voxtral-mini-transcribe-26-02" || model.id == "voxtral-mini-transcribe-25-07"
    ensures model.id == "voxtral-mini-transcribe-26-02" ==> DisplayNameOf(model.id) == "Voxtral Mini Transcribe v26.02"
    ensures model.id == "voxtral-mini-transcribe-25-07" ==> DisplayNameOf(model.id) == "Voxtral Mini Transcribe v25.07"
  {
    ExampleWords();
    ExampleDates();
    if model.id == "voxtral-mini-transcribe-26-02" {
      Spelled2602(model.id);
      Shown2602();
      ThreeWordsVersioned(model.id, Voxtral, Mini, Transcribe, "Voxtral", "Mini", "Transcribe", Year26, Month02);
    } else {
      Spelled2507(model.id);
      Shown2507();
      ThreeWordsVersioned(model.id, Voxtral, Mini, Transcribe, "Voxtral", "Mini", "Transcribe", Year25, Month07);
    }
  }

  /** A "-latest" alias has no version: "latest" is a word like the others. */
  lemma DisplayNameLatestExample(model: MistralModel)
    requires model.id == "mistral-small-latest"
    ensures DisplayNameOf(model.id) == "Mistral Small Latest"
  {
    SpelledSmallLatest(model.id);
    ExampleWords();
    assert "Mistral" + " " + "Small" + " " + "Latest" == "Mistral Small Latest";
    ThreeWords(model.id, Mistral, Small, Latest, "Mistral", "Small", "Latest");
  }

  lemma CodestralWord(id: string)
    requires id == "codestral"
    ensures id != [] && '-' !in id && !IsNumeric(id) && Capitalize(id) == "Codestral"
  {
    assert !IsDigit(id[0]);
  }

  /** A one-segment id is just capitalised. */
  lemma DisplayNameSingleWordExample(model: MistralModel)
    requires model.id == "codestral"
    ensures DisplayNameOf(model.id) == "Codestral"
  {
    CodestralWord(model.id);
    OneWord(model.id);
  }
}
