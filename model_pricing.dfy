/**
 * The per-model token prices: a fixed table keyed by model id, looked up
 * by exact id first and otherwise by the first key whose id, without its
 * "-latest" suffix, is a prefix of the requested id.
 */
module Pricing {
  import opened Wrappers
  import opened Text

  /** Prices in dollars per million tokens. */
  datatype ModelPricing = ModelPricing(modelId: string, inputPricePerMillion: real, outputPricePerMillion: real)

  const LatestSuffix := "-latest"

  /** The keys of the table: four "-latest" aliases and one undated id. */
  const MistralLarge := "mistral-large" + LatestSuffix
  const MistralSmall := "mistral-small" + LatestSuffix
  const PixtralLarge := "pixtral-large" + LatestSuffix
  const OpenMistralNemo := "open-mistral-nemo"
  const Ministral8b := "ministral-8b" + LatestSuffix

  /** The table, keyed by model id. */
  const Table: map<string, ModelPricing> := map[
    MistralLarge := ModelPricing(MistralLarge, 2.0, 6.0),
    MistralSmall := ModelPricing(MistralSmall, 0.1, 0.3),
    PixtralLarge := ModelPricing(PixtralLarge, 2.0, 6.0),
    OpenMistralNemo := ModelPricing(OpenMistralNemo, 0.15, 0.15),
    Ministral8b := ModelPricing(Ministral8b, 0.1, 0.1)
  ]

  /** The keys, listed. */
  predicate IsTableKey(k: string) {
    k == MistralLarge || k == MistralSmall || k == PixtralLarge || k == OpenMistralNemo || k == Ministral8b
  }

  /** `key.replacingOccurrences(of: "-latest", with: "")`. */
  function Stripped(key: string): string {
    ReplaceAll(key, LatestSuffix, "")
  }

  /**
   * An order in which the table's keys are visited: each key exactly once.
   * Swift leaves a dictionary's iteration order unspecified, so the lookup
   * takes it as a parameter.
   */
  predicate IsKeyOrder(order: seq<string>) {
    && (forall k :: k in order ==> k in Table)
    && (forall k :: k in Table ==> k in order)
    && (forall i, j :: 0 <= i < j < |order| ==> order[i] != order[j])
  }

  /** `first(where:)`: the index of the first key whose stripped form is a prefix of `modelId`. */
  function FirstPrefixMatch(modelId: string, keys: seq<string>): (r: Option<nat>)
    ensures r.Some? ==> r.value < |keys| && HasPrefix(modelId, Stripped(keys[r.value]))
    ensures r.Some? ==> forall j :: 0 <= j < r.value ==> !HasPrefix(modelId, Stripped(keys[j]))
    ensures r.None? <==> forall j :: 0 <= j < |keys| ==> !HasPrefix(modelId, Stripped(keys[j]))
  {
    if keys == [] then None
    else if HasPrefix(modelId, Stripped(keys[0])) then Some(0)
    else
      match FirstPrefixMatch(modelId, keys[1..])
      case Some(i) => assert keys[1..][i] == keys[i + 1]; Some(i + 1)
      case None => None
  }

  /** `pricingFor(modelId:)`, visiting the keys in `order` for the prefix match. */
  function PricingFor(modelId: string, order: seq<string>): Option<ModelPricing>
    requires IsKeyOrder(order)
  {
    if modelId in Table then Some(Table[modelId])
    else
      match FirstPrefixMatch(modelId, order)
      case Some(i) => Some(Table[order[i]])
      case None => None
  }

  /** Every entry records the key it is stored under. */
  lemma TableKeyedByModelId(key: string)
    requires key in Table
    ensures Table[key].modelId == key
  {
  }

  /** An id that is a key gets that key's entry, whatever the order. */
  lemma ExactKeyWins(modelId: string, order: seq<string>)
    requires IsKeyOrder(order) && modelId in Table
    ensures PricingFor(modelId, order) == Some(Table[modelId])
  {
  }

  /**
   * Any other id gets an entry exactly when some key's stripped form is a
   * prefix of it, and then one whose stripped key is; every answer is an
   * entry of the table, stored under its own id.
   */
  lemma PricingForCharacterized(modelId: string, order: seq<string>)
    requires IsKeyOrder(order)
    ensures var r := PricingFor(modelId, order);
      && (r.Some? ==> r.value.modelId in Table && Table[r.value.modelId] == r.value)
      && (modelId !in Table ==>
            && (r.Some? <==> exists k :: k in Table && HasPrefix(modelId, Stripped(k)))
            && (r.Some? ==> HasPrefix(modelId, Stripped(r.value.modelId))))
  {
    var r := PricingFor(modelId, order);
    if modelId !in Table {
      var m := FirstPrefixMatch(modelId, order);
      if m.Some? {
        TableKeyedByModelId(order[m.value]);
      }
      if exists k :: k in Table && HasPrefix(modelId, Stripped(k)) {
        var k :| k in Table && HasPrefix(modelId, Stripped(k));
        var j :| 0 <= j < |order| && order[j] == k;
        assert m.Some?;
      }
    } else {
      TableKeyedByModelId(modelId);
    }
  }

  lemma ReplaceAllMatchHere(rest: string, pat: string, rep: string)
    requires pat != []
    ensures ReplaceAll(pat + rest, pat, rep) == rep + ReplaceAll(rest, pat, rep)
  {
    assert (pat + rest)[..|pat|] == pat;
    assert (pat + rest)[|pat|..] == rest;
  }

  lemma ReplaceAllNoMatchHere(c: char, rest: string, pat: string, rep: string)
    requires pat != [] && !HasPrefix([c] + rest, pat)
    ensures ReplaceAll([c] + rest, pat, rep) == [c] + ReplaceAll(rest, pat, rep)
  {
    assert ([c] + rest)[1..] == rest;
    if |[c] + rest| < |pat| {
      ReplaceAllShort(rest, pat, rep);
    }
  }

  /** A word free of the pattern's first character, followed by the pattern, loses the pattern. */
  lemma StripSuffix(b: string, pat: string)
    requires pat != [] && pat[0] !in b
    ensures ReplaceAll(b + pat, pat, "") == b
  {
    ReplaceAllSkips(b, pat, pat, "");
    ReplaceAllMatchHere([], pat, "");
    assert pat + [] == pat;
  }

  /** The pattern's first character, a word that departs from the pattern at `i`, then the pattern. */
  lemma StripDashWord(b: string, pat: string, i: nat)
    requires pat != [] && pat[0] !in b && 0 < i < |pat| && i <= |b| && b[i - 1] != pat[i]
    ensures ReplaceAll([pat[0]] + b + pat, pat, "") == [pat[0]] + b
  {
    var s := [pat[0]] + b + pat;
    assert s[..|pat|][i] == b[i - 1];
    assert s == [pat[0]] + (b + pat);
    ReplaceAllNoMatchHere(pat[0], b + pat, pat, "");
    StripSuffix(b, pat);
  }

  /** Two words joined by the pattern's first character and followed by the pattern lose the pattern. */
  lemma StripTwoWords(a: string, b: string, pat: string, i: nat)
    requires pat != [] && pat[0] !in a && pat[0] !in b && 0 < i < |pat| && i <= |b| && b[i - 1] != pat[i]
    ensures ReplaceAll(a + ([pat[0]] + b) + pat, pat, "") == a + ([pat[0]] + b)
  {
    assert a + ([pat[0]] + b) + pat == a + ([pat[0]] + b + pat);
    ReplaceAllSkips(a, [pat[0]] + b + pat, pat, "");
    StripDashWord(b, pat, i);
  }

  /** A string whose character at `i` differs from the pattern's does not begin with it. */
  lemma DepartsAt(c: char, rest: string, pat: string, i: nat)
    requires 0 < i < |pat| && i <= |rest| && rest[i - 1] != pat[i]
    ensures !HasPrefix([c] + rest, pat)
  {
    if |pat| <= |[c] + rest| {
      assert ([c] + rest)[..|pat|][i] == rest[i - 1];
    }
  }

  /** The pattern's first character, a word that departs from the pattern at `i`, then a tail shorter than the pattern. */
  lemma DashWordBeforeShortTail(b: string, tail: string, pat: string, i: nat)
    requires pat != [] && pat[0] !in b && |tail| < |pat|
    requires 0 < i < |pat| && i <= |b| && b[i - 1] != pat[i]
    ensures ReplaceAll([pat[0]] + b + tail, pat, "") == [pat[0]] + b + tail
  {
    var rest := b + tail;
    assert rest[i - 1] == b[i - 1];
    DepartsAt(pat[0], rest, pat, i);
    ReplaceAllNoMatchHere(pat[0], rest, pat, "");
    ReplaceAllSkips(b, tail, pat, "");
    ReplaceAllShort(tail, pat, "");
    assert [pat[0]] + b + tail == [pat[0]] + rest;
  }

  /** Three words joined by the pattern's first character, the last shorter than the pattern, hold no occurrence. */
  lemma StripThreeWordsUnchanged(a: string, b: string, c: string, pat: string, i: nat)
    requires pat != [] && pat[0] !in a && pat[0] !in b && |c| + 1 < |pat|
    requires 0 < i < |pat| && i <= |b| && b[i - 1] != pat[i]
    ensures ReplaceAll(a + ([pat[0]] + b + ([pat[0]] + c)), pat, "") == a + ([pat[0]] + b + ([pat[0]] + c))
  {
    ReplaceAllSkips(a, [pat[0]] + b + ([pat[0]] + c), pat, "");
    DashWordBeforeShortTail(b, [pat[0]] + c, pat, i);
  }

  lemma MistralLargeStripped()
    ensures Stripped(MistralLarge) == "mistral-large"
  {
    StripTwoWords("mistral", "large", LatestSuffix, 3);
    assert "mistral-large" == "mistral" + (['-'] + "large");
  }

  lemma MistralSmallStripped()
    ensures Stripped(MistralSmall) == "mistral-small"
  {
    StripTwoWords("mistral", "small", LatestSuffix, 1);
    assert "mistral-small" == "mistral" + (['-'] + "small");
  }

  lemma PixtralLargeStripped()
    ensures Stripped(PixtralLarge) == "pixtral-large"
  {
    StripTwoWords("pixtral", "large", LatestSuffix, 3);
    assert "pixtral-large" == "pixtral" + (['-'] + "large");
  }

  lemma MinistralStripped()
    ensures Stripped(Ministral8b) == "ministral-8b"
  {
    StripTwoWords("ministral", "8b", LatestSuffix, 1);
    assert "ministral-8b" == "ministral" + (['-'] + "8b");
  }

  lemma UndatedKeyUnchanged(key: string)
    requires key == "open" + (['-'] + "mistral" + (['-'] + "nemo"))
    ensures Stripped(key) == key
  {
    StripThreeWordsUnchanged("open", "mistral", "nemo", LatestSuffix, 1);
  }

  lemma NemoStripped()
    ensures Stripped(OpenMistralNemo) == "open-mistral-nemo"
  {
    UndatedKeyUnchanged(OpenMistralNemo);
  }

  /** The prefixes the keys match by: each key without "-latest"; the key without it is unchanged. */
  lemma StrippedKeys()
    ensures Stripped(MistralLarge) == "mistral-large"
    ensures Stripped(MistralSmall) == "mistral-small"
    ensures Stripped(PixtralLarge) == "pixtral-large"
    ensures Stripped(OpenMistralNemo) == "open-mistral-nemo"
    ensures Stripped(Ministral8b) == "ministral-8b"
  {
    MistralLargeStripped();
    MistralSmallStripped();
    PixtralLargeStripped();
    NemoStripped();
    MinistralStripped();
  }

  /** The five stripped keys part ways within their common length. */
  lemma StrippedFormsDiverge()
    ensures !HasPrefix("mistral-large", "mistral-small") && !HasPrefix("mistral-small", "mistral-large")
    ensures !HasPrefix("mistral-large", "pixtral-large") && !HasPrefix("pixtral-large", "mistral-large")
    ensures !HasPrefix("mistral-large", "open-mistral-nemo") && !HasPrefix("open-mistral-nemo", "mistral-large")
    ensures !HasPrefix("mistral-large", "ministral-8b") && !HasPrefix("ministral-8b", "mistral-large")
    ensures !HasPrefix("mistral-small", "pixtral-large") && !HasPrefix("pixtral-large", "mistral-small")
    ensures !HasPrefix("mistral-small", "open-mistral-nemo") && !HasPrefix("open-mistral-nemo", "mistral-small")
    ensures !HasPrefix("mistral-small", "ministral-8b") && !HasPrefix("ministral-8b", "mistral-small")
    ensures !HasPrefix("pixtral-large", "open-mistral-nemo") && !HasPrefix("open-mistral-nemo", "pixtral-large")
    ensures !HasPrefix("pixtral-large", "ministral-8b") && !HasPrefix("ministral-8b", "pixtral-large")
    ensures !HasPrefix("open-mistral-nemo", "ministral-8b") && !HasPrefix("ministral-8b", "open-mistral-nemo")
  {
    DivergeAt("mistral-large", "mistral-small", 8);
    DivergeAt("mistral-large", "pixtral-large", 0);
    DivergeAt("mistral-large", "open-mistral-nemo", 0);
    DivergeAt("mistral-large", "ministral-8b", 2);
    DivergeAt("mistral-small", "pixtral-large", 0);
    DivergeAt("mistral-small", "open-mistral-nemo", 0);
    DivergeAt("mistral-small", "ministral-8b", 2);
    DivergeAt("pixtral-large", "open-mistral-nemo", 0);
    DivergeAt("pixtral-large", "ministral-8b", 0);
    DivergeAt("open-mistral-nemo", "ministral-8b", 0);
  }

  lemma TableKeys(k: string)
    ensures k in Table <==> IsTableKey(k)
  {
  }

  /** No key's stripped form is a prefix of another's. */
  lemma StrippedKeysIncomparable(k1: string, k2: string)
    requires IsTableKey(k1) && IsTableKey(k2)
    ensures HasPrefix(Stripped(k1), Stripped(k2)) ==> k1 == k2
  {
    StrippedKeys();
    StrippedFormsDiverge();
  }

  /** At most one key matches an id by prefix. */
  lemma PrefixMatchUnique(modelId: string, k1: string, k2: string)
    requires k1 in Table && k2 in Table
    requires HasPrefix(modelId, Stripped(k1)) && HasPrefix(modelId, Stripped(k2))
    ensures k1 == k2
  {
    TableKeys(k1);
    TableKeys(k2);
    if |Stripped(k1)| <= |Stripped(k2)| {
      PrefixesComparable(modelId, Stripped(k1), Stripped(k2));
      StrippedKeysIncomparable(k2, k1);
    } else {
      PrefixesComparable(modelId, Stripped(k2), Stripped(k1));
      StrippedKeysIncomparable(k1, k2);
    }
  }

  /** Which entry is found does not depend on the order the dictionary visits its keys in. */
  lemma PricingIndependentOfOrder(modelId: string, order1: seq<string>, order2: seq<string>)
    requires IsKeyOrder(order1) && IsKeyOrder(order2)
    ensures PricingFor(modelId, order1) == PricingFor(modelId, order2)
  {
    PricingForCharacterized(modelId, order1);
    PricingForCharacterized(modelId, order2);
    var r1, r2 := PricingFor(modelId, order1), PricingFor(modelId, order2);
    if modelId !in Table && r1.Some? && r2.Some? {
      PrefixMatchUnique(modelId, r1.value.modelId, r2.value.modelId);
    }
  }

  /** The alias "mistral-small-latest" is found by exact match with its prices. */
  lemma ExactMatchExample(order: seq<string>)
    requires IsKeyOrder(order)
    ensures PricingFor("mistral-small-latest", order) == Some(ModelPricing("mistral-small-latest", 0.1, 0.3))
  {
    assert MistralSmall == "mistral-small-latest";
    assert MistralSmall[0] != PixtralLarge[0];
    assert Table[MistralSmall] == ModelPricing(MistralSmall, 0.1, 0.3);
  }

  /** A dated id falls back to the alias it extends: "mistral-small-2501" is priced as "mistral-small-latest". */
  lemma VersionedIdExample(order: seq<string>)
    requires IsKeyOrder(order)
    ensures PricingFor("mistral-small-2501", order) == Some(ModelPricing("mistral-small-latest", 0.1, 0.3))
  {
    var id := "mistral-small-2501";
    MistralSmallStripped();
    assert HasPrefix(id, Stripped(MistralSmall));
    assert id !in Table;
    PricingForCharacterized(id, order);
    var r := PricingFor(id, order);
    PrefixMatchUnique(id, r.value.modelId, MistralSmall);
    assert MistralSmall == "mistral-small-latest";
  }

  /** An id that neither is a key nor extends a stripped key has no price. */
  lemma UnknownIdExample(order: seq<string>)
    requires IsKeyOrder(order)
    ensures PricingFor("nonexistent-model", order) == None
  {
    var id := "nonexistent-model";
    forall k | k in Table
      ensures !HasPrefix(id, Stripped(k))
    {
      TableKeys(k);
      StrippedKeys();
      DivergeAt(id, Stripped(k), 0);
    }
    PricingForCharacterized(id, order);
  }
}
