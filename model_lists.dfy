/**
 * The two model listings built from the API's model catalogue: chat
 * models (a "-latest" alias offering chat completion, none of the
 * excluded families) and transcription models (a voxtral model that is
 * neither a realtime nor a small variant), each listed once, sorted by id.
 */
module ModelLists {
  import opened Wrappers
  import opened Text
  import opened TranscriptionTypes

  /** What the catalogue says a model can do; the flag may be absent. */
  datatype ModelCapabilities = ModelCapabilities(completionChat: Option<bool>)

  /** One catalogue entry; the capabilities may be absent. */
  datatype ModelEntry = ModelEntry(id: string, capabilities: Option<ModelCapabilities>)

  /** The two listings the service offers. */
  datatype Listing = Chat | Transcription

  /** `capabilities?.completionChat == true`: an absent record or flag does not qualify. */
  predicate OffersChat(e: ModelEntry) {
    e.capabilities.Some? && e.capabilities.value.completionChat == Some(true)
  }

  /** Whether the listing keeps the entry. */
  predicate Keeps(listing: Listing, e: ModelEntry) {
    match listing
    case Chat =>
      && OffersChat(e)
      && HasSuffix(e.id, "-latest")
      && !Contains(e.id, "pixtral")
      && !Contains(e.id, "vibe")
      && !Contains(e.id, "voxtral")
      && !Contains(e.id, "embed")
      && !Contains(e.id, "moderation")
    case Transcription =>
      && Contains(e.id, "voxtral")
      && !Contains(e.id, "realtime")
      && !Contains(e.id, "small")
  }

  /** The capability every model of the listing is tagged with. */
  function Capability(listing: Listing): string {
    match listing
    case Chat => "chat"
    case Transcription => "transcription"
  }

  /** The ids of the kept entries, in catalogue order, repeats included. */
  function KeptIds(listing: Listing, entries: seq<ModelEntry>): (ids: seq<string>)
    ensures forall id :: id in ids <==> exists e :: e in entries && Keeps(listing, e) && e.id == id
  {
    if entries == [] then []
    else
      var last := entries[|entries| - 1];
      var front := entries[..|entries| - 1];
      assert entries == front + [last];
      KeptIds(listing, front) + (if Keeps(listing, last) then [last.id] else [])
  }

  /** Each string precedes every later one. */
  predicate StrictlyAscending(s: seq<string>) {
    forall i, j :: 0 <= i < j < |s| ==> Less(s[i], s[j])
  }

  lemma BelowAscending(x: string, s: seq<string>)
    requires StrictlyAscending(s) && s != [] && Less(x, s[0])
    ensures StrictlyAscending([x] + s)
  {
    forall j | 0 < j < |s|
      ensures Less(x, s[j])
    {
      LessTransitive(x, s[0], s[j]);
    }
  }

  /** Puts `x` in its place in an ascending sequence, unless it is already there. */
  function Insert(s: seq<string>, x: string): (r: seq<string>)
    requires StrictlyAscending(s)
    ensures StrictlyAscending(r)
    ensures forall y :: y in r <==> y in s || y == x
  {
    if s == [] then [x]
    else if x == s[0] then s
    else if Less(x, s[0]) then
      BelowAscending(x, s);
      [x] + s
    else
      LessTotal(x, s[0]);
      var rest := Insert(s[1..], x);
      assert forall y :: y in rest ==> Less(s[0], y) by {
        forall y | y in rest
          ensures Less(s[0], y)
        {
          if y != x {
            var k :| 0 <= k < |s[1..]| && s[1..][k] == y;
            assert s[k + 1] == y;
          }
        }
      }
      assert forall y :: y in s <==> y == s[0] || y in s[1..] by {
        assert s == [s[0]] + s[1..];
      }
      [s[0]] + rest
  }

  /** `Dictionary(grouping:by:)` then `sorted`: each string once, in ascending order. */
  function SortedUnique(ids: seq<string>): (r: seq<string>)
    ensures StrictlyAscending(r)
    ensures forall y :: y in r <==> y in ids
  {
    if ids == [] then []
    else
      var front := ids[..|ids| - 1];
      assert ids == front + [ids[|ids| - 1]];
      Insert(SortedUnique(front), ids[|ids| - 1])
  }

  /** The tail of an ascending sequence holds everything but its first element. */
  lemma AscendingTail(a: seq<string>, y: string)
    requires StrictlyAscending(a) && a != []
    ensures y in a[1..] <==> y in a && y != a[0]
  {
    assert a == [a[0]] + a[1..];
    if y in a[1..] {
      var k :| 0 <= k < |a[1..]| && a[1..][k] == y;
      assert Less(a[0], a[k + 1]);
      LessIrreflexive(y);
    }
  }

  /** An ascending sequence is fixed by which strings it holds: there is only one sorted listing. */
  lemma {:induction false} AscendingDeterminedByElements(a: seq<string>, b: seq<string>)
    requires StrictlyAscending(a) && StrictlyAscending(b)
    requires forall y :: y in a <==> y in b
    ensures a == b
    decreases |a|
  {
    if a != [] {
      assert a[0] in a;
    }
    if b != [] {
      assert b[0] in b;
    }
    if a != [] && b != [] {
      var ka :| 0 <= ka < |a| && a[ka] == b[0];
      var kb :| 0 <= kb < |b| && b[kb] == a[0];
      LessIrreflexive(a[0]);
      if ka != 0 && kb != 0 {
        LessTransitive(a[0], b[0], a[0]);
      }
      assert a[0] == b[0];
      forall y
        ensures y in a[1..] <==> y in b[1..]
      {
        AscendingTail(a, y);
        AscendingTail(b, y);
      }
      AscendingDeterminedByElements(a[1..], b[1..]);
      assert a == [a[0]] + a[1..] && b == [b[0]] + b[1..];
    }
  }

  /** The ids of a list of models. */
  function Ids(models: seq<MistralModel>): seq<string> {
    seq(|models|, i requires 0 <= i < |models| => models[i].id)
  }

  /** `listModels` or `listTranscriptionModels` after decoding the catalogue. */
  function Listed(listing: Listing, entries: seq<ModelEntry>): (models: seq<MistralModel>)
  {
    var ids := SortedUnique(KeptIds(listing, entries));
    seq(|ids|, i requires 0 <= i < |ids| => MistralModel(ids[i], ids[i], [Capability(listing)]))
  }

  lemma ListedIds(listing: Listing, entries: seq<ModelEntry>)
    ensures Ids(Listed(listing, entries)) == SortedUnique(KeptIds(listing, entries))
  {
  }

  /** The listed ids ascend strictly. */
  lemma ListedAscending(listing: Listing, entries: seq<ModelEntry>)
    ensures StrictlyAscending(Ids(Listed(listing, entries)))
  {
    ListedIds(listing, entries);
  }

  /** An id is listed exactly when some catalogue entry with that id is kept. */
  lemma ListedMembers(listing: Listing, entries: seq<ModelEntry>)
    ensures forall id :: id in Ids(Listed(listing, entries)) <==> exists e :: e in entries && Keeps(listing, e) && e.id == id
  {
    ListedIds(listing, entries);
  }

  /**
   * The listing holds exactly the ids of the kept entries, each once, in
   * ascending order; every model is named by its id and tagged with the
   * listing's capability.
   */
  lemma ListedCharacterized(listing: Listing, entries: seq<ModelEntry>)
    ensures var models := Listed(listing, entries);
      && StrictlyAscending(Ids(models))
      && (forall id :: id in Ids(models) <==> exists e :: e in entries && Keeps(listing, e) && e.id == id)
      && (forall i :: 0 <= i < |models| ==> models[i].name == models[i].id && models[i].capabilities == [Capability(listing)])
  {
    ListedAscending(listing, entries);
    ListedMembers(listing, entries);
  }

  /** No model is listed twice. */
  lemma ListedIdsUnique(listing: Listing, entries: seq<ModelEntry>)
    ensures var ids := Ids(Listed(listing, entries));
      forall i, j :: 0 <= i < j < |ids| ==> ids[i] != ids[j]
  {
    var ids := Ids(Listed(listing, entries));
    ListedAscending(listing, entries);
    forall i, j | 0 <= i < j < |ids|
      ensures ids[i] != ids[j]
    {
      LessIrreflexive(ids[i]);
    }
  }

  /**
   * The listing depends only on which entries the catalogue holds, not on
   * their order or on repeats.
   */
  lemma ListedIgnoresOrderAndRepeats(listing: Listing, entries1: seq<ModelEntry>, entries2: seq<ModelEntry>)
    requires forall e :: e in entries1 <==> e in entries2
    ensures Listed(listing, entries1) == Listed(listing, entries2)
  {
    var ids1 := SortedUnique(KeptIds(listing, entries1));
    var ids2 := SortedUnique(KeptIds(listing, entries2));
    AscendingDeterminedByElements(ids1, ids2);
  }

  /** A chat-capable "-latest" alias of none of the excluded families, such as the two text models of the listing test in MistralDirectServiceTests. */
  lemma PlainAliasIsKept(id: string)
    requires HasSuffix(id, "-latest") && 'p' !in id && 'v' !in id && 'b' !in id && 'o' !in id
    ensures Keeps(Chat, ModelEntry(id, Some(ModelCapabilities(Some(true)))))
  {
    AbsentCharNotContained(id, "pixtral", 'p');
    AbsentCharNotContained(id, "vibe", 'v');
    AbsentCharNotContained(id, "voxtral", 'v');
    AbsentCharNotContained(id, "embed", 'b');
    AbsentCharNotContained(id, "moderation", 'o');
  }

  lemma ExampleEntriesFiltered()
    ensures Keeps(Chat, ModelEntry("mistral-small-latest", Some(ModelCapabilities(Some(true)))))
    ensures Keeps(Chat, ModelEntry("mistral-large-latest", Some(ModelCapabilities(Some(true)))))
    ensures !Keeps(Chat, ModelEntry("pixtral-large-latest", Some(ModelCapabilities(Some(true)))))
    ensures !Keeps(Chat, ModelEntry("voxtral-mini-latest", Some(ModelCapabilities(Some(false)))))
    ensures !Keeps(Chat, ModelEntry("mistral-embed-latest", Some(ModelCapabilities(Some(true)))))
  {
    PlainAliasIsKept("mistral-small-latest");
    PlainAliasIsKept("mistral-large-latest");
    assert OccursAt("pixtral-large-latest", "pixtral", 0);
    assert OccursAt("mistral-embed-latest", "embed", 8);
  }

  lemma ExampleIdsOrdered()
    ensures Less("mistral-large-latest", "mistral-small-latest")
  {
    var large, small := "mistral-large-latest", "mistral-small-latest";
    assert large[..8] == small[..8];
    LessAtFirstDifference(large, small, 8);
  }

  /** The catalogue of the listing test in MistralDirectServiceTests. */
  predicate IsExampleCatalogue(entries: seq<ModelEntry>) {
    && |entries| == 5
    && entries[0] == ModelEntry("mistral-small-latest", Some(ModelCapabilities(Some(true))))
    && entries[1] == ModelEntry("mistral-large-latest", Some(ModelCapabilities(Some(true))))
    && entries[2] == ModelEntry("pixtral-large-latest", Some(ModelCapabilities(Some(true))))
    && entries[3] == ModelEntry("voxtral-mini-latest", Some(ModelCapabilities(Some(false))))
    && entries[4] == ModelEntry("mistral-embed-latest", Some(ModelCapabilities(Some(true))))
  }

  /**
   * Of a catalogue of five entries where only the first two are kept, the
   * listing holds their two ids, in ascending order.
   */
  lemma ListingOfFive(listing: Listing, entries: seq<ModelEntry>, low: string, high: string)
    requires |entries| == 5
    requires Keeps(listing, entries[0]) && Keeps(listing, entries[1])
    requires !Keeps(listing, entries[2]) && !Keeps(listing, entries[3]) && !Keeps(listing, entries[4])
    requires entries[0].id == high && entries[1].id == low && Less(low, high)
    ensures Ids(Listed(listing, entries)) == [low, high]
  {
    ListedMembers(listing, entries);
    var ids := Ids(Listed(listing, entries));
    forall id
      ensures id in ids <==> id in [low, high]
    {
      if id in ids {
        var e :| e in entries && Keeps(listing, e) && e.id == id;
        var k :| 0 <= k < 5 && entries[k] == e;
      } else {
        assert entries[0] in entries && entries[1] in entries;
      }
    }
    ListedAscending(listing, entries);
    AscendingDeterminedByElements(ids, [low, high]);
  }

  /**
   * The catalogue of the listing test in MistralDirectServiceTests lists its two chat aliases, in order; the
   * image model, the model without chat and the embedding model are left out.
   */
  lemma ChatListingExample(entries: seq<ModelEntry>)
    requires IsExampleCatalogue(entries)
    ensures Ids(Listed(Chat, entries)) == ["mistral-large-latest", "mistral-small-latest"]
  {
    ExampleEntriesFiltered();
    ExampleIdsOrdered();
    ListingOfFive(Chat, entries, "mistral-large-latest", "mistral-small-latest");
  }
}
