/**
 * The front end's application record and the filter state shared by the
 * catalog list and the filter dialog. Fields that the record interface does
 * not declare but the components read with `?.` or `|| []` (capabilities,
 * midPoint versions, origins) are optional sequences.
 */
module Catalog {
  import opened Wrappers
  import opened SeqUtil
  import Text
  import JsText

  /** `ApplicationTag` as the front end receives it. */
  datatype Tag = Tag(id: int, name: string, displayName: string, tagType: Option<string>)

  /** `CountryOfOrigin`. */
  datatype Country = Country(id: int, name: string, displayName: string)

  /** `Application`, the record behind a catalog card. */
  datatype App = App(id: string, displayName: string, description: string, lifecycleState: Option<string>,
                     categories: Option<seq<Tag>>, tags: Option<seq<Tag>>,
                     capabilities: Option<seq<string>>, midpointVersions: Option<seq<string>>,
                     origins: Option<seq<Country>>, requestId: Option<int>, voteCount: Option<int>)

  /** `FilterState`: the trending switch and one selection per filter dimension. */
  datatype FilterState = FilterState(trending: bool, categories: seq<string>, capabilities: seq<string>,
                                     appStatus: seq<string>, midpointVersions: seq<string>,
                                     integrationMethods: seq<string>)

  /** No filter at all: the initial and the reset state of both components. */
  const EMPTY_FILTER := FilterState(false, [], [], [], [], [])

  /** The dimensions of a filter state that hold a list of selected values. */
  datatype Dimension = Categories | Capabilities | AppStatus | MidpointVersions | IntegrationMethods

  function Selection(f: FilterState, d: Dimension): seq<string>
  {
    match d
    case Categories => f.categories
    case Capabilities => f.capabilities
    case AppStatus => f.appStatus
    case MidpointVersions => f.midpointVersions
    case IntegrationMethods => f.integrationMethods
  }

  /** `{ ...state, <d>: s }`: the selection of `d` replaced, everything else as it was. */
  function WithSelection(f: FilterState, d: Dimension, s: seq<string>): (r: FilterState)
    ensures r.trending == f.trending
    ensures forall e :: Selection(r, e) == if e == d then s else Selection(f, e)
  {
    match d
    case Categories => f.(categories := s)
    case Capabilities => f.(capabilities := s)
    case AppStatus => f.(appStatus := s)
    case MidpointVersions => f.(midpointVersions := s)
    case IntegrationMethods => f.(integrationMethods := s)
  }

  /** The search text as the list and the upload wizard compare it: lower-cased, then trimmed. */
  function NormalizedQuery(searchQuery: string): string
  {
    JsText.Trim(Text.ToLower(searchQuery))
  }

  /** `[...(app.categories || []), ...(app.tags || [])]`. */
  function AllTags(app: App): seq<Tag>
  {
    OrEmpty(app.categories) + OrEmpty(app.tags)
  }

  /** The tags that count as categories: typed CATEGORY or DEPLOYMENT. */
  predicate IsCategoryTag(t: Tag)
  {
    t.tagType == Some("CATEGORY") || t.tagType == Some("DEPLOYMENT")
  }

  /** The category tags of all applications, application by application, in tag order. */
  function CategoryTags(apps: seq<App>): (r: seq<Tag>)
    ensures forall i :: 0 <= i < |r| ==> IsCategoryTag(r[i])
  {
    if apps == [] then []
    else CategoryTags(apps[..|apps| - 1]) + Filter(AllTags(apps[|apps| - 1]), IsCategoryTag)
  }

  /** Every midPoint version of every application, application by application. */
  function AllVersions(apps: seq<App>): seq<string>
  {
    if apps == [] then []
    else AllVersions(apps[..|apps| - 1]) + OrEmpty(apps[|apps| - 1].midpointVersions)
  }

  /** A version is listed for some application exactly when it is in the concatenation. */
  lemma {:induction false} AllVersionsMembers(apps: seq<App>, v: string)
    ensures v in AllVersions(apps) <==> exists i :: 0 <= i < |apps| && v in OrEmpty(apps[i].midpointVersions)
  {
    if apps != [] {
      var init := apps[..|apps| - 1];
      AllVersionsMembers(init, v);
      assert forall i :: 0 <= i < |init| ==> init[i] == apps[i];
    }
  }

  /** The names of tags, in order. */
  function TagNames(tags: seq<Tag>): seq<string>
  {
    Map(tags, (t: Tag) => t.name)
  }

  /** One more tag has one more name, and one more distinct name when it is new. */
  lemma TagNamesAppend(seen: seq<Tag>, tag: Tag)
    ensures TagNames(seen + [tag]) == TagNames(seen) + [tag.name]
    ensures Dedupe(TagNames(seen + [tag])) == SetAdd(Dedupe(TagNames(seen)), tag.name)
  {
    assert TagNames(seen + [tag]) == TagNames(seen) + [tag.name];
    assert (TagNames(seen) + [tag.name])[..|seen|] == TagNames(seen);
  }

  /** The category tags of one more tag of a record. */
  lemma FilterStep(before: seq<Tag>, seen: seq<Tag>, all: seq<Tag>, j: int)
    requires 0 <= j < |all| && seen == before + Filter(all[..j], IsCategoryTag)
    ensures (if IsCategoryTag(all[j]) then seen + [all[j]] else seen) == before + Filter(all[..j + 1], IsCategoryTag)
  {
    assert all[..j + 1] == all[..j] + [all[j]];
    FilterAppend(all[..j], [all[j]], IsCategoryTag);
  }

  /** The category tags of one more record. */
  lemma CategoryTagsStep(apps: seq<App>, i: int)
    requires 0 <= i < |apps|
    ensures CategoryTags(apps[..i + 1]) == CategoryTags(apps[..i]) + Filter(AllTags(apps[i]), IsCategoryTag)
  {
    assert apps[..i + 1][..i] == apps[..i];
  }

  /**
   * The inner loop shared by `allMidpointVersions` and `loadMidpointVersions`:
   * every version of every record added to a `Set`, which keeps the first
   * occurrence of each in insertion order.
   */
  method CollectVersions(apps: seq<App>) returns (r: seq<string>)
    ensures r == Dedupe(AllVersions(apps))
  {
    r := [];
    for i := 0 to |apps|
      invariant r == Dedupe(AllVersions(apps[..i]))
    {
      r := AddVersions(r, AllVersions(apps[..i]), OrEmpty(apps[i].midpointVersions));
      assert apps[..i + 1][..i] == apps[..i];
    }
    assert apps[..|apps|] == apps;
  }

  /** `versions.forEach(v => versionsSet.add(v))`. */
  method AddVersions(r: seq<string>, ghost before: seq<string>, versions: seq<string>) returns (r': seq<string>)
    requires r == Dedupe(before)
    ensures r' == Dedupe(before + versions)
  {
    r' := r;
    ghost var added := before;
    for j := 0 to |versions|
      invariant added == before + versions[..j]
      invariant r' == Dedupe(added)
    {
      DedupeAppend(added, versions[j]);
      assert NoDup(r');
      r' := SetAdd(r', versions[j]);
      PrefixAppend(before, versions, j);
      added := added + [versions[j]];
    }
    assert versions[..|versions|] == versions;
  }

  /**
   * `allMidpointVersions` and `loadMidpointVersions`: every version any
   * record lists, each once, in code-point order.
   */
  function SortedVersions(apps: seq<App>): seq<string>
  {
    SortStrings(Dedupe(AllVersions(apps)))
  }

  lemma SortedVersionsSpec(apps: seq<App>, v: string)
    ensures NoDup(SortedVersions(apps))
    ensures SortedBy(SortedVersions(apps), (x: string) => x)
    ensures v in SortedVersions(apps) <==> exists i :: 0 <= i < |apps| && v in OrEmpty(apps[i].midpointVersions)
  {
    var d := Dedupe(AllVersions(apps));
    PermutationNoDup(d, SortedVersions(apps));
    SortBySorted(d, (x: string) => x);
    AllVersionsMembers(apps, v);
    assert v in SortedVersions(apps) <==> v in multiset(d);
  }

  /** `word.charAt(0) + word.slice(1).toLowerCase()`. */
  function Capitalize(word: string): (r: string)
    ensures |r| == |word|
    ensures word != [] ==> r[0] == word[0] && r[1..] == Text.ToLower(word[1..])
  {
    if word == [] then [] else [word[0]] + Text.ToLower(word[1..])
  }

  /**
   * `formatCapability`: the words between underscores, each with its first
   * character kept and the rest lower-cased, joined by single spaces.
   */
  function FormatCapability(capability: string): (r: string)
    ensures |r| == |capability|
    ensures '_' !in r
  {
    var words := Text.SplitOn(capability, '_');
    var shown := Map(words, Capitalize);
    Text.JoinSplitOn(capability, '_');
    Text.JoinSameLength(shown, words, " ", "_");
    forall i | 0 <= i < |shown| ensures '_' !in shown[i] {
      assert |shown[i]| == |words[i]|;
      forall j | 0 <= j < |shown[i]| ensures shown[i][j] != '_' {
        assert j == 0 || shown[i][j] == Text.LowerChar(words[i][j]);
      }
    }
    Text.NotInJoin(shown, " ", '_');
    Text.Join(shown, " ")
  }

  /** Words joined by underscores come back as the capitalised words joined by spaces. */
  lemma FormatCapabilityWords(words: seq<string>)
    requires |words| >= 1
    requires forall i :: 0 <= i < |words| ==> '_' !in words[i]
    ensures FormatCapability(Text.Join(words, "_")) == Text.Join(Map(words, Capitalize), " ")
  {
    Text.SplitOnJoin(words, '_');
  }
}
