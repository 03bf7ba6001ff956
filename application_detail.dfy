/**
 * The application detail page: the implementation versions of one
 * application, narrowed by a capability and a midPoint-version selection and
 * grouped into four buckets (active or not, by Evolveum or by the community),
 * plus the small tag, capability and connector-type formatters the page
 * shows them with.
 */
module ApplicationDetailView {
  import opened Wrappers
  import opened SeqUtil
  import Text
  import JsText
  import ApplicationsList

  /**
   * One implementation version as the page reads it. `midpointVersion` is
   * read by the filter although the model interface does not declare it.
   */
  datatype Version = Version(description: Option<string>, implementationTags: Option<seq<string>>,
                             capabilities: Option<seq<string>>, connectorVersion: Option<string>,
                             midpointVersion: Option<string>, author: Option<string>,
                             lifecycleState: Option<string>, downloadLink: Option<string>)

  /** The part of `ApplicationDetail` the page's logic reads. */
  datatype Detail = Detail(id: string, displayName: string, implementationVersions: Option<seq<Version>>)

  /** The page's own filter: selected capabilities and midPoint versions, as arrays. */
  datatype DetailFilter = DetailFilter(capabilities: seq<string>, midpointVersions: seq<string>)

  const NO_FILTER := DetailFilter([], [])

  /** A version with every field unset. */
  const BARE_VERSION := Version(None, None, None, None, None, None, None, None)

  datatype Tab = Main | Other

  // ---------------------------------------------------------------------------
  // Filtering and grouping
  // ---------------------------------------------------------------------------

  /** Some capability of the version is selected; a version without capabilities has none. */
  predicate HasSelectedCapability(v: Version, selected: seq<string>)
  {
    v.capabilities.Some? && exists i :: 0 <= i < |v.capabilities.value| && v.capabilities.value[i] in selected
  }

  /** The version's midPoint version is set, non-empty (JavaScript truthiness) and selected. */
  predicate HasSelectedVersion(v: Version, selected: seq<string>)
  {
    v.midpointVersion.Some? && v.midpointVersion.value != "" && v.midpointVersion.value in selected
  }

  function CapabilityTest(selected: seq<string>): Version -> bool
  {
    v => HasSelectedCapability(v, selected)
  }

  function VersionTest(selected: seq<string>): Version -> bool
  {
    v => HasSelectedVersion(v, selected)
  }

  /** The two narrowing steps of `groupVersionsByLifecycleState`, each skipped when its selection is empty. */
  function FilteredVersions(versions: seq<Version>, f: DetailFilter): (r: seq<Version>)
    ensures |r| <= |versions|
    ensures forall i :: 0 <= i < |r| ==> r[i] in versions && Admitted(f, r[i])
    ensures f.capabilities == [] && f.midpointVersions == [] ==> r == versions
  {
    var byCapability := if |f.capabilities| > 0 then Filter(versions, CapabilityTest(f.capabilities)) else versions;
    if |f.midpointVersions| > 0 then Filter(byCapability, VersionTest(f.midpointVersions)) else byCapability
  }

  /** Whether one version passes both steps. */
  predicate Admitted(f: DetailFilter, v: Version)
  {
    (f.capabilities == [] || HasSelectedCapability(v, f.capabilities))
    && (f.midpointVersions == [] || HasSelectedVersion(v, f.midpointVersions))
  }

  function AdmittedTest(f: DetailFilter): Version -> bool
  {
    v => Admitted(f, v)
  }

  /**
   * The two steps are one order-preserving filter: an empty selection keeps
   * every version, a non-empty one keeps exactly the versions it matches.
   */
  lemma FilteredIsFilter(versions: seq<Version>, f: DetailFilter)
    ensures FilteredVersions(versions, f) == Filter(versions, AdmittedTest(f))
  {
    var c, m := CapabilityTest(f.capabilities), VersionTest(f.midpointVersions);
    if |f.capabilities| > 0 && |f.midpointVersions| > 0 {
      FilterFilter(versions, c, m);
      FilterSameOn(versions, And(c, m), AdmittedTest(f));
    } else if |f.capabilities| > 0 {
      FilterSameOn(versions, c, AdmittedTest(f));
    } else if |f.midpointVersions| > 0 {
      FilterSameOn(versions, m, AdmittedTest(f));
    } else {
      FilterKeepsAll(versions, AdmittedTest(f));
    }
  }

  /** The filtered versions are exactly the admitted ones, in their original order. */
  lemma FilteredVersionsSpec(versions: seq<Version>, f: DetailFilter, v: Version)
    ensures v in FilteredVersions(versions, f) <==> v in versions && Admitted(f, v)
    ensures f == NO_FILTER ==> FilteredVersions(versions, f) == versions
  {
    FilteredIsFilter(versions, f);
  }

  datatype Bucket = ActiveEvolveum | ActiveCommunity | OtherEvolveum | OtherCommunity

  predicate IsActive(v: Version)
  {
    v.lifecycleState == Some("ACTIVE")
  }

  /** `version.author && version.author.toLowerCase().includes('evolveum')`. */
  predicate IsEvolveum(v: Version)
  {
    v.author.Some? && Text.Includes(Text.ToLower(v.author.value), "evolveum")
  }

  /** The `if` chain that picks the array a version is pushed to. */
  function BucketOf(v: Version): Bucket
  {
    if IsActive(v) && IsEvolveum(v) then ActiveEvolveum
    else if IsActive(v) && !IsEvolveum(v) then ActiveCommunity
    else if !IsActive(v) && IsEvolveum(v) then OtherEvolveum
    else OtherCommunity
  }

  /** A bucket says whether the version is active and whether Evolveum wrote it; a missing author is the community's. */
  lemma BucketMeaning(v: Version)
    ensures (BucketOf(v) == ActiveEvolveum || BucketOf(v) == ActiveCommunity) <==> v.lifecycleState == Some("ACTIVE")
    ensures (BucketOf(v) == ActiveEvolveum || BucketOf(v) == OtherEvolveum)
            <==> v.author.Some? && Text.Includes(Text.ToLower(v.author.value), "evolveum")
    ensures v.author.None? ==> BucketOf(v) == ActiveCommunity || BucketOf(v) == OtherCommunity
  {
  }

  function InBucket(b: Bucket): Version -> bool
  {
    v => BucketOf(v) == b
  }

  /** The four arrays the page shows. */
  datatype Buckets = Buckets(activeEvolveum: seq<Version>, activeCommunity: seq<Version>,
                             otherEvolveum: seq<Version>, otherCommunity: seq<Version>)

  const NO_BUCKETS := Buckets([], [], [], [])

  function Get(g: Buckets, b: Bucket): seq<Version>
  {
    match b
    case ActiveEvolveum => g.activeEvolveum
    case ActiveCommunity => g.activeCommunity
    case OtherEvolveum => g.otherEvolveum
    case OtherCommunity => g.otherCommunity
  }

  /** The reference grouping: each bucket is the versions that belong to it, in input order. */
  function Grouping(s: seq<Version>): Buckets
  {
    Buckets(Filter(s, InBucket(ActiveEvolveum)), Filter(s, InBucket(ActiveCommunity)),
            Filter(s, InBucket(OtherEvolveum)), Filter(s, InBucket(OtherCommunity)))
  }

  /** `push` onto the bucket of `v`. */
  function Place(g: Buckets, v: Version): Buckets
  {
    match BucketOf(v)
    case ActiveEvolveum => g.(activeEvolveum := g.activeEvolveum + [v])
    case ActiveCommunity => g.(activeCommunity := g.activeCommunity + [v])
    case OtherEvolveum => g.(otherEvolveum := g.otherEvolveum + [v])
    case OtherCommunity => g.(otherCommunity := g.otherCommunity + [v])
  }

  /** Pushing adds the version to its own bucket and leaves the other three alone. */
  lemma PlaceSpec(g: Buckets, v: Version)
    ensures Get(Place(g, v), BucketOf(v)) == Get(g, BucketOf(v)) + [v]
    ensures forall b :: b != BucketOf(v) ==> Get(Place(g, v), b) == Get(g, b)
  {
  }

  /** One more version lands at the end of its own bucket. */
  lemma GroupingAppend(s: seq<Version>, v: Version)
    ensures Grouping(s + [v]) == Place(Grouping(s), v)
  {
    BucketAppend(s, v, ActiveEvolveum);
    BucketAppend(s, v, ActiveCommunity);
    BucketAppend(s, v, OtherEvolveum);
    BucketAppend(s, v, OtherCommunity);
  }

  lemma BucketAppend(s: seq<Version>, v: Version, b: Bucket)
    ensures Filter(s + [v], InBucket(b)) == Filter(s, InBucket(b)) + (if BucketOf(v) == b then [v] else [])
  {
    FilterAppend(s, [v], InBucket(b));
    assert Filter([v], InBucket(b)) == if BucketOf(v) == b then [v] else [];
  }

  function BucketsMultiset(g: Buckets): multiset<Version>
  {
    multiset(g.activeEvolveum) + multiset(g.activeCommunity) + multiset(g.otherEvolveum) + multiset(g.otherCommunity)
  }

  /**
   * The buckets partition the versions: together they hold each version as
   * often as the input does, and a version is only in the bucket it belongs to.
   */
  lemma {:induction false} GroupingPartition(s: seq<Version>)
    ensures BucketsMultiset(Grouping(s)) == multiset(s)
    ensures forall b, v :: v in Get(Grouping(s), b) <==> v in s && BucketOf(v) == b
  {
    if s != [] {
      var init, last := s[..|s| - 1], s[|s| - 1];
      assert s == init + [last];
      GroupingPartition(init);
      GroupingAppend(init, last);
      PlaceSpec(Grouping(init), last);
    }
    forall b, v ensures v in Get(Grouping(s), b) <==> v in s && BucketOf(v) == b {
      assert Get(Grouping(s), b) == Filter(s, InBucket(b));
    }
  }

  function InactiveTest(): Version -> bool
  {
    v => !IsActive(v)
  }

  /** The two "other" buckets together count the versions that are not active. */
  lemma {:induction false} OtherCount(s: seq<Version>)
    ensures |Grouping(s).otherEvolveum| + |Grouping(s).otherCommunity| == |Filter(s, InactiveTest())|
  {
    if s != [] {
      var init, last := s[..|s| - 1], s[|s| - 1];
      assert s == init + [last];
      OtherCount(init);
      GroupingAppend(init, last);
      FilterAppend(init, [last], InactiveTest());
    }
  }

  // ---------------------------------------------------------------------------
  // Tag, capability and connector-type formatting
  // ---------------------------------------------------------------------------

  /** `s.replace(/\s+/g, '_')`: every run of white space becomes one underscore. */
  function CollapseWhitespace(s: string): (r: string)
    ensures |r| <= |s|
    ensures forall i :: 0 <= i < |r| ==> !JsText.IsWhitespace(r[i])
  {
    if s == [] then []
    else
      var head := if JsText.IsWhitespace(s[0]) then '_' else s[0];
      var c := CollapseWhitespace(if JsText.IsWhitespace(s[0]) then JsText.TrimStart(s[1..]) else s[1..]);
      assert forall i :: 0 < i <= |c| ==> ([head] + c)[i] == c[i - 1];
      [head] + c
  }

  /** A string without white space is its own collapse. */
  lemma {:induction false} CollapseKeeps(s: string)
    requires forall i :: 0 <= i < |s| ==> !JsText.IsWhitespace(s[i])
    ensures CollapseWhitespace(s) == s
  {
    if s != [] {
      CollapseKeeps(s[1..]);
    }
  }

  /** Two words separated by any run of white space collapse to the words joined by one underscore. */
  lemma {:induction false} CollapseTwoWords(a: string, gap: string, b: string)
    requires forall i :: 0 <= i < |a| ==> !JsText.IsWhitespace(a[i])
    requires forall i :: 0 <= i < |b| ==> !JsText.IsWhitespace(b[i])
    requires b == [] || !JsText.IsWhitespace(b[0])
    requires gap != [] && forall i :: 0 <= i < |gap| ==> JsText.IsWhitespace(gap[i])
    ensures CollapseWhitespace(a + gap + b) == a + "_" + b
  {
    CollapseAfterWord(a, gap + b);
    assert a + gap + b == a + (gap + b);
    CollapseGap(gap, b);
    assert a + ("_" + b) == a + "_" + b;
  }

  /** A run of white space in front of a word collapses to one underscore. */
  lemma {:induction false} CollapseGap(gap: string, b: string)
    requires forall i :: 0 <= i < |b| ==> !JsText.IsWhitespace(b[i])
    requires b == [] || !JsText.IsWhitespace(b[0])
    requires gap != [] && forall i :: 0 <= i < |gap| ==> JsText.IsWhitespace(gap[i])
    ensures CollapseWhitespace(gap + b) == "_" + b
  {
    var s := gap + b;
    assert s[0] == gap[0] && s[1..] == gap[1..] + b;
    SkipWhitespace(gap[1..], b);
    CollapseKeeps(b);
  }

  lemma {:induction false} CollapseAfterWord(a: string, rest: string)
    requires forall i :: 0 <= i < |a| ==> !JsText.IsWhitespace(a[i])
    ensures CollapseWhitespace(a + rest) == a + CollapseWhitespace(rest)
  {
    if a != [] {
      var s := a + rest;
      assert s[0] == a[0] && !JsText.IsWhitespace(s[0]);
      assert s[1..] == a[1..] + rest;
      assert CollapseWhitespace(s) == [a[0]] + CollapseWhitespace(s[1..]);
      assert forall i :: 0 <= i < |a[1..]| ==> !JsText.IsWhitespace(a[1..][i]) by {
        forall i | 0 <= i < |a[1..]| ensures !JsText.IsWhitespace(a[1..][i]) {
          assert a[1..][i] == a[i + 1];
        }
      }
      CollapseAfterWord(a[1..], rest);
      assert a == [a[0]] + a[1..];
    } else {
      assert a + rest == rest;
    }
  }

  lemma {:induction false} SkipWhitespace(gap: string, b: string)
    requires forall i :: 0 <= i < |gap| ==> JsText.IsWhitespace(gap[i])
    requires b == [] || !JsText.IsWhitespace(b[0])
    ensures JsText.TrimStart(gap + b) == b
  {
    if gap != [] {
      assert (gap + b)[1..] == gap[1..] + b;
      SkipWhitespace(gap[1..], b);
    }
  }

  /** The normal form `filterAiGeneratedTag` compares: lower-cased, white-space runs as `_`. */
  function NormalizeTag(tag: string): (r: string)
    ensures |r| <= |tag|
    ensures forall i :: 0 <= i < |r| ==> !JsText.IsWhitespace(r[i])
  {
    CollapseWhitespace(Text.ToLower(tag))
  }

  predicate IsAiGenerated(tag: string)
  {
    NormalizeTag(tag) == "ai_generated"
  }

  function NotAiGenerated(): string -> bool
  {
    tag => !IsAiGenerated(tag)
  }

  /** `filterAiGeneratedTag`: the tags, in order, without those that normalise to `ai_generated`. */
  function FilterAiGeneratedTag(tags: Option<seq<string>>): (r: seq<string>)
    ensures tags.None? ==> r == []
    ensures forall t :: t in r <==> t in OrEmpty(tags) && !IsAiGenerated(t)
  {
    if tags.None? then [] else Filter(tags.value, NotAiGenerated())
  }

  /** A label written "AI Generated" with any run of white space between the words is dropped. */
  lemma AiGeneratedLabelDropped(tag: string, gap: string)
    requires gap != [] && forall i :: 0 <= i < |gap| ==> JsText.IsWhitespace(gap[i])
    requires tag == "AI" + gap + "Generated"
    ensures IsAiGenerated(tag)
    ensures tag !in FilterAiGeneratedTag(Some([tag]))
  {
    var lower := Text.ToLower(tag);
    assert lower == "ai" + gap + "generated" by {
      assert forall i :: 0 <= i < |gap| ==> Text.LowerChar(gap[i]) == gap[i];
    }
    CollapseTwoWords("ai", gap, "generated");
  }

  /** `filterInstalledCapability`: every capability but `Installed`, in order. */
  function FilterInstalledCapability(capabilities: Option<seq<string>>): (r: seq<string>)
    ensures capabilities.None? ==> r == []
    ensures forall c :: c in r <==> c in OrEmpty(capabilities) && c != "Installed"
  {
    if capabilities.None? then [] else Without(capabilities.value, "Installed")
  }

  /** `hasNonInstalledCapabilities`. */
  predicate HasNonInstalledCapabilities(capabilities: Option<seq<string>>)
    ensures HasNonInstalledCapabilities(capabilities) ==> capabilities.Some? && capabilities.value != []
    ensures capabilities.Some? && capabilities.value != [] && capabilities.value[0] != "Installed" ==>
      HasNonInstalledCapabilities(capabilities)
  {
    capabilities.Some? && exists i :: 0 <= i < |capabilities.value| && capabilities.value[i] != "Installed"
  }

  /** The predicate agrees with the filter: something other than `Installed` exactly when the filter keeps something. */
  lemma NonInstalledIffFiltered(capabilities: Option<seq<string>>)
    ensures HasNonInstalledCapabilities(capabilities) <==> FilterInstalledCapability(capabilities) != []
  {
    if HasNonInstalledCapabilities(capabilities) {
      var i :| 0 <= i < |capabilities.value| && capabilities.value[i] != "Installed";
      assert capabilities.value[i] in FilterInstalledCapability(capabilities);
    }
  }

  /** `formatConnectorType`: null or "" is `Unknown`; the two known frameworks by upper-cased name. */
  function FormatConnectorType(framework: Option<string>): (r: string)
    ensures framework.None? || framework == Some("") ==> r == "Unknown"
    ensures framework.Some? && framework.value != "" ==>
      r == (if Text.ToUpper(framework.value) == "CONNID" then "Java-based"
            else if Text.ToUpper(framework.value) == "SCIM_REST" then "Low-code"
            else framework.value)
  {
    if framework.None? || framework.value == "" then "Unknown"
    else
      var normalizedFramework := Text.ToUpper(framework.value);
      if normalizedFramework == "CONNID" then "Java-based"
      else if normalizedFramework == "SCIM_REST" then "Low-code"
      else framework.value
  }

  /** Spelling that differs only in letter case names the same known framework. */
  lemma ConnectorTypeIgnoresCase(a: string, b: string)
    requires a != "" && Text.ToUpper(a) == Text.ToUpper(b)
    requires Text.ToUpper(a) == "CONNID" || Text.ToUpper(a) == "SCIM_REST"
    ensures FormatConnectorType(Some(a)) == FormatConnectorType(Some(b))
  {
  }

  /**
   * `formatCapabilityText`: underscores become spaces, the text is
   * lower-cased and its first character upper-cased.
   */
  function FormatCapabilityText(text: string): (r: string)
    ensures |r| == |text|
    ensures forall i :: 0 <= i < |r| ==> r[i] != '_'
    ensures text != "" ==> r[0] == Text.UpperChar(Text.LowerChar(if text[0] == '_' then ' ' else text[0]))
    ensures text != "" ==> r[1..] == Text.ToLower(Text.ReplaceChar(text[1..], '_', ' '))
  {
    if text == "" then ""
    else
      var formatted := Text.ToLower(Text.ReplaceChar(text, '_', ' '));
      [Text.UpperChar(formatted[0])] + formatted[1..]
  }

  /** Formatting an already formatted capability changes nothing. */
  lemma FormatCapabilityTextIdempotent(text: string)
    ensures FormatCapabilityText(FormatCapabilityText(text)) == FormatCapabilityText(text)
  {
    var r := FormatCapabilityText(text);
    if text != "" {
      var formatted := Text.ToLower(Text.ReplaceChar(r, '_', ' '));
      assert Text.ReplaceChar(r, '_', ' ') == r;
      assert formatted[1..] == r[1..];
    }
  }

  // ---------------------------------------------------------------------------
  // The page
  // ---------------------------------------------------------------------------

  class ApplicationDetailPage {
    var application: Option<Detail>
    var loading: bool
    var error: Option<string>
    /** Indices of the versions whose capability list is unfolded. */
    var expandedVersions: set<int>
    var activeEvolveumVersions: seq<Version>
    var activeCommunityVersions: seq<Version>
    var otherEvolveumVersions: seq<Version>
    var otherCommunityVersions: seq<Version>
    var activeTab: Tab
    var isFilterModalOpen: bool
    var filterState: DetailFilter
    var openDropdown: Option<string>
    var selectedFilterSection: string
    var applicationDownloadsCount: int

    constructor ()
      ensures application.None? && loading && error.None? && expandedVersions == {}
      ensures Shown() == NO_BUCKETS && activeTab == Main && !isFilterModalOpen
      ensures filterState == NO_FILTER && openDropdown.None? && selectedFilterSection == "capabilities"
      ensures applicationDownloadsCount == 0
      ensures Consistent()
    {
      application, loading, error, expandedVersions := None, true, None, {};
      activeEvolveumVersions, activeCommunityVersions := [], [];
      otherEvolveumVersions, otherCommunityVersions := [], [];
      activeTab, isFilterModalOpen, filterState := Main, false, NO_FILTER;
      openDropdown, selectedFilterSection, applicationDownloadsCount := None, "capabilities", 0;
    }

    function Shown(): Buckets
      reads this
    {
      Buckets(activeEvolveumVersions, activeCommunityVersions, otherEvolveumVersions, otherCommunityVersions)
    }

    /** The versions of the loaded application, when there are any. */
    function Versions(): Option<seq<Version>>
      reads this
    {
      if application.Some? then application.value.implementationVersions else None
    }

    /** The buckets always show the loaded versions under the current filter. */
    predicate Consistent()
      reads this
    {
      Shown() == if Versions().Some? then Grouping(FilteredVersions(Versions().value, filterState)) else NO_BUCKETS
    }

    /** `groupVersionsByLifecycleState`. */
    method GroupVersionsByLifecycleState(versions: Option<seq<Version>>)
      modifies this`activeEvolveumVersions, this`activeCommunityVersions
      modifies this`otherEvolveumVersions, this`otherCommunityVersions
      ensures Shown() == if versions.Some? then Grouping(FilteredVersions(versions.value, filterState)) else NO_BUCKETS
    {
      if versions.None? {
        activeEvolveumVersions, activeCommunityVersions := [], [];
        otherEvolveumVersions, otherCommunityVersions := [], [];
        return;
      }
      var filters := filterState;
      var filteredVersions := versions.value;
      if |filters.capabilities| > 0 {
        filteredVersions := Filter(filteredVersions, CapabilityTest(filters.capabilities));
      }
      if |filters.midpointVersions| > 0 {
        filteredVersions := Filter(filteredVersions, VersionTest(filters.midpointVersions));
      }
      var g := GroupFiltered(filteredVersions);
      activeEvolveumVersions, activeCommunityVersions := g.activeEvolveum, g.activeCommunity;
      otherEvolveumVersions, otherCommunityVersions := g.otherEvolveum, g.otherCommunity;
    }

    /** `applyFilters`: regroup only when an application with versions is loaded. */
    method ApplyFilters()
      modifies this`activeEvolveumVersions, this`activeCommunityVersions
      modifies this`otherEvolveumVersions, this`otherCommunityVersions
      ensures Versions().Some? ==> Shown() == Grouping(FilteredVersions(Versions().value, filterState))
      ensures Versions().None? ==> Shown() == old(Shown())
    {
      if application.Some? && application.value.implementationVersions.Some? {
        GroupVersionsByLifecycleState(application.value.implementationVersions);
      }
    }

    /** The `next` callback of `loadApplication`. */
    method OnApplicationLoaded(data: Detail)
      modifies this`application, this`loading
      modifies this`activeEvolveumVersions, this`activeCommunityVersions
      modifies this`otherEvolveumVersions, this`otherCommunityVersions
      ensures application == Some(data) && !loading
      ensures Consistent()
    {
      application := Some(data);
      GroupVersionsByLifecycleState(data.implementationVersions);
      loading := false;
    }

    /** The `error` callback of `loadApplication`. */
    method OnApplicationLoadFailed()
      modifies this`error, this`loading
      ensures error == Some("Failed to load application details") && !loading
    {
      error := Some("Failed to load application details");
      loading := false;
    }

    /** `ngOnInit` without an id in the route. */
    method OnMissingId()
      modifies this`error, this`loading
      ensures error == Some("No application ID provided") && !loading
    {
      error := Some("No application ID provided");
      loading := false;
    }

    /** The `next` callback of `loadApplicationDownloadsCount`. */
    method OnDownloadsCount(count: int)
      modifies this`applicationDownloadsCount
      ensures applicationDownloadsCount == count
    {
      applicationDownloadsCount := count;
    }

    /** `toggleCapabilities`. */
    method ToggleCapabilities(versionIndex: int)
      modifies this`expandedVersions
      ensures versionIndex in expandedVersions <==> versionIndex !in old(expandedVersions)
      ensures forall i :: i != versionIndex ==> (i in expandedVersions <==> i in old(expandedVersions))
    {
      if versionIndex in expandedVersions {
        expandedVersions := expandedVersions - {versionIndex};
      } else {
        expandedVersions := expandedVersions + {versionIndex};
      }
    }

    /** `isExpanded`. */
    function IsExpanded(versionIndex: int): (r: bool)
      reads this
      ensures expandedVersions == {} ==> !r
      ensures r ==> versionIndex in expandedVersions
    {
      versionIndex in expandedVersions
    }

    method SetActiveTab(tab: Tab)
      modifies this`activeTab
      ensures activeTab == tab
    {
      activeTab := tab;
    }

    method ToggleFilterModal()
      modifies this`isFilterModalOpen
      ensures isFilterModalOpen == !old(isFilterModalOpen)
    {
      isFilterModalOpen := !isFilterModalOpen;
    }

    method SelectFilterSection(section: string)
      modifies this`selectedFilterSection
      ensures selectedFilterSection == section
    {
      selectedFilterSection := section;
    }

    /** `toggleDropdown`, without the position the page computes from the DOM. */
    method ToggleDropdown(filterType: string)
      modifies this`openDropdown
      ensures openDropdown == if old(openDropdown) == Some(filterType) then None else Some(filterType)
    {
      if openDropdown == Some(filterType) {
        openDropdown := None;
      } else {
        openDropdown := Some(filterType);
      }
    }

    method CloseDropdown()
      modifies this`openDropdown
      ensures openDropdown.None?
    {
      openDropdown := None;
    }

    /** `resetFilters`. */
    method ResetFilters()
      requires Consistent()
      modifies this`filterState
      modifies this`activeEvolveumVersions, this`activeCommunityVersions
      modifies this`otherEvolveumVersions, this`otherCommunityVersions
      ensures filterState == NO_FILTER && Consistent()
    {
      filterState := NO_FILTER;
      ApplyFilters();
    }

    /** `clearCapabilitiesFilter`. */
    method ClearCapabilitiesFilter()
      requires Consistent()
      modifies this`filterState, this`openDropdown
      modifies this`activeEvolveumVersions, this`activeCommunityVersions
      modifies this`otherEvolveumVersions, this`otherCommunityVersions
      ensures filterState == old(filterState).(capabilities := []) && openDropdown.None? && Consistent()
    {
      filterState := filterState.(capabilities := []);
      ApplyFilters();
      CloseDropdown();
    }

    /** `clearVersionsFilter`. */
    method ClearVersionsFilter()
      requires Consistent()
      modifies this`filterState, this`openDropdown
      modifies this`activeEvolveumVersions, this`activeCommunityVersions
      modifies this`otherEvolveumVersions, this`otherCommunityVersions
      ensures filterState == old(filterState).(midpointVersions := []) && openDropdown.None? && Consistent()
    {
      filterState := filterState.(midpointVersions := []);
      ApplyFilters();
      CloseDropdown();
    }

    /** `toggleCapabilityFilter`: drop every occurrence if selected, else append. */
    method ToggleCapabilityFilter(capability: string)
      requires Consistent()
      modifies this`filterState
      modifies this`activeEvolveumVersions, this`activeCommunityVersions
      modifies this`otherEvolveumVersions, this`otherCommunityVersions
      ensures filterState == old(filterState).(capabilities := ApplicationsList.ListToggle(old(filterState.capabilities), capability))
      ensures Consistent()
    {
      var current := filterState.capabilities;
      if capability in current {
        filterState := filterState.(capabilities := Without(filterState.capabilities, capability));
      } else {
        filterState := filterState.(capabilities := filterState.capabilities + [capability]);
      }
      ApplyFilters();
    }

    /** `toggleMidpointVersionFilter`. */
    method ToggleMidpointVersionFilter(version: string)
      requires Consistent()
      modifies this`filterState
      modifies this`activeEvolveumVersions, this`activeCommunityVersions
      modifies this`otherEvolveumVersions, this`otherCommunityVersions
      ensures filterState == old(filterState).(midpointVersions := ApplicationsList.ListToggle(old(filterState.midpointVersions), version))
      ensures Consistent()
    {
      var current := filterState.midpointVersions;
      if version in current {
        filterState := filterState.(midpointVersions := Without(filterState.midpointVersions, version));
      } else {
        filterState := filterState.(midpointVersions := filterState.midpointVersions + [version]);
      }
      ApplyFilters();
    }

    /** `removeCapabilityFilter`. */
    method RemoveCapabilityFilter(capability: string)
      requires Consistent()
      modifies this`filterState
      modifies this`activeEvolveumVersions, this`activeCommunityVersions
      modifies this`otherEvolveumVersions, this`otherCommunityVersions
      ensures filterState == old(filterState).(capabilities := Without(old(filterState.capabilities), capability))
      ensures Consistent()
    {
      filterState := filterState.(capabilities := Without(filterState.capabilities, capability));
      ApplyFilters();
    }

    /** `removeMidpointVersionFilter`. */
    method RemoveMidpointVersionFilter(version: string)
      requires Consistent()
      modifies this`filterState
      modifies this`activeEvolveumVersions, this`activeCommunityVersions
      modifies this`otherEvolveumVersions, this`otherCommunityVersions
      ensures filterState == old(filterState).(midpointVersions := Without(old(filterState.midpointVersions), version))
      ensures Consistent()
    {
      filterState := filterState.(midpointVersions := Without(filterState.midpointVersions, version));
      ApplyFilters();
    }

    /** `isCapabilitySelected`: exactly when a version offering only this capability passes the capability step. */
    function IsCapabilitySelected(capability: string): (r: bool)
      reads this
      ensures r ==> filterState.capabilities != []
      ensures r <==> HasSelectedCapability(BARE_VERSION.(capabilities := Some([capability])), filterState.capabilities)
    {
      assert BARE_VERSION.(capabilities := Some([capability])).capabilities.value[0] == capability;
      capability in filterState.capabilities
    }

    /** `isMidpointVersionSelected`: for a non-empty version, exactly when a version of it passes the version step. */
    function IsMidpointVersionSelected(version: string): (r: bool)
      reads this
      ensures r ==> filterState.midpointVersions != []
      ensures version != "" ==>
        (r <==> HasSelectedVersion(BARE_VERSION.(midpointVersion := Some(version)), filterState.midpointVersions))
    {
      version in filterState.midpointVersions
    }

    /**
     * `hasActiveFilters`: some selection is non-empty. Without one the filter
     * keeps every version; with one it drops a version that has neither
     * capabilities nor a midPoint version.
     */
    function HasActiveFilters(): (r: bool)
      reads this
      ensures !r ==> forall vs :: FilteredVersions(vs, filterState) == vs
      ensures r ==> !Admitted(filterState, BARE_VERSION)
    {
      |filterState.capabilities| > 0 || |filterState.midpointVersions| > 0
    }

    /** `getTotalVersionsCount`: the loaded versions that pass the filter and are not active. */
    method GetTotalVersionsCount() returns (r: int)
      requires Consistent()
      ensures Versions().Some? ==> r == |Filter(FilteredVersions(Versions().value, filterState), InactiveTest())|
      ensures Versions().None? ==> r == 0
    {
      r := |otherEvolveumVersions| + |otherCommunityVersions|;
      if Versions().Some? {
        OtherCount(FilteredVersions(Versions().value, filterState));
      }
    }
  }

  /** The `forEach` that pushes each filtered version onto its bucket. */
  method GroupFiltered(filteredVersions: seq<Version>) returns (g: Buckets)
    ensures g == Grouping(filteredVersions)
  {
    var activeEvolveum, activeCommunity, otherEvolveum, otherCommunity := [], [], [], [];
    for i := 0 to |filteredVersions|
      invariant Buckets(activeEvolveum, activeCommunity, otherEvolveum, otherCommunity) == Grouping(filteredVersions[..i])
    {
      var version := filteredVersions[i];
      var isEvolveum := IsEvolveum(version);
      var isActive := IsActive(version);
      ghost var before := Buckets(activeEvolveum, activeCommunity, otherEvolveum, otherCommunity);
      GroupingAppend(filteredVersions[..i], version);
      assert filteredVersions[..i + 1] == filteredVersions[..i] + [version];
      if isActive && isEvolveum {
        activeEvolveum := activeEvolveum + [version];
      } else if isActive && !isEvolveum {
        activeCommunity := activeCommunity + [version];
      } else if !isActive && isEvolveum {
        otherEvolveum := otherEvolveum + [version];
      } else {
        otherCommunity := otherCommunity + [version];
      }
      assert Buckets(activeEvolveum, activeCommunity, otherEvolveum, otherCommunity) == Place(before, version);
    }
    assert filteredVersions[..|filteredVersions|] == filteredVersions;
    g := Buckets(activeEvolveum, activeCommunity, otherEvolveum, otherCommunity);
  }
}
