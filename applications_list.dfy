/**
 * The catalog list (`ApplicationsList`): the fetched application records run
 * through a chain of filters (category tab, search text, then the five
 * dimensions of the filter state), one of three sort orders, and a page of
 * twelve. The component's signals are the fields of `ListState`; its computed
 * signals are functions of them.
 */
module ApplicationsList {
  import opened Wrappers
  import opened SeqUtil
  import Text
  import JsText
  import opened Catalog

  const ITEMS_PER_PAGE := 12

  /** The three orders the sort selector offers. */
  datatype SortOption = Alphabetical | Popularity | Activity

  // ----- the tests of the filter chain -----

  /** `app.categories?.some(c => c.displayName === tab)`. */
  predicate InTab(app: App, tab: string)
  {
    app.categories.Some? && exists i :: 0 <= i < |app.categories.value| && app.categories.value[i].displayName == tab
  }

  /** The display name, lower-cased, contains the (already normalised) query. */
  predicate Mentions(app: App, query: string)
  {
    Text.Includes(Text.ToLower(app.displayName), query)
  }

  /** `app.tags?.some(tag => tag.name === 'popular')`. */
  predicate Popular(app: App)
  {
    app.tags.Some? && exists i :: 0 <= i < |app.tags.value| && app.tags.value[i].name == "popular"
  }

  /** Some category tag, drawn from categories and tags, carries a selected name. */
  predicate InCategories(app: App, selected: seq<string>)
  {
    exists i :: 0 <= i < |AllTags(app)| && AllTags(app)[i].name in selected && IsCategoryTag(AllTags(app)[i])
  }

  /** `app.capabilities?.some(c => selected.includes(c))`. */
  predicate HasCapability(app: App, selected: seq<string>)
  {
    app.capabilities.Some? && exists i :: 0 <= i < |app.capabilities.value| && app.capabilities.value[i] in selected
  }

  /** `app.lifecycleState && selected.includes(app.lifecycleState)`: an empty state is falsy. */
  predicate HasStatus(app: App, selected: seq<string>)
  {
    app.lifecycleState.Some? && app.lifecycleState.value != "" && app.lifecycleState.value in selected
  }

  /** `app.midpointVersions?.some(v => selected.includes(v))`. */
  predicate HasVersion(app: App, selected: seq<string>)
  {
    app.midpointVersions.Some?
    && exists i :: 0 <= i < |app.midpointVersions.value| && app.midpointVersions.value[i] in selected
  }

  /**
   * The reference: a record is listed exactly when it passes every test that
   * is switched on, where a test is on for a tab other than `all`, a
   * non-empty query, the trending switch, and a non-empty selection.
   */
  predicate Matches(app: App, tab: string, query: string, f: FilterState)
  {
    && (tab != "all" ==> InTab(app, tab))
    && (query != "" ==> Mentions(app, query))
    && (f.trending ==> Popular(app))
    && (f.categories != [] ==> InCategories(app, f.categories))
    && (f.capabilities != [] ==> HasCapability(app, f.capabilities))
    && (f.appStatus != [] ==> HasStatus(app, f.appStatus))
    && (f.midpointVersions != [] ==> HasVersion(app, f.midpointVersions))
  }

  function TabTest(tab: string): App -> bool { app => InTab(app, tab) }
  function SearchTest(query: string): App -> bool { app => Mentions(app, query) }
  function CategoryTest(selected: seq<string>): App -> bool { app => InCategories(app, selected) }
  function CapabilityTest(selected: seq<string>): App -> bool { app => HasCapability(app, selected) }
  function StatusTest(selected: seq<string>): App -> bool { app => HasStatus(app, selected) }
  function VersionTest(selected: seq<string>): App -> bool { app => HasVersion(app, selected) }
  function MatchTest(tab: string, query: string, f: FilterState): App -> bool { app => Matches(app, tab, query, f) }

  /** `if (on) { apps = apps.filter(p); }`. */
  function KeepIf<T>(s: seq<T>, on: bool, p: T -> bool): (r: seq<T>)
    ensures |r| <= |s| && forall i :: 0 <= i < |r| ==> r[i] in s
  {
    if on then Filter(s, p) else s
  }

  /**
   * The chain of filters as `moreApplications` and `filteredCount` write it,
   * one reassignment per test.
   */
  function Narrow(apps: seq<App>, tab: string, query: string, f: FilterState): (r: seq<App>)
    ensures |r| <= |apps|
    ensures forall i :: 0 <= i < |r| ==> r[i] in apps
    ensures (&& tab == "all" && query == "" && !f.trending && f.categories == [] && f.capabilities == []
             && f.appStatus == [] && f.midpointVersions == []) ==> r == apps
  {
    var a1 := KeepIf(apps, tab != "all", TabTest(tab));
    var a2 := KeepIf(a1, query != "", SearchTest(query));
    var a3 := KeepIf(a2, f.trending, Popular);
    var a4 := KeepIf(a3, f.categories != [], CategoryTest(f.categories));
    var a5 := KeepIf(a4, f.capabilities != [], CapabilityTest(f.capabilities));
    var a6 := KeepIf(a5, f.appStatus != [], StatusTest(f.appStatus));
    KeepIf(a6, f.midpointVersions != [], VersionTest(f.midpointVersions))
  }

  /** The test a record must pass after one more step of the chain. */
  function Then<T>(p: T -> bool, on: bool, q: T -> bool): T -> bool
  {
    x => p(x) && (!on || q(x))
  }

  lemma KeepAfterFilter<T>(s: seq<T>, p: T -> bool, on: bool, q: T -> bool)
    ensures KeepIf(Filter(s, p), on, q) == Filter(s, Then(p, on, q))
  {
    if on {
      FilterFilter(s, p, q);
      FilterSameOn(s, And(p, q), Then(p, on, q));
    } else {
      FilterSameOn(s, p, Then(p, on, q));
    }
  }

  /**
   * The chain keeps exactly the records that match, in their original
   * order: the dimensions combine by AND, each switched-off test removes
   * nothing.
   */
  lemma NarrowIsFilter(apps: seq<App>, tab: string, query: string, f: FilterState)
    ensures Narrow(apps, tab, query, f) == Filter(apps, MatchTest(tab, query, f))
  {
    NarrowIsChain(apps, tab, query, f);
    forall i | 0 <= i < |apps| ensures ChainTest(tab, query, f)(apps[i]) == MatchTest(tab, query, f)(apps[i]) {
      MatchChain(tab, query, f, apps[i]);
    }
    FilterSameOn(apps, ChainTest(tab, query, f), MatchTest(tab, query, f));
  }

  /** The seven tests of the chain, combined one after the other. */
  function ChainTest(tab: string, query: string, f: FilterState): App -> bool
  {
    var m1 := Then(Everything(), tab != "all", TabTest(tab));
    var m2 := Then(m1, query != "", SearchTest(query));
    var m3 := Then(m2, f.trending, Popular);
    var m4 := Then(m3, f.categories != [], CategoryTest(f.categories));
    var m5 := Then(m4, f.capabilities != [], CapabilityTest(f.capabilities));
    var m6 := Then(m5, f.appStatus != [], StatusTest(f.appStatus));
    Then(m6, f.midpointVersions != [], VersionTest(f.midpointVersions))
  }

  lemma NarrowIsChain(apps: seq<App>, tab: string, query: string, f: FilterState)
    ensures Narrow(apps, tab, query, f) == Filter(apps, ChainTest(tab, query, f))
  {
    var m0 := Everything<App>();
    FilterKeepsAll(apps, m0);
    var a1, m1 := Step(apps, apps, m0, tab != "all", TabTest(tab));
    var a2, m2 := Step(apps, a1, m1, query != "", SearchTest(query));
    var a3, m3 := Step(apps, a2, m2, f.trending, Popular);
    var a4, m4 := Step(apps, a3, m3, f.categories != [], CategoryTest(f.categories));
    var a5, m5 := Step(apps, a4, m4, f.capabilities != [], CapabilityTest(f.capabilities));
    var a6, m6 := Step(apps, a5, m5, f.appStatus != [], StatusTest(f.appStatus));
    var a7, m7 := Step(apps, a6, m6, f.midpointVersions != [], VersionTest(f.midpointVersions));
  }

  /** The seven chained tests together are the reference test. */
  lemma MatchChain(tab: string, query: string, f: FilterState, app: App)
    ensures ChainTest(tab, query, f)(app) == MatchTest(tab, query, f)(app)
  {
  }

  function Everything<T>(): T -> bool
  {
    x => true
  }

  /** One more step of the chain keeps what the combined test keeps. */
  lemma Step<T>(s: seq<T>, kept: seq<T>, p: T -> bool, on: bool, q: T -> bool) returns (next: seq<T>, both: T -> bool)
    requires kept == Filter(s, p)
    ensures next == KeepIf(kept, on, q) && both == Then(p, on, q)
    ensures next == Filter(s, both)
  {
    next, both := KeepIf(kept, on, q), Then(p, on, q);
    KeepAfterFilter(s, p, on, q);
  }

  /**
   * A record is listed iff it passes every switched-on test; with nothing
   * switched on every record is listed.
   */
  lemma ListedIff(apps: seq<App>, tab: string, query: string, f: FilterState, app: App)
    ensures app in Narrow(apps, tab, query, f) <==> app in apps && Matches(app, tab, query, f)
    ensures tab == "all" && query == "" && !HasActiveFilters(f) ==> Narrow(apps, tab, query, f) == apps
  {
    NarrowIsFilter(apps, tab, query, f);
    if tab == "all" && query == "" && !HasActiveFilters(f) {
      FilterKeepsAll(apps, MatchTest(tab, query, f));
    }
  }

  /** A record without the collection a non-empty selection looks at is never listed. */
  lemma AbsentNeverMatches(app: App, tab: string, query: string, f: FilterState)
    requires (f.capabilities != [] && app.capabilities.None?)
          || (f.midpointVersions != [] && app.midpointVersions.None?)
          || (f.appStatus != [] && app.lifecycleState.None?)
          || (f.trending && app.tags.None?)
          || (tab != "all" && app.categories.None?)
    ensures !Matches(app, tab, query, f)
  {
  }

  /** Search looks at the display name only, ignoring case on both sides and blanks around the query. */
  lemma SearchIgnoresCase(app: App, searchQuery: string)
    requires NormalizedQuery(searchQuery) != ""
    ensures Matches(app, "all", NormalizedQuery(searchQuery), EMPTY_FILTER)
        <==> Text.Includes(Text.ToLower(app.displayName), JsText.Trim(Text.ToLower(searchQuery)))
    ensures Matches(app, "all", NormalizedQuery(searchQuery), EMPTY_FILTER)
        == Matches(app.(displayName := Text.ToLower(app.displayName)), "all", NormalizedQuery(searchQuery), EMPTY_FILTER)
  {
    Text.ToLowerIdempotent(app.displayName);
  }

  /** A blank query is no query. */
  lemma BlankQueryFiltersNothing(searchQuery: string)
    requires forall i :: 0 <= i < |searchQuery| ==> JsText.IsWhitespace(searchQuery[i])
    ensures NormalizedQuery(searchQuery) == ""
  {
    var lower := Text.ToLower(searchQuery);
    assert forall i :: 0 <= i < |lower| ==> JsText.IsWhitespace(lower[i]);
    JsText.TrimEmptyIffBlank(lower);
  }

  /** Some filter dimension constrains the list. */
  predicate HasActiveFilters(f: FilterState)
  {
    f.trending || f.categories != [] || f.capabilities != [] || f.appStatus != [] || f.midpointVersions != []
  }

  // ----- sorting -----

  /** The sort keys: display name, and "0" before "1" for popular or ACTIVE records. */
  function SortKey(option: SortOption): App -> string
  {
    match option
    case Alphabetical => (app: App) => app.displayName
    case Popularity => (app: App) => if Popular(app) then "0" else "1"
    case Activity => (app: App) => if app.lifecycleState == Some("ACTIVE") then "0" else "1"
  }

  /**
   * `apps.sort(...)`: a stable sort (Array.prototype.sort is stable) by the
   * option's key; a comparator `(b ? 1 : 0) - (a ? 1 : 0)` orders exactly
   * like the key "0"/"1".
   */
  function SortApps(apps: seq<App>, option: SortOption): (r: seq<App>)
    ensures multiset(r) == multiset(apps)
    ensures SortedBy(r, SortKey(option))
  {
    SortBySorted(apps, SortKey(option));
    SortBy(apps, SortKey(option))
  }

  /**
   * The sort is a permutation ordered by its key, and records with equal
   * keys keep their order.
   */
  lemma SortAppsSpec(apps: seq<App>, option: SortOption, k: string)
    ensures multiset(SortApps(apps, option)) == multiset(apps)
    ensures SortedBy(SortApps(apps, option), SortKey(option))
    ensures Filter(SortApps(apps, option), KeyIs(SortKey(option), k)) == Filter(apps, KeyIs(SortKey(option), k))
  {
    SortBySorted(apps, SortKey(option));
    SortByStable(apps, SortKey(option), k);
  }

  /**
   * By popularity, every popular record comes before every other one, and
   * the popular and the other records each keep their filtered order.
   */
  lemma PopularFirst(apps: seq<App>)
    ensures var r := SortApps(apps, Popularity);
      && multiset(r) == multiset(apps)
      && (forall i, j :: 0 <= i < j < |r| && Popular(r[j]) ==> Popular(r[i]))
      && Filter(r, Popular) == Filter(apps, Popular)
      && Filter(r, Not(Popular)) == Filter(apps, Not(Popular))
  {
    var key := SortKey(Popularity);
    var r := SortApps(apps, Popularity);
    SortAppsSpec(apps, Popularity, "0");
    SortAppsSpec(apps, Popularity, "1");
    assert forall i, j :: 0 <= i < j < |r| ==> StrLe(key(r[i]), key(r[j]));
    FilterSameOn(r, KeyIs(key, "0"), Popular);
    FilterSameOn(apps, KeyIs(key, "0"), Popular);
    FilterSameOn(r, KeyIs(key, "1"), Not(Popular));
    FilterSameOn(apps, KeyIs(key, "1"), Not(Popular));
  }

  /** `lifecycleState === 'ACTIVE'`. */
  predicate Active(app: App)
  {
    app.lifecycleState == Some("ACTIVE")
  }

  /** By activity, every ACTIVE record comes before every other one, each group in its filtered order. */
  lemma ActiveFirst(apps: seq<App>)
    ensures var r := SortApps(apps, Activity);
      && multiset(r) == multiset(apps)
      && (forall i, j :: 0 <= i < j < |r| && Active(r[j]) ==> Active(r[i]))
      && Filter(r, Active) == Filter(apps, Active)
      && Filter(r, Not(Active)) == Filter(apps, Not(Active))
  {
    var key := SortKey(Activity);
    var r := SortApps(apps, Activity);
    SortAppsSpec(apps, Activity, "0");
    SortAppsSpec(apps, Activity, "1");
    assert forall i, j :: 0 <= i < j < |r| ==> StrLe(key(r[i]), key(r[j]));
    FilterSameOn(r, KeyIs(key, "0"), Active);
    FilterSameOn(apps, KeyIs(key, "0"), Active);
    FilterSameOn(r, KeyIs(key, "1"), Not(Active));
    FilterSameOn(apps, KeyIs(key, "1"), Not(Active));
  }

  // ----- paging -----

  /** JavaScript's `s.slice(start, end)`: negative bounds count from the end, all bounds are clamped. */
  function JsSlice<T>(s: seq<T>, start: int, end: int): seq<T>
  {
    var n := |s|;
    var from := if start < 0 then (if n + start < 0 then 0 else n + start) else (if start < n then start else n);
    var to := if end < 0 then (if n + end < 0 then 0 else n + end) else (if end < n then end else n);
    if from < to then s[from..to] else []
  }

  /** The records shown on page `page` of an already filtered, sorted list. */
  function Page<T>(s: seq<T>, page: int): (r: seq<T>)
    ensures |r| <= ITEMS_PER_PAGE
    ensures forall i :: 0 <= i < |r| ==> r[i] in s
    ensures page == -1 || (page >= 0 && |s| <= page * ITEMS_PER_PAGE) ==> r == []
  {
    JsSlice(s, page * ITEMS_PER_PAGE, page * ITEMS_PER_PAGE + ITEMS_PER_PAGE)
  }

  /**
   * A page never holds more than twelve records; for a page number from 0
   * on it is the slice from `page*12`, and it is empty from the end of the
   * list on.
   */
  lemma PageBounds<T>(s: seq<T>, page: int)
    ensures |Page(s, page)| <= ITEMS_PER_PAGE
    ensures forall i :: 0 <= i < |Page(s, page)| ==> Page(s, page)[i] in s
    ensures page >= 0 ==>
      var from := if page * ITEMS_PER_PAGE < |s| then page * ITEMS_PER_PAGE else |s|;
      var to := if page * ITEMS_PER_PAGE + ITEMS_PER_PAGE < |s| then page * ITEMS_PER_PAGE + ITEMS_PER_PAGE else |s|;
      Page(s, page) == s[from..to]
    ensures page >= 0 ==> (Page(s, page) == [] <==> page * ITEMS_PER_PAGE >= |s|)
  {
  }

  /** A page of the sorted records holds at most twelve of them, each one listed. */
  lemma PageOfListed(listed: seq<App>, option: SortOption, page: int)
    ensures |Page(SortApps(listed, option), page)| <= ITEMS_PER_PAGE
    ensures forall i :: 0 <= i < |Page(SortApps(listed, option), page)| ==> Page(SortApps(listed, option), page)[i] in listed
  {
    var sorted := SortApps(listed, option);
    PageBounds(sorted, page);
    SortAppsSpec(listed, option, "");
    forall i | 0 <= i < |Page(sorted, page)| ensures Page(sorted, page)[i] in listed {
      assert Page(sorted, page)[i] in multiset(sorted);
    }
  }

  /** `Math.ceil(count / 12)`. */
  function PageCount(count: nat): (r: nat)
    ensures (r - 1) * ITEMS_PER_PAGE < count <= r * ITEMS_PER_PAGE
    ensures r == 0 <==> count == 0
  {
    (count + ITEMS_PER_PAGE - 1) / ITEMS_PER_PAGE
  }

  /** Every record of the filtered list is on exactly one of the pages `0 .. totalPages-1`. */
  lemma PagesCoverList<T>(s: seq<T>, i: int)
    requires 0 <= i < |s|
    ensures 0 <= i / ITEMS_PER_PAGE < PageCount(|s|)
    ensures Page(s, i / ITEMS_PER_PAGE)[i % ITEMS_PER_PAGE] == s[i]
  {
  }

  // ----- the category and version lists -----

  /** `{ name, displayName }`, one entry of `getAllAvailableCategories`. */
  datatype NamedCategory = NamedCategory(name: string, displayName: string)

  /** The display name of the last tag with this name: `Map.set` overwrites. */
  function LastDisplayName(tags: seq<Tag>, name: string): string
  {
    if tags == [] then ""
    else if tags[|tags| - 1].name == name then tags[|tags| - 1].displayName
    else LastDisplayName(tags[..|tags| - 1], name)
  }

  /** The display name kept for a name is that of its last occurrence. */
  lemma {:induction false} LastDisplayNameIsLast(tags: seq<Tag>, name: string, k: int)
    requires 0 <= k < |tags| && tags[k].name == name
    ensures exists m :: (k <= m < |tags| && tags[m].name == name && LastDisplayName(tags, name) == tags[m].displayName
      && forall m' :: m < m' < |tags| ==> tags[m'].name != name)
  {
    if tags[|tags| - 1].name != name {
      var init := tags[..|tags| - 1];
      LastDisplayNameIsLast(init, name, k);
      var m :| (k <= m < |init| && init[m].name == name && LastDisplayName(init, name) == init[m].displayName
        && forall m' :: m < m' < |init| ==> init[m'].name != name);
      assert tags[m] == init[m];
      assert forall m' :: m < m' < |init| ==> tags[m'] == init[m'];
    }
  }

  /** The map's entries in key insertion order: first occurrences, each with its last display name. */
  function CategoryEntries(tags: seq<Tag>): seq<NamedCategory>
  {
    Map(Dedupe(TagNames(tags)), (n: string) => NamedCategory(n, LastDisplayName(tags, n)))
  }

  function DisplayKey(c: NamedCategory): string
  {
    c.displayName
  }

  /** What `getAllAvailableCategories` returns for these applications. */
  function AvailableCategories(apps: seq<App>): (r: seq<NamedCategory>)
    ensures SortedBy(r, DisplayKey)
    ensures multiset(r) == multiset(CategoryEntries(CategoryTags(apps)))
  {
    SortBySorted(CategoryEntries(CategoryTags(apps)), DisplayKey);
    SortBy(CategoryEntries(CategoryTags(apps)), DisplayKey)
  }

  /**
   * The available categories are ordered by display name, name each
   * category tag exactly once, and show the display name its last
   * occurrence carries.
   */
  lemma AvailableCategoriesSpec(apps: seq<App>)
    ensures var tags := CategoryTags(apps); var r := AvailableCategories(apps);
      && SortedBy(r, DisplayKey)
      && (forall i, j :: 0 <= i < j < |r| ==> r[i].name != r[j].name)
      && (forall i :: 0 <= i < |r| ==>
            r[i].name in TagNames(tags) && r[i].displayName == LastDisplayName(tags, r[i].name))
      && (forall k :: 0 <= k < |tags| ==> exists i :: 0 <= i < |r| && r[i].name == tags[k].name)
  {
    var tags := CategoryTags(apps);
    var entries := CategoryEntries(tags);
    EntriesSpec(tags);
    SortBySorted(entries, DisplayKey);
    SortedEntries(tags, entries, AvailableCategories(apps));
  }

  /** The entries before sorting: one per distinct name, with its last display name. */
  lemma EntriesSpec(tags: seq<Tag>)
    ensures var e := CategoryEntries(tags);
      && NoDup(e)
      && (forall i :: 0 <= i < |e| ==> e[i].name in TagNames(tags) && e[i].displayName == LastDisplayName(tags, e[i].name))
      && (forall k :: 0 <= k < |tags| ==> exists i :: 0 <= i < |e| && e[i].name == tags[k].name)
  {
    var names := Dedupe(TagNames(tags));
    var e := CategoryEntries(tags);
    forall i, j | 0 <= i < j < |e| ensures e[i] != e[j] {
      assert e[i].name == names[i] && e[j].name == names[j];
    }
    forall k | 0 <= k < |tags| ensures exists i :: 0 <= i < |e| && e[i].name == tags[k].name {
      assert TagNames(tags)[k] == tags[k].name;
      var a :| 0 <= a < |names| && names[a] == tags[k].name;
      assert e[a].name == names[a];
    }
  }

  /** Sorting the entries keeps each entry and its uniqueness by name. */
  lemma SortedEntries(tags: seq<Tag>, e: seq<NamedCategory>, r: seq<NamedCategory>)
    requires multiset(r) == multiset(e) && NoDup(e)
    requires forall i :: 0 <= i < |e| ==> e[i].name in TagNames(tags) && e[i].displayName == LastDisplayName(tags, e[i].name)
    requires forall k :: 0 <= k < |tags| ==> exists i :: 0 <= i < |e| && e[i].name == tags[k].name
    ensures forall i, j :: 0 <= i < j < |r| ==> r[i].name != r[j].name
    ensures forall i :: 0 <= i < |r| ==> r[i].name in TagNames(tags) && r[i].displayName == LastDisplayName(tags, r[i].name)
    ensures forall k :: 0 <= k < |tags| ==> exists i :: 0 <= i < |r| && r[i].name == tags[k].name
  {
    PermutationNoDup(e, r);
    forall i | 0 <= i < |r| ensures r[i].name in TagNames(tags) && r[i].displayName == LastDisplayName(tags, r[i].name) {
      assert r[i] in multiset(e);
      var a :| 0 <= a < |e| && e[a] == r[i];
    }
    forall i, j | 0 <= i < j < |r| ensures r[i].name != r[j].name {
      assert r[i] in multiset(e) && r[j] in multiset(e);
      var a :| 0 <= a < |e| && e[a] == r[i];
      var b :| 0 <= b < |e| && e[b] == r[j];
    }
    forall k | 0 <= k < |tags| ensures exists i :: 0 <= i < |r| && r[i].name == tags[k].name {
      var a :| 0 <= a < |e| && e[a].name == tags[k].name;
      assert e[a] in multiset(r);
      var i :| 0 <= i < |r| && r[i] == e[a];
    }
  }

  /**
   * The state of the loop of `getAllAvailableCategories` after the tags
   * `seen`: the keys in insertion order, and the display name last set for
   * each key.
   */
  ghost predicate Indexed(keys: seq<string>, m: map<string, string>, seen: seq<Tag>)
  {
    && keys == Dedupe(TagNames(seen))
    && (forall n :: n in m <==> n in keys)
    && (forall n :: n in m ==> m[n] == LastDisplayName(seen, n))
  }

  /** `categoriesMap.set(tag.name, tag.displayName)` keeps the loop state. */
  lemma IndexTag(keys: seq<string>, m: map<string, string>, seen: seq<Tag>, tag: Tag)
    requires Indexed(keys, m, seen)
    ensures Indexed(if tag.name in m then keys else keys + [tag.name], m[tag.name := tag.displayName], seen + [tag])
  {
    var keys' := if tag.name in m then keys else keys + [tag.name];
    var m' := m[tag.name := tag.displayName];
    var seen' := seen + [tag];
    RecordTag(seen, tag);
    assert keys' == SetAdd(keys, tag.name);
    forall n ensures n in m' <==> n in keys' {
      assert n in m' <==> n in m || n == tag.name;
    }
    forall n | n in m' ensures m'[n] == LastDisplayName(seen', n) {
      assert LastDisplayName(seen', n) == if tag.name == n then tag.displayName else LastDisplayName(seen, n);
      if n != tag.name {
        assert n in m && m'[n] == m[n];
      }
    }
  }

  /** The inner loop of `getAllAvailableCategories`: one record's tags entered into the map. */
  method IndexTags(all: seq<Tag>, keys: seq<string>, m: map<string, string>, ghost seen: seq<Tag>)
    returns (keys': seq<string>, m': map<string, string>, ghost seen': seq<Tag>)
    requires Indexed(keys, m, seen)
    ensures seen' == seen + Filter(all, IsCategoryTag)
    ensures Indexed(keys', m', seen')
  {
    keys', m', seen' := keys, m, seen;
    for j := 0 to |all|
      invariant seen' == seen + Filter(all[..j], IsCategoryTag)
      invariant Indexed(keys', m', seen')
    {
      var tag := all[j];
      FilterStep(seen, seen', all, j);
      if IsCategoryTag(tag) {
        IndexTag(keys', m', seen', tag);
        keys' := if tag.name in m' then keys' else keys' + [tag.name];
        m' := m'[tag.name := tag.displayName];
        seen' := seen' + [tag];
      }
    }
    assert all[..|all|] == all;
  }

  /** The entries read back from the finished map. */
  lemma IndexedEntries(keys: seq<string>, m: map<string, string>, seen: seq<Tag>)
    requires Indexed(keys, m, seen)
    ensures forall k :: 0 <= k < |keys| ==> keys[k] in m
    ensures Entries(keys, m) == CategoryEntries(seen)
  {
  }

  /** `Array.from(categoriesMap.entries())`: one entry per key, in insertion order. */
  function Entries(keys: seq<string>, m: map<string, string>): seq<NamedCategory>
    requires forall k :: 0 <= k < |keys| ==> keys[k] in m
  {
    seq(|keys|, k requires 0 <= k < |keys| => NamedCategory(keys[k], m[keys[k]]))
  }

  /** A tag recorded by the loop extends the key order and the last display names. */
  lemma RecordTag(seen: seq<Tag>, tag: Tag)
    ensures TagNames(seen + [tag]) == TagNames(seen) + [tag.name]
    ensures Dedupe(TagNames(seen + [tag])) == SetAdd(Dedupe(TagNames(seen)), tag.name)
    ensures forall n :: LastDisplayName(seen + [tag], n) == if tag.name == n then tag.displayName else LastDisplayName(seen, n)
  {
    TagNamesAppend(seen, tag);
    assert (seen + [tag])[..|seen|] == seen;
  }

  /** `formatLifecycleState` (and `formatAppStatus`): the four known states get a label. */
  function FormatLifecycleState(state: Option<string>): (r: string)
    ensures r == "" <==> state.None? || state.value == ""
    ensures state == Some("REQUESTED") ==> r == "Requested"
    ensures state == Some("ACTIVE") ==> r == "Active"
    ensures state == Some("WITH_ERROR") ==> r == "With error"
    ensures state == Some("IN_PUBLISH_PROCESS") ==> r == "Publishing..."
    ensures state.Some? && state.value !in {"REQUESTED", "ACTIVE", "WITH_ERROR", "IN_PUBLISH_PROCESS"} ==> r == state.value
  {
    if state.None? || state.value == "" then ""
    else match state.value
      case "REQUESTED" => "Requested"
      case "ACTIVE" => "Active"
      case "WITH_ERROR" => "With error"
      case "IN_PUBLISH_PROCESS" => "Publishing..."
      case _ => state.value
  }

  // ----- the component -----

  /** The filter dimensions the list itself edits (it never filters on integration methods). */
  type ListDimension = d: Dimension | d != IntegrationMethods witness Categories

  /** Append a value that is absent, remove every occurrence of one that is present. */
  function ListToggle(s: seq<string>, v: string): (r: seq<string>)
    ensures v in r <==> v !in s
    ensures forall w :: w != v ==> (w in r <==> w in s)
  {
    if v in s then Without(s, v) else s + [v]
  }

  /** Toggling keeps a selection duplicate-free, and toggling an absent value twice restores it. */
  lemma ListToggleTwice(s: seq<string>, v: string)
    ensures NoDup(s) ==> NoDup(ListToggle(s, v))
    ensures v !in s ==> ListToggle(ListToggle(s, v), v) == s
  {
    if NoDup(s) && v in s {
      WithoutNoDup(s, v);
    }
    if v !in s {
      WithoutAppend(s, [v], v);
      WithoutAbsent(s, v);
      assert Without([v], v) == [];
    }
  }

  /** The filter chain of `moreApplications`, one reassignment per test. */
  method NarrowApps(applications: seq<App>, tab: string, query: string, f: FilterState) returns (apps: seq<App>)
    ensures apps == Narrow(applications, tab, query, f)
    ensures apps == Filter(applications, MatchTest(tab, query, f))
  {
    apps := applications;
    ghost var a0 := apps;
    if tab != "all" {
      apps := Filter(apps, TabTest(tab));
    }
    assert apps == KeepIf(a0, tab != "all", TabTest(tab));
    ghost var a1 := apps;
    if query != "" {
      apps := Filter(apps, SearchTest(query));
    }
    assert apps == KeepIf(a1, query != "", SearchTest(query));
    ghost var a2 := apps;
    if f.trending {
      apps := Filter(apps, Popular);
    }
    assert apps == KeepIf(a2, f.trending, Popular);
    ghost var a3 := apps;
    if f.categories != [] {
      apps := Filter(apps, CategoryTest(f.categories));
    }
    assert apps == KeepIf(a3, f.categories != [], CategoryTest(f.categories));
    ghost var a4 := apps;
    if f.capabilities != [] {
      apps := Filter(apps, CapabilityTest(f.capabilities));
    }
    assert apps == KeepIf(a4, f.capabilities != [], CapabilityTest(f.capabilities));
    ghost var a5 := apps;
    if f.appStatus != [] {
      apps := Filter(apps, StatusTest(f.appStatus));
    }
    assert apps == KeepIf(a5, f.appStatus != [], StatusTest(f.appStatus));
    ghost var a6 := apps;
    if f.midpointVersions != [] {
      apps := Filter(apps, VersionTest(f.midpointVersions));
    }
    assert apps == KeepIf(a6, f.midpointVersions != [], VersionTest(f.midpointVersions));
    NarrowIsFilter(applications, tab, query, f);
  }

  class ListState {
    var applications: seq<App>
    var searchQuery: string
    var activeTab: string
    var filterState: FilterState
    var currentPage: int
    var sortBy: SortOption
    var openDropdown: Option<string>

    constructor ()
      ensures applications == [] && searchQuery == "" && activeTab == "all"
      ensures filterState == EMPTY_FILTER && currentPage == 0 && sortBy == Alphabetical && openDropdown.None?
    {
      applications, searchQuery, activeTab := [], "", "all";
      filterState, currentPage, sortBy, openDropdown := EMPTY_FILTER, 0, Alphabetical, None;
    }

    /** The records the current tab, query and filters let through, in fetched order. */
    function Listed(): seq<App>
      reads this
    {
      Filter(applications, MatchTest(activeTab, NormalizedQuery(searchQuery), filterState))
    }

    /** `featuredApplications`: every record while nothing narrows the list, none otherwise. */
    function FeaturedApplications(): (r: seq<App>)
      reads this
      ensures NormalizedQuery(searchQuery) == "" && activeTab == "all" && !HasActiveFilters(filterState)
              ==> r == applications && r == Listed()
      ensures NormalizedQuery(searchQuery) != "" || activeTab != "all" || HasActiveFilters(filterState) ==> r == []
    {
      var query := NormalizedQuery(searchQuery);
      if query != "" || activeTab != "all" || HasActiveFilters(filterState) then []
      else
        FilterKeepsAll(applications, MatchTest(activeTab, query, filterState));
        applications
    }

    /** `filteredCount`: the length of the filter chain's output. */
    function FilteredCount(): (r: nat)
      reads this
      ensures r == |Listed()|
    {
      var n := Narrow(applications, activeTab, NormalizedQuery(searchQuery), filterState);
      NarrowIsFilter(applications, activeTab, NormalizedQuery(searchQuery), filterState);
      |n|
    }

    /** `totalPages`: enough pages of twelve for the listed records, and none for an empty list. */
    function TotalPages(): (r: nat)
      reads this
      ensures (r - 1) * ITEMS_PER_PAGE < FilteredCount() <= r * ITEMS_PER_PAGE
      ensures r == 0 <==> FilteredCount() == 0
    {
      PageCount(FilteredCount())
    }

    /** The current page lies in `[0, max(totalPages - 1, 0)]`. */
    predicate PageInRange()
      reads this
    {
      0 <= currentPage && (currentPage == 0 || currentPage < TotalPages())
    }

    /**
     * `moreApplications`: the chain of filters over a copy of the records,
     * the chosen sort, and the current page of twelve.
     */
    method MoreApplications() returns (page: seq<App>)
      ensures page == Page(SortApps(Listed(), sortBy), currentPage)
      ensures |page| <= ITEMS_PER_PAGE
      ensures forall i :: 0 <= i < |page| ==> page[i] in Listed()
    {
      var query := NormalizedQuery(searchQuery);
      var apps := NarrowApps(applications, activeTab, query, filterState);
      apps := SortApps(apps, sortBy);
      var start := currentPage * ITEMS_PER_PAGE;
      page := JsSlice(apps, start, start + ITEMS_PER_PAGE);
      PageOfListed(Listed(), sortBy, currentPage);
    }

    /** `onSearchChange`. */
    method OnSearchChange(value: string)
      modifies this
      ensures searchQuery == value && currentPage == 0
      ensures applications == old(applications) && activeTab == old(activeTab) && filterState == old(filterState)
      ensures sortBy == old(sortBy) && openDropdown == old(openDropdown)
    {
      searchQuery := value;
      currentPage := 0;
    }

    /** `resetFilter`: no query, no filter, first page; tab and sort stay. */
    method ResetFilter()
      modifies this
      ensures searchQuery == "" && filterState == EMPTY_FILTER && currentPage == 0
      ensures applications == old(applications) && activeTab == old(activeTab)
      ensures sortBy == old(sortBy) && openDropdown == old(openDropdown)
    {
      searchQuery := "";
      filterState := EMPTY_FILTER;
      currentPage := 0;
    }

    /** `closeDropdown`. */
    method CloseDropdown()
      modifies this`openDropdown
      ensures openDropdown.None?
    {
      openDropdown := None;
    }

    /** `toggleDropdown`, without the position of the menu on screen. */
    method ToggleDropdown(filterType: string)
      modifies this`openDropdown
      ensures openDropdown == if old(openDropdown) == Some(filterType) then None else Some(filterType)
    {
      if openDropdown == Some(filterType) {
        openDropdown := None;
      } else {
        openDropdown := Some(filterType);
      }
    }

    /** `clearTrendingFilter`. */
    method ClearTrendingFilter()
      modifies this
      ensures filterState == old(filterState).(trending := false) && currentPage == 0 && openDropdown.None?
      ensures applications == old(applications) && searchQuery == old(searchQuery)
      ensures activeTab == old(activeTab) && sortBy == old(sortBy)
    {
      filterState := filterState.(trending := false);
      currentPage := 0;
      CloseDropdown();
    }

    /** `clearCategoriesFilter`, `clearCapabilitiesFilter`, `clearAppStatusFilter`, `clearMidpointVersionsFilter`. */
    method ClearFilter(d: ListDimension)
      modifies this
      ensures filterState == WithSelection(old(filterState), d, []) && currentPage == 0 && openDropdown.None?
      ensures applications == old(applications) && searchQuery == old(searchQuery)
      ensures activeTab == old(activeTab) && sortBy == old(sortBy)
    {
      filterState := WithSelection(filterState, d, []);
      currentPage := 0;
      CloseDropdown();
    }

    /** `removeCategoryFilter` and its three siblings: every occurrence of the value leaves that selection. */
    method RemoveFilter(d: ListDimension, value: string)
      modifies this
      ensures filterState == WithSelection(old(filterState), d, Without(Selection(old(filterState), d), value))
      ensures currentPage == 0
      ensures applications == old(applications) && searchQuery == old(searchQuery)
      ensures activeTab == old(activeTab) && sortBy == old(sortBy) && openDropdown == old(openDropdown)
    {
      filterState := WithSelection(filterState, d, Without(Selection(filterState, d), value));
      currentPage := 0;
    }

    /** `toggleCategoryInFilter` and its three siblings. */
    method ToggleInFilter(d: ListDimension, value: string)
      modifies this
      ensures filterState == WithSelection(old(filterState), d, ListToggle(Selection(old(filterState), d), value))
      ensures currentPage == 0
      ensures applications == old(applications) && searchQuery == old(searchQuery)
      ensures activeTab == old(activeTab) && sortBy == old(sortBy) && openDropdown == old(openDropdown)
    {
      if value in Selection(filterState, d) {
        RemoveFilter(d, value);
      } else {
        filterState := WithSelection(filterState, d, Selection(filterState, d) + [value]);
        currentPage := 0;
      }
    }

    /** `isCategorySelected` and its three siblings. */
    function IsSelected(d: ListDimension, value: string): bool
      reads this
    {
      value in Selection(filterState, d)
    }

    /**
     * `getAllAvailableCategories`: a map from tag name to display name
     * filled over the category tags of all records, read back as entries
     * and sorted by display name.
     */
    method AllAvailableCategories() returns (r: seq<NamedCategory>)
      ensures r == AvailableCategories(applications)
    {
      var keys: seq<string> := [];
      var m: map<string, string> := map[];
      ghost var seen: seq<Tag> := [];
      for i := 0 to |applications|
        invariant seen == CategoryTags(applications[..i])
        invariant Indexed(keys, m, seen)
      {
        keys, m, seen := IndexTags(AllTags(applications[i]), keys, m, seen);
        CategoryTagsStep(applications, i);
      }
      assert applications[..|applications|] == applications;
      IndexedEntries(keys, m, seen);
      var entries := Entries(keys, m);
      r := SortBy(entries, DisplayKey);
    }

    /** `allMidpointVersions`: the versions collected in a `Set`, sorted. */
    method AllMidpointVersions() returns (r: seq<string>)
      ensures r == SortedVersions(applications)
    {
      var versions := CollectVersions(applications);
      r := SortStrings(versions);
    }

    /** `onSortChange`. */
    method OnSortChange(option: SortOption)
      modifies this
      ensures sortBy == option && currentPage == 0
      ensures applications == old(applications) && searchQuery == old(searchQuery) && activeTab == old(activeTab)
      ensures filterState == old(filterState) && openDropdown == old(openDropdown)
    {
      sortBy := option;
      currentPage := 0;
    }

    /** `setActiveTab`. */
    method SetActiveTab(tab: string)
      modifies this
      ensures activeTab == tab && currentPage == 0
      ensures applications == old(applications) && searchQuery == old(searchQuery) && sortBy == old(sortBy)
      ensures filterState == old(filterState) && openDropdown == old(openDropdown)
    {
      activeTab := tab;
      currentPage := 0;
    }

    /** `applyFilter`: the dialog's filter state replaces the list's. */
    method ApplyFilter(f: FilterState)
      modifies this
      ensures filterState == f && currentPage == 0
      ensures applications == old(applications) && searchQuery == old(searchQuery) && activeTab == old(activeTab)
      ensures sortBy == old(sortBy) && openDropdown == old(openDropdown)
    {
      filterState := f;
      currentPage := 0;
    }

    /** `nextPage`: one page on, unless this is the last page. */
    method NextPage()
      modifies this`currentPage
      ensures currentPage == if old(currentPage) < TotalPages() - 1 then old(currentPage) + 1 else old(currentPage)
      ensures old(PageInRange()) ==> PageInRange()
    {
      if currentPage < TotalPages() - 1 {
        currentPage := currentPage + 1;
      }
    }

    /** `previousPage`: one page back, unless this is the first page. */
    method PreviousPage()
      modifies this`currentPage
      ensures currentPage == if old(currentPage) > 0 then old(currentPage) - 1 else old(currentPage)
      ensures old(PageInRange()) ==> PageInRange()
    {
      if currentPage > 0 {
        currentPage := currentPage - 1;
      }
    }

    /** `goToPage`: the argument, unchecked. */
    method GoToPage(page: int)
      modifies this`currentPage
      ensures currentPage == page
    {
      currentPage := page;
    }
  }
}
