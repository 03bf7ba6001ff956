/**
 * `FilterModal`: the dialog that edits a copy of the catalog's filter state.
 * Each selection is a JavaScript `Set`, modelled as a duplicate-free sequence
 * in insertion order (the order `Array.from` reads it back in). The two
 * outputs, `filterApplied` and `modalClosed`, are an event log. The records
 * the dialog counts come from the application service and are a parameter.
 */
module FilterDialog {
  import opened Wrappers
  import opened SeqUtil
  import opened Catalog

  /** `CategoryCount`: one row of the category section. */
  datatype CategoryCount = CategoryCount(name: string, displayName: string, count: int)

  /** What the dialog emits, in order. */
  datatype Event = FilterApplied(state: FilterState) | ModalClosed

  // ----- set toggling -----

  /** The body of each `toggle*`: delete the value when present, add it otherwise. */
  function SetToggle(s: seq<string>, v: string): (r: seq<string>)
    requires NoDup(s)
    ensures NoDup(r)
    ensures forall x :: x in r <==> (if x == v then v !in s else x in s)
  {
    if v in s then SetDelete(s, v) else SetAdd(s, v)
  }

  /**
   * Toggling twice gives back the same members; the exact order comes back
   * when the value was absent (a value deleted and re-added moves to the end).
   */
  lemma SetToggleTwice(s: seq<string>, v: string)
    requires NoDup(s)
    ensures forall x :: x in SetToggle(SetToggle(s, v), v) <==> x in s
    ensures v !in s ==> SetToggle(SetToggle(s, v), v) == s
  {
    if v !in s {
      var t := SetToggle(s, v);
      assert t == s + [v];
      WithoutAppend(s, [v], v);
      WithoutAbsent(s, v);
      assert Without([v], v) == [];
    }
  }

  // ----- the state-sync effect -----

  /** What the effect makes of an incoming filter state: each list turned into a `Set`. */
  function Synced(f: FilterState): (r: FilterState)
    ensures r.trending == f.trending
    ensures NoDup(r.categories) && NoDup(r.capabilities) && NoDup(r.appStatus)
    ensures NoDup(r.midpointVersions) && NoDup(r.integrationMethods)
    ensures forall v :: v in r.categories <==> v in f.categories
    ensures forall v :: v in r.capabilities <==> v in f.capabilities
    ensures forall v :: v in r.appStatus <==> v in f.appStatus
    ensures forall v :: v in r.midpointVersions <==> v in f.midpointVersions
    ensures forall v :: v in r.integrationMethods <==> v in f.integrationMethods
  {
    FilterState(f.trending, Dedupe(f.categories), Dedupe(f.capabilities), Dedupe(f.appStatus),
                Dedupe(f.midpointVersions), Dedupe(f.integrationMethods))
  }

  /** A state whose lists hold no duplicates comes back unchanged from the dialog. */
  lemma SyncedRoundTrip(f: FilterState)
    requires forall d :: NoDup(Selection(f, d))
    ensures Synced(f) == f
  {
    assert NoDup(Selection(f, Categories)) && NoDup(Selection(f, Capabilities)) && NoDup(Selection(f, AppStatus));
    assert NoDup(Selection(f, MidpointVersions)) && NoDup(Selection(f, IntegrationMethods));
    DedupeKeepsNoDup(f.categories);
    DedupeKeepsNoDup(f.capabilities);
    DedupeKeepsNoDup(f.appStatus);
    DedupeKeepsNoDup(f.midpointVersions);
    DedupeKeepsNoDup(f.integrationMethods);
  }

  // ----- category counting -----

  /** How often a name occurs among tags. */
  function Occurrences(tags: seq<Tag>, name: string): (r: nat)
    ensures r <= |tags|
    ensures r == 0 <==> name !in TagNames(tags)
  {
    if tags == [] then 0
    else
      TagNamesAppend(tags[..|tags| - 1], tags[|tags| - 1]);
      assert tags[..|tags| - 1] + [tags[|tags| - 1]] == tags;
      Occurrences(tags[..|tags| - 1], name) + (if tags[|tags| - 1].name == name then 1 else 0)
  }

  /** The count is the multiplicity of the name among the tags' names. */
  lemma {:induction false} OccurrencesCount(tags: seq<Tag>, name: string)
    ensures Occurrences(tags, name) == multiset(TagNames(tags))[name]
  {
    if tags != [] {
      var init := tags[..|tags| - 1];
      OccurrencesCount(init, name);
      assert tags == init + [tags[|tags| - 1]];
      TagNamesAppend(init, tags[|tags| - 1]);
    }
  }

  /** The display name of the first tag with this name: later ones only raise the count. */
  function FirstDisplayName(tags: seq<Tag>, name: string): (r: string)
    ensures name !in TagNames(tags) ==> r == ""
  {
    if tags == [] then ""
    else
      TagNamesAppend(tags[..|tags| - 1], tags[|tags| - 1]);
      assert tags[..|tags| - 1] + [tags[|tags| - 1]] == tags;
      var init := tags[..|tags| - 1];
      if name in TagNames(init) then FirstDisplayName(init, name)
      else if tags[|tags| - 1].name == name then tags[|tags| - 1].displayName
      else ""
  }

  /** The display name kept for a name is that of its first occurrence. */
  lemma {:induction false} FirstDisplayNameIsFirst(tags: seq<Tag>, name: string, k: int)
    requires 0 <= k < |tags| && tags[k].name == name
    requires forall k' :: 0 <= k' < k ==> tags[k'].name != name
    ensures FirstDisplayName(tags, name) == tags[k].displayName
  {
    var init := tags[..|tags| - 1];
    if k < |tags| - 1 {
      assert init[k] == tags[k];
      FirstDisplayNameIsFirst(init, name, k);
      assert TagNames(init)[k] == name;
    } else {
      assert name !in TagNames(init) by {
        forall k' | 0 <= k' < |init| ensures TagNames(init)[k'] != name {
          assert init[k'] == tags[k'];
        }
      }
    }
  }

  /** The rows for the given names, in their order. */
  function CountsFor(names: seq<string>, tags: seq<Tag>): (r: seq<CategoryCount>)
    ensures |r| == |names|
    ensures forall i :: 0 <= i < |r| ==>
      r[i] == CategoryCount(names[i], FirstDisplayName(tags, names[i]), Occurrences(tags, names[i]))
  {
    if names == [] then []
    else
      CountsFor(names[..|names| - 1], tags)
      + [CategoryCount(names[|names| - 1], FirstDisplayName(tags, names[|names| - 1]),
                       Occurrences(tags, names[|names| - 1]))]
  }

  /** `loadCategories`' rows: one per distinct name, in order of first occurrence. */
  function CategoryCounts(tags: seq<Tag>): (r: seq<CategoryCount>)
    ensures forall i, j :: 0 <= i < j < |r| ==> r[i].name != r[j].name
    ensures forall i :: 0 <= i < |r| ==> 1 <= r[i].count == Occurrences(tags, r[i].name)
    ensures forall t :: t in tags ==> exists i :: 0 <= i < |r| && r[i].name == t.name
  {
    CountsFor(Dedupe(TagNames(tags)), tags)
  }

  /** The sum of the counts. */
  function Total(rows: seq<CategoryCount>): int
  {
    if rows == [] then 0 else Total(rows[..|rows| - 1]) + rows[|rows| - 1].count
  }

  lemma {:induction false} TotalAppend(rows: seq<CategoryCount>, row: CategoryCount)
    ensures Total(rows + [row]) == Total(rows) + row.count
  {
    assert (rows + [row])[..|rows|] == rows;
  }

  /** One more tag adds one to the total over any duplicate-free names it is among. */
  lemma {:induction false} TotalStep(names: seq<string>, tags: seq<Tag>, tag: Tag)
    requires NoDup(names)
    ensures Total(CountsFor(names, tags + [tag])) == Total(CountsFor(names, tags)) + (if tag.name in names then 1 else 0)
  {
    if names != [] {
      var init := names[..|names| - 1];
      var last := names[|names| - 1];
      assert names == init + [last];
      assert NoDup(init) by {
        forall i, j | 0 <= i < j < |init| ensures init[i] != init[j] {
          assert init[i] == names[i] && init[j] == names[j];
        }
      }
      assert last !in init by {
        forall i | 0 <= i < |init| ensures init[i] != last {
          assert init[i] == names[i];
        }
      }
      TotalStep(init, tags, tag);
      assert (tags + [tag])[..|tags|] == tags;
      TotalAppend(CountsFor(init, tags + [tag]), CountsFor(names, tags + [tag])[|names| - 1]);
      TotalAppend(CountsFor(init, tags), CountsFor(names, tags)[|names| - 1]);
    }
  }

  /** A name no tag carries has no occurrences. */
  lemma {:induction false} OccurrencesAbsent(tags: seq<Tag>, name: string)
    requires name !in TagNames(tags)
    ensures Occurrences(tags, name) == 0
  {
    OccurrencesCount(tags, name);
  }

  /** The counts add up to the number of counted tags. */
  lemma {:induction false} CountsSum(tags: seq<Tag>)
    ensures Total(CategoryCounts(tags)) == |tags|
  {
    if tags != [] {
      var init := tags[..|tags| - 1];
      var tag := tags[|tags| - 1];
      assert tags == init + [tag];
      CountsSum(init);
      var names := Dedupe(TagNames(init));
      TagNamesAppend(init, tag);
      TotalStep(names, init, tag);
      if tag.name !in names {
        assert names + [tag.name] == SetAdd(names, tag.name);
        assert CountsFor(names + [tag.name], tags)[..|names|] == CountsFor(names, tags);
        TotalAppend(CountsFor(names, tags), CountsFor(names + [tag.name], tags)[|names|]);
        assert tag.name !in TagNames(init);
        OccurrencesAbsent(init, tag.name);
      }
    }
  }

  /**
   * The rows of `loadCategories`: each category tag name exactly once, with
   * the number of its occurrences and the display name it first came with;
   * the counts sum to the number of category tags.
   */
  lemma {:induction false} CategoryCountsSpec(apps: seq<App>)
    ensures var tags := CategoryTags(apps); var r := CategoryCounts(tags);
      && (forall i, j :: 0 <= i < j < |r| ==> r[i].name != r[j].name)
      && (forall i :: 0 <= i < |r| ==> r[i].name in TagNames(tags))
      && (forall k :: 0 <= k < |tags| ==> IsCategoryTag(tags[k]))
      && CoversTags(r, tags)
      && (forall i :: 0 <= i < |r| ==>
            r[i].count == multiset(TagNames(tags))[r[i].name] && r[i].displayName == FirstDisplayName(tags, r[i].name))
      && Total(r) == |tags|
  {
    var tags := CategoryTags(apps);
    CountsNames(tags);
    CountsValues(tags);
    CountsSum(tags);
  }

  /** Every tag's name has a row. */
  predicate CoversTags(r: seq<CategoryCount>, tags: seq<Tag>)
  {
    forall k :: 0 <= k < |tags| ==> exists i :: 0 <= i < |r| && r[i].name == tags[k].name
  }

  /** One row per distinct name, and a row for every tag's name. */
  lemma CountsNames(tags: seq<Tag>)
    ensures var r := CategoryCounts(tags);
      && (forall i, j :: 0 <= i < j < |r| ==> r[i].name != r[j].name)
      && (forall i :: 0 <= i < |r| ==> r[i].name in TagNames(tags))
      && CoversTags(r, tags)
  {
    var names := Dedupe(TagNames(tags));
    var r := CategoryCounts(tags);
    forall i, j | 0 <= i < j < |r| ensures r[i].name != r[j].name {
      assert r[i].name == names[i] && r[j].name == names[j];
    }
    forall k | 0 <= k < |tags| ensures exists i :: 0 <= i < |r| && r[i].name == tags[k].name {
      assert TagNames(tags)[k] == tags[k].name;
      var a :| 0 <= a < |names| && names[a] == tags[k].name;
      assert r[a].name == names[a];
    }
  }

  /** Each row's count is the multiplicity of its name. */
  lemma CountsValues(tags: seq<Tag>)
    ensures var r := CategoryCounts(tags);
      forall i :: 0 <= i < |r| ==>
        r[i].count == multiset(TagNames(tags))[r[i].name] && r[i].displayName == FirstDisplayName(tags, r[i].name)
  {
    var r := CategoryCounts(tags);
    forall i | 0 <= i < |r| ensures r[i].count == multiset(TagNames(tags))[r[i].name] {
      OccurrencesCount(tags, r[i].name);
    }
  }

  /** The state of the loop of `loadCategories` after the tags `seen`. */
  ghost predicate Counted(keys: seq<string>, m: map<string, CategoryCount>, seen: seq<Tag>)
  {
    && keys == Dedupe(TagNames(seen))
    && (forall n :: n in m <==> n in keys)
    && (forall n :: n in m ==> m[n] == CategoryCount(n, FirstDisplayName(seen, n), Occurrences(seen, n)))
  }

  /** `existing.count++` or `categoryMap.set(...)` keeps the loop state. */
  lemma CountTag(keys: seq<string>, m: map<string, CategoryCount>, seen: seq<Tag>, tag: Tag)
    requires Counted(keys, m, seen)
    ensures Counted(if tag.name in m then keys else keys + [tag.name],
                    if tag.name in m then m[tag.name := m[tag.name].(count := m[tag.name].count + 1)]
                    else m[tag.name := CategoryCount(tag.name, tag.displayName, 1)],
                    seen + [tag])
  {
    var keys' := if tag.name in m then keys else keys + [tag.name];
    var m' := if tag.name in m then m[tag.name := m[tag.name].(count := m[tag.name].count + 1)]
              else m[tag.name := CategoryCount(tag.name, tag.displayName, 1)];
    var seen' := seen + [tag];
    TagNamesAppend(seen, tag);
    assert keys' == SetAdd(keys, tag.name);
    forall n ensures n in m' <==> n in keys' {
      assert n in m' <==> n in m || n == tag.name;
    }
    forall n | n in m' ensures m'[n] == CategoryCount(n, FirstDisplayName(seen', n), Occurrences(seen', n)) {
      CountTagEntry(keys, m, seen, tag, n);
    }
    assert keys' == Dedupe(TagNames(seen'));
    assert Counted(keys', m', seen');
  }

  /** The row for one name after the tag is counted. */
  lemma CountTagEntry(keys: seq<string>, m: map<string, CategoryCount>, seen: seq<Tag>, tag: Tag, n: string)
    requires Counted(keys, m, seen)
    requires n in m || n == tag.name
    ensures var m' := if tag.name in m then m[tag.name := m[tag.name].(count := m[tag.name].count + 1)]
                      else m[tag.name := CategoryCount(tag.name, tag.displayName, 1)];
      m'[n] == CategoryCount(n, FirstDisplayName(seen + [tag], n), Occurrences(seen + [tag], n))
  {
    OneMoreTag(seen, tag, n);
    if n != tag.name {
    } else if tag.name in m {
      assert m[n] == CategoryCount(n, FirstDisplayName(seen, n), Occurrences(seen, n));
      assert n in keys;
    } else {
      assert n !in keys;
      OccurrencesAbsent(seen, n);
    }
  }

  /** The first display name and the count of a name after one more tag. */
  lemma OneMoreTag(seen: seq<Tag>, tag: Tag, n: string)
    ensures FirstDisplayName(seen + [tag], n)
            == if n in TagNames(seen) then FirstDisplayName(seen, n) else if tag.name == n then tag.displayName else ""
    ensures Occurrences(seen + [tag], n) == Occurrences(seen, n) + if tag.name == n then 1 else 0
  {
    assert (seen + [tag])[..|seen|] == seen;
  }

  /** The rows read back from the finished map. */
  lemma CountedRows(keys: seq<string>, m: map<string, CategoryCount>, seen: seq<Tag>)
    requires Counted(keys, m, seen)
    ensures forall k :: 0 <= k < |keys| ==> keys[k] in m
    ensures Values(keys, m) == CategoryCounts(seen)
  {
  }

  /** `Array.from(categoryMap.values())`: the rows in the order their keys were inserted. */
  function Values(keys: seq<string>, m: map<string, CategoryCount>): seq<CategoryCount>
    requires forall k :: 0 <= k < |keys| ==> keys[k] in m
  {
    seq(|keys|, k requires 0 <= k < |keys| => m[keys[k]])
  }

  /** The inner loop of `loadCategories`: one record's tags counted. */
  method CountTags(all: seq<Tag>, keys: seq<string>, m: map<string, CategoryCount>, ghost seen: seq<Tag>)
    returns (keys': seq<string>, m': map<string, CategoryCount>, ghost seen': seq<Tag>)
    requires Counted(keys, m, seen)
    ensures seen' == seen + Filter(all, IsCategoryTag)
    ensures Counted(keys', m', seen')
  {
    keys', m', seen' := keys, m, seen;
    for j := 0 to |all|
      invariant seen' == seen + Filter(all[..j], IsCategoryTag)
      invariant Counted(keys', m', seen')
    {
      var tag := all[j];
      FilterStep(seen, seen', all, j);
      if IsCategoryTag(tag) {
        CountTag(keys', m', seen', tag);
        keys' := if tag.name in m' then keys' else keys' + [tag.name];
        m' := if tag.name in m' then m'[tag.name := m'[tag.name].(count := m'[tag.name].count + 1)]
              else m'[tag.name := CategoryCount(tag.name, tag.displayName, 1)];
        seen' := seen' + [tag];
      }
    }
    assert all[..|all|] == all;
  }

  class FilterModal {
    /** The `currentFilterState` input. */
    var currentFilterState: FilterState
    var selectedSection: string
    var trending: bool
    var selectedCategories: seq<string>
    var selectedCapabilities: seq<string>
    var selectedAppStatus: seq<string>
    var selectedMidpointVersions: seq<string>
    var selectedIntegrationMethods: seq<string>
    /** The data of the category and version sections. */
    var categories: seq<CategoryCount>
    var midpointVersions: seq<string>
    /** `filterApplied` and `modalClosed` as emitted so far. */
    var events: seq<Event>

    constructor ()
      ensures currentFilterState == EMPTY_FILTER && !trending && selectedSection == "trending"
      ensures forall d :: Selected(d) == []
      ensures categories == [] && midpointVersions == [] && events == []
      ensures Valid()
    {
      currentFilterState, trending, selectedSection := EMPTY_FILTER, false, "trending";
      selectedCategories, selectedCapabilities, selectedAppStatus := [], [], [];
      selectedMidpointVersions, selectedIntegrationMethods := [], [];
      categories, midpointVersions, events := [], [], [];
    }

    /** The `Set` behind a dimension. */
    function Selected(d: Dimension): seq<string>
      reads this
    {
      match d
      case Categories => selectedCategories
      case Capabilities => selectedCapabilities
      case AppStatus => selectedAppStatus
      case MidpointVersions => selectedMidpointVersions
      case IntegrationMethods => selectedIntegrationMethods
    }

    /** Every selection is a set: no value twice. */
    ghost predicate Valid()
      reads this
    {
      forall d :: NoDup(Selected(d))
    }

    /** The internal state read back as a `FilterState`, as `closeModal` builds it. */
    function Snapshot(): (r: FilterState)
      reads this
      ensures r.trending == trending
      ensures forall d :: Selection(r, d) == Selected(d)
    {
      FilterState(trending, selectedCategories, selectedCapabilities, selectedAppStatus,
                  selectedMidpointVersions, selectedIntegrationMethods)
    }

    /** The `effect` run when `currentFilterState` changes. */
    method SetCurrentFilterState(f: FilterState)
      modifies this`currentFilterState, this`trending, this`selectedCategories, this`selectedCapabilities
      modifies this`selectedAppStatus, this`selectedMidpointVersions, this`selectedIntegrationMethods
      ensures currentFilterState == f && Snapshot() == Synced(f) && Valid()
    {
      currentFilterState := f;
      trending := f.trending;
      selectedCategories := Dedupe(f.categories);
      selectedCapabilities := Dedupe(f.capabilities);
      selectedAppStatus := Dedupe(f.appStatus);
      selectedMidpointVersions := Dedupe(f.midpointVersions);
      selectedIntegrationMethods := Dedupe(f.integrationMethods);
      assert Snapshot() == Synced(f);
      forall d ensures NoDup(Selected(d)) {
        SyncThenSnapshot(f, d, "");
      }
    }

    /** `selectSection`. */
    method SelectSection(section: string)
      modifies this`selectedSection
      ensures selectedSection == section
    {
      selectedSection := section;
    }

    /** `toggleTrending`. */
    method ToggleTrending()
      modifies this`trending
      ensures trending == !old(trending)
    {
      trending := !trending;
    }

    /**
     * `toggleCategory`, `toggleCapability`, `toggleAppStatus`,
     * `toggleMidpointVersion` and `toggleIntegrationMethod`: the value's
     * membership flips in its own set and the other sets stay as they were.
     */
    method Toggle(d: Dimension, value: string)
      requires Valid()
      modifies this
      ensures Selected(d) == SetToggle(old(Selected(d)), value)
      ensures forall e :: e != d ==> Selected(e) == old(Selected(e))
      ensures trending == old(trending) && currentFilterState == old(currentFilterState) && selectedSection == old(selectedSection)
      ensures categories == old(categories) && midpointVersions == old(midpointVersions) && events == old(events)
      ensures Valid()
    {
      assert NoDup(Selected(d));
      var current := SetToggle(Selected(d), value);
      match d
      case Categories => selectedCategories := current;
      case Capabilities => selectedCapabilities := current;
      case AppStatus => selectedAppStatus := current;
      case MidpointVersions => selectedMidpointVersions := current;
      case IntegrationMethods => selectedIntegrationMethods := current;
    }

    /** `isCategorySelected` and its siblings. */
    function IsSelected(d: Dimension, value: string): bool
      reads this
    {
      value in Selected(d)
    }

    /** `closeModal`: the current selections are emitted, then the dialog reports it closed. */
    method CloseModal()
      modifies this`events
      ensures events == old(events) + [FilterApplied(Snapshot()), ModalClosed]
    {
      var filterState := FilterState(trending, selectedCategories, selectedCapabilities, selectedAppStatus,
                                     selectedMidpointVersions, selectedIntegrationMethods);
      events := events + [FilterApplied(filterState)];
      events := events + [ModalClosed];
    }

    /** `loadCategories` on the records the service returned. */
    method LoadCategories(apps: seq<App>)
      modifies this`categories
      ensures categories == CategoryCounts(CategoryTags(apps))
    {
      var keys: seq<string> := [];
      var m: map<string, CategoryCount> := map[];
      ghost var seen: seq<Tag> := [];
      for i := 0 to |apps|
        invariant seen == CategoryTags(apps[..i])
        invariant Counted(keys, m, seen)
      {
        keys, m, seen := CountTags(AllTags(apps[i]), keys, m, seen);
        CategoryTagsStep(apps, i);
      }
      assert apps[..|apps|] == apps;
      CountedRows(keys, m, seen);
      categories := Values(keys, m);
    }

    /** `loadMidpointVersions` on the records the service returned. */
    method LoadMidpointVersions(apps: seq<App>)
      modifies this`midpointVersions
      ensures midpointVersions == SortedVersions(apps)
    {
      var versions := CollectVersions(apps);
      midpointVersions := SortStrings(versions);
    }
  }

  /**
   * After the effect, every set holds exactly the members of its list, each
   * once, and the dialog emits the snapshot it was given when the lists hold
   * no duplicates.
   */
  lemma SyncThenSnapshot(f: FilterState, d: Dimension, x: string)
    ensures NoDup(Selection(Synced(f), d))
    ensures x in Selection(Synced(f), d) <==> x in Selection(f, d)
    ensures (forall e :: NoDup(Selection(f, e))) ==> Synced(f) == f
  {
    assert Selection(Synced(f), d) == Dedupe(Selection(f, d));
    if forall e :: NoDup(Selection(f, e)) {
      SyncedRoundTrip(f);
    }
  }
}
