/**
 * `ApplicationMapper`: turns an `Application` and what hangs off it into
 * transfer objects. Every function only reads the entities it is given.
 */
module ApplicationMapper {
  import opened Wrappers
  import Text
  import JavaText
  import SeqUtil
  import opened Entities
  import opened Dtos

  // ----- tags and origins -----

  /** `mapToApplicationTagDto`: id, name and display name copied, the type as its enum name. */
  function TagToDto(t: ApplicationTag): (r: TagDto)
    ensures r.id == t.id && r.name == t.name && r.displayName == t.displayName
    ensures forall tt: TagType {:trigger TagTypeName(tt)} :: r.tagType == Some(TagTypeName(tt)) <==> t.tagType == Some(tt)
    ensures r.tagType.None? <==> t.tagType.None?
  {
    TagDto(t.id, t.name, t.displayName, if t.tagType.None? then None else Some(TagTypeName(t.tagType.value)))
  }

  /** The filter test `appTag.getApplicationTag().getTagType() == tagType`; a null type never matches. */
  function HasType(tagType: TagType): ApplicationTag -> bool
  {
    (t: ApplicationTag) => t.tagType == Some(tagType)
  }

  /** `mapAllTags`: null for a null tag list, otherwise one transfer object per tag, in order. */
  function MapAllTags(app: Application): (r: Option<seq<TagDto>>)
    reads app
    ensures r.None? <==> app.applicationTags.None?
    ensures r.Some? ==>
      && |r.value| == |app.applicationTags.value|
      && forall i :: 0 <= i < |r.value| ==>
           var t := app.applicationTags.value[i];
           && r.value[i].id == t.id && r.value[i].name == t.name && r.value[i].displayName == t.displayName
           && (r.value[i].tagType.Some? <==> t.tagType.Some?)
           && (t.tagType.Some? ==> r.value[i].tagType.value == TagTypeName(t.tagType.value))
  {
    if app.applicationTags.None? then None else Some(SeqUtil.Map(app.applicationTags.value, TagToDto))
  }

  /** `filterTagsByType`: null for a null tag list, otherwise the transfer objects of the tags of that type. */
  function FilterTagsByType(app: Application, tagType: TagType): (r: Option<seq<TagDto>>)
    reads app
    ensures r.None? <==> app.applicationTags.None?
    ensures r.Some? ==> |r.value| <= |app.applicationTags.value|
    ensures r.Some? ==> forall i :: 0 <= i < |r.value| ==> r.value[i].tagType == Some(TagTypeName(tagType))
    ensures r.Some? ==> forall t :: t in app.applicationTags.value && t.tagType == Some(tagType) ==> TagToDto(t) in r.value
  {
    if app.applicationTags.None? then None
    else Some(SeqUtil.Map(SeqUtil.Filter(app.applicationTags.value, HasType(tagType)), TagToDto))
  }

  lemma TagTypeNameInjective(a: TagType, b: TagType)
    ensures TagTypeName(a) == TagTypeName(b) <==> a == b
  {
  }

  /**
   * The tags of one type are exactly those transfer objects of all tags whose
   * type name is that type's name, in the same order.
   */
  lemma FilterTagsIsTypedSubset(app: Application, tagType: TagType)
    ensures FilterTagsByType(app, tagType).None? <==> app.applicationTags.None?
    ensures FilterTagsByType(app, tagType).Some? ==>
      FilterTagsByType(app, tagType).value
      == SeqUtil.Filter(MapAllTags(app).value, (d: TagDto) => d.tagType == Some(TagTypeName(tagType)))
  {
    if app.applicationTags.Some? {
      var tags := app.applicationTags.value;
      forall i | 0 <= i < |tags|
        ensures (TagToDto(tags[i]).tagType == Some(TagTypeName(tagType))) == HasType(tagType)(tags[i])
      {
        if tags[i].tagType.Some? {
          TagTypeNameInjective(tags[i].tagType.value, tagType);
        }
      }
      SeqUtil.MapFilter(tags, TagToDto, HasType(tagType), (d: TagDto) => d.tagType == Some(TagTypeName(tagType)));
    }
  }

  function CountryToDto(c: CountryOfOrigin): CountryDto
  {
    CountryDto(c.id, c.name, c.displayName)
  }

  /** The origins of `mapToApplicationDto`: null for a null list, otherwise one transfer object per origin. */
  function MapOrigins(app: Application): (r: Option<seq<CountryDto>>)
    reads app
    ensures r.None? <==> app.applicationOrigins.None?
    ensures r.Some? ==>
      && |r.value| == |app.applicationOrigins.value|
      && forall i :: 0 <= i < |r.value| ==>
           var c := app.applicationOrigins.value[i];
           r.value[i].id == c.id && r.value[i].name == c.name && r.value[i].displayName == c.displayName
  {
    if app.applicationOrigins.None? then None else Some(SeqUtil.Map(app.applicationOrigins.value, CountryToDto))
  }

  // ----- the capabilities text of a version -----

  /** `replace("[", "").replace("]", "").replace("\"", "")`. */
  function Clean(s: string): (r: string)
    ensures '[' !in r && ']' !in r && '"' !in r
  {
    Text.RemoveChar(Text.RemoveChar(Text.RemoveChar(s, '['), ']'), '"')
  }

  /**
   * `parseCapabilitiesJson`: null for null or "", null when nothing is left
   * once brackets and quotes are removed, otherwise the rest split on a comma
   * and the white space after it.
   */
  function ParseCapabilitiesJson(json: Option<string>): (r: Option<seq<string>>)
    ensures json.None? || json.value == "" ==> r.None?
    ensures json.Some? && json.value != "" ==> (r.None? <==> Clean(json.value) == "")
    ensures r.Some? ==> forall i :: 0 <= i < |r.value| ==>
      ',' !in r.value[i] && '[' !in r.value[i] && ']' !in r.value[i] && '"' !in r.value[i]
  {
    if json.None? || json.value == "" then None
    else
      var cleaned := Clean(json.value);
      if cleaned == "" then None
      else
        JavaText.SplitCommaSpaceExcludes(cleaned, '[');
        JavaText.SplitCommaSpaceExcludes(cleaned, ']');
        JavaText.SplitCommaSpaceExcludes(cleaned, '"');
        Some(JavaText.SplitCommaSpace(cleaned))
  }

  /** A capability name the compact array writer can hold: non-empty, no separator, bracket or quote. */
  predicate PlainWord(x: string)
  {
    x != "" && ',' !in x && '[' !in x && ']' !in x && '"' !in x && !JavaText.IsRegexSpace(x[0])
  }

  /** A string in double quotes. */
  function Quote(x: string): string
  {
    ['"'] + x + ['"']
  }

  /** The quoted, comma-separated elements of a compact JSON array. */
  function QuotedItems(xs: seq<string>): string
  {
    if |xs| == 0 then ""
    else if |xs| == 1 then Quote(xs[0])
    else Quote(xs[0]) + [','] + QuotedItems(xs[1..])
  }

  /** The compact JSON text of an array of strings, `["A","B"]`. */
  function JsonArray(xs: seq<string>): string
  {
    ['['] + QuotedItems(xs) + [']']
  }

  lemma CleanAppend(a: string, b: string)
    ensures Clean(a + b) == Clean(a) + Clean(b)
  {
    Text.RemoveCharAppend(a, b, '[');
    Text.RemoveCharAppend(Text.RemoveChar(a, '['), Text.RemoveChar(b, '['), ']');
    Text.RemoveCharAppend(Text.RemoveChar(Text.RemoveChar(a, '['), ']'),
                          Text.RemoveChar(Text.RemoveChar(b, '['), ']'), '"');
  }

  lemma CleanPlain(x: string)
    requires '[' !in x && ']' !in x && '"' !in x
    ensures Clean(x) == x
  {
  }

  /** Each bracket or quote on its own cleans to nothing. */
  lemma CleanMarks()
    ensures Clean(['"']) == [] && Clean(['[']) == [] && Clean([']']) == []
  {
    assert ['"'][1..] == [] && ['['][1..] == [] && [']'][1..] == [];
  }

  lemma CleanQuote(x: string)
    requires '[' !in x && ']' !in x && '"' !in x
    ensures Clean(Quote(x)) == x
  {
    CleanMarks();
    CleanPlain(x);
    CleanAppend(['"'], x);
    CleanAppend(['"'] + x, ['"']);
  }

  /** Removing brackets and quotes from the quoted items leaves the items joined by commas. */
  lemma {:induction false} CleanQuotedItems(xs: seq<string>)
    requires forall i :: 0 <= i < |xs| ==> PlainWord(xs[i])
    ensures Clean(QuotedItems(xs)) == Text.Join(xs, ",")
    decreases |xs|
  {
    if |xs| >= 1 {
      CleanQuote(xs[0]);
      if |xs| > 1 {
        CleanPlain([',']);
        CleanAppend(Quote(xs[0]), [',']);
        CleanAppend(Quote(xs[0]) + [','], QuotedItems(xs[1..]));
        CleanQuotedItems(xs[1..]);
        assert [','] == ",";
      }
    }
  }

  /** A compact JSON array of plain words parses back to the same words; the empty array to null. */
  lemma ParseCompactArray(xs: seq<string>)
    requires forall i :: 0 <= i < |xs| ==> PlainWord(xs[i])
    ensures ParseCapabilitiesJson(Some(JsonArray(xs))) == if xs == [] then None else Some(xs)
  {
    CleanQuotedItems(xs);
    CleanMarks();
    CleanAppend(['['], QuotedItems(xs));
    CleanAppend(['['] + QuotedItems(xs), [']']);
    assert Clean(JsonArray(xs)) == Text.Join(xs, ",");
    if xs != [] {
      JavaText.SplitCommaSpaceJoin(xs);
      assert Text.Join(xs, ",") != "" by {
        Text.JoinSplitOn(Text.Join(xs, ","), ',');
        Text.SplitOnJoin(xs, ',');
      }
    }
  }

  // ----- implementation versions -----

  /** The objects the version list of some implementations is read from. */
  function VersionObjects(impls: seq<Implementation>): set<object>
    reads set i | i in impls
  {
    (set i | i in impls :: i as object)
    + (set i, v | i in impls && v in OrEmpty(i.implementationVersions) :: v as object)
  }

  /**
   * The transfer object of one version of an implementation: the
   * implementation's tag display names, the parsed capabilities and the
   * lifecycle as its enum name. The controller's copy of this mapping
   * leaves out the download link (`withLink` false).
   */
  function VersionToDto(impl: Implementation, v: ImplementationVersion, withLink: bool): (r: VersionDto)
    reads impl, v
    ensures r.description == v.description && r.connectorVersion == v.connectorVersion
    ensures !withLink ==> r.downloadLink.None?
    ensures withLink ==> r.downloadLink == v.downloadLink
    ensures r.implementationTags.None? <==> impl.implementationTags.None?
    ensures r.implementationTags.Some? ==> |r.implementationTags.value| == |impl.implementationTags.value|
    ensures forall l: VersionLifecycle {:trigger VersionLifecycleName(l)} ::
      r.lifecycleState == Some(VersionLifecycleName(l)) <==> v.lifecycleState == Some(l)
    ensures r.capabilities.Some? ==> forall i :: 0 <= i < |r.capabilities.value| ==> ',' !in r.capabilities.value[i]
  {
    VersionDto(v.description,
               if impl.implementationTags.None? then None
               else Some(SeqUtil.Map(impl.implementationTags.value, (t: ImplementationTag) => t.displayName)),
               ParseCapabilitiesJson(v.capabilitiesJson), v.connectorVersion, v.systemVersion,
               v.releasedDate, v.author,
               if v.lifecycleState.None? then None else Some(VersionLifecycleName(v.lifecycleState.value)),
               if withLink then v.downloadLink else None)
  }

  /** The transfer objects of the versions of one implementation, in order. */
  function VersionsOf(impl: Implementation, vs: seq<ImplementationVersion>, withLink: bool): (r: seq<VersionDto>)
    reads impl, set v | v in vs
    ensures |r| == |vs|
    ensures forall k :: 0 <= k < |vs| ==> r[k] == VersionToDto(impl, vs[k], withLink)
  {
    if vs == [] then [] else [VersionToDto(impl, vs[0], withLink)] + VersionsOf(impl, vs[1..], withLink)
  }

  /** The number of versions of the implementations, a null version list counting none. */
  function TotalVersions(impls: seq<Implementation>): nat
    reads set i | i in impls
  {
    if impls == [] then 0 else |OrEmpty(impls[0].implementationVersions)| + TotalVersions(impls[1..])
  }

  /** The stream's `flatMap`: each implementation's versions in turn, none for a null version list. */
  function Flatten(impls: seq<Implementation>, withLink: bool): (r: seq<VersionDto>)
    reads VersionObjects(impls)
    ensures |r| == TotalVersions(impls)
  {
    if impls == [] then []
    else
      assert forall x :: x in impls[1..] ==> x in impls;
      assert VersionObjects(impls[1..]) <= VersionObjects(impls);
      VersionsOf(impls[0], OrEmpty(impls[0].implementationVersions), withLink) + Flatten(impls[1..], withLink)
  }

  /**
   * Version `k` of implementation `i` is at position (versions before `i`) +
   * `k` of the flattened list: one transfer object per version, grouped by
   * implementation, in order.
   */
  lemma {:induction false} FlattenPosition(impls: seq<Implementation>, withLink: bool, i: nat, k: nat)
    requires i < |impls| && k < |OrEmpty(impls[i].implementationVersions)|
    ensures TotalVersions(impls[..i]) + k < |Flatten(impls, withLink)|
    ensures Flatten(impls, withLink)[TotalVersions(impls[..i]) + k]
            == VersionToDto(impls[i], OrEmpty(impls[i].implementationVersions)[k], withLink)
    decreases i
  {
    if i == 0 {
      FlattenFirst(impls, withLink, k);
    } else {
      assert impls[1..][i - 1] == impls[i];
      FlattenPosition(impls[1..], withLink, i - 1, k);
      FlattenLater(impls, withLink, i, k);
    }
  }

  /** The versions of the first implementation open the flattened list. */
  lemma FlattenFirst(impls: seq<Implementation>, withLink: bool, k: nat)
    requires 0 < |impls| && k < |OrEmpty(impls[0].implementationVersions)|
    ensures TotalVersions(impls[..0]) + k < |Flatten(impls, withLink)|
    ensures Flatten(impls, withLink)[TotalVersions(impls[..0]) + k]
            == VersionToDto(impls[0], OrEmpty(impls[0].implementationVersions)[k], withLink)
  {
    var head := VersionsOf(impls[0], OrEmpty(impls[0].implementationVersions), withLink);
    var rest := Flatten(impls[1..], withLink);
    assert Flatten(impls, withLink) == head + rest;
    assert impls[..0] == [];
    assert (head + rest)[k] == head[k];
  }

  /** A position in the rest of the list, shifted by the versions of the first implementation. */
  lemma FlattenLater(impls: seq<Implementation>, withLink: bool, i: nat, k: nat)
    requires 0 < i < |impls| && k < |OrEmpty(impls[i].implementationVersions)|
    requires TotalVersions(impls[1..][..i - 1]) + k < |Flatten(impls[1..], withLink)|
    requires Flatten(impls[1..], withLink)[TotalVersions(impls[1..][..i - 1]) + k]
             == VersionToDto(impls[i], OrEmpty(impls[i].implementationVersions)[k], withLink)
    ensures TotalVersions(impls[..i]) + k < |Flatten(impls, withLink)|
    ensures Flatten(impls, withLink)[TotalVersions(impls[..i]) + k]
            == VersionToDto(impls[i], OrEmpty(impls[i].implementationVersions)[k], withLink)
  {
    TotalVersionsPrefix(impls, i);
    FlattenRestIndex(impls, withLink, TotalVersions(impls[1..][..i - 1]) + k);
  }

  /** Position `n` of the rest of the list sits after the first implementation's versions. */
  lemma FlattenRestIndex(impls: seq<Implementation>, withLink: bool, n: nat)
    requires impls != [] && n < |Flatten(impls[1..], withLink)|
    ensures |OrEmpty(impls[0].implementationVersions)| + n < |Flatten(impls, withLink)|
    ensures Flatten(impls, withLink)[|OrEmpty(impls[0].implementationVersions)| + n] == Flatten(impls[1..], withLink)[n]
  {
    var head := VersionsOf(impls[0], OrEmpty(impls[0].implementationVersions), withLink);
    var rest := Flatten(impls[1..], withLink);
    assert Flatten(impls, withLink) == head + rest;
    assert (head + rest)[|head| + n] == rest[n];
  }

  /** The versions before implementation `i`: those of the first, then those before `i` in the rest. */
  lemma TotalVersionsPrefix(impls: seq<Implementation>, i: nat)
    requires 0 < i <= |impls|
    ensures TotalVersions(impls[..i]) == |OrEmpty(impls[0].implementationVersions)| + TotalVersions(impls[1..][..i - 1])
  {
    assert impls[1..][..i - 1] == impls[..i][1..];
    assert impls[..i][0] == impls[0];
  }

  /**
   * `mapImplementationVersions`: null for a null implementation list,
   * otherwise one transfer object per version across all implementations.
   */
  function ImplementationVersions(app: Application, withLink: bool): (r: Option<seq<VersionDto>>)
    reads app, VersionObjects(OrEmpty(app.implementations))
    ensures r.None? <==> app.implementations.None?
    ensures r.Some? ==> |r.value| == TotalVersions(app.implementations.value)
  {
    if app.implementations.None? then None else Some(Flatten(app.implementations.value, withLink))
  }

  /** `mapToApplicationDto`. */
  function MapToApplicationDto(app: Application, capabilities: Option<seq<string>>, requester: Option<string>,
                               requestId: Option<int>, voteCount: Option<int>): (r: ApplicationDto)
    reads app, VersionObjects(OrEmpty(app.implementations))
    ensures r.origins.None? <==> app.applicationOrigins.None?
    ensures r.lifecycleState.Some? <==> app.lifecycleState.Some?
    ensures app.lifecycleState.Some? ==> r.lifecycleState.value == AppLifecycleName(app.lifecycleState.value)
    ensures r.capabilities == capabilities && r.requester == requester
    ensures r.requestId == requestId && r.voteCount == voteCount
    ensures r.riskLevel.None?
    ensures r.id == app.id && r.displayName == app.displayName && r.description == app.description
    ensures r.logo == app.logo && r.lastModified == app.lastModified && r.createdAt == app.createdAt
    ensures r.categories == FilterTagsByType(app, CATEGORY) && r.tags == MapAllTags(app)
    ensures r.implementationVersions == ImplementationVersions(app, true)
  {
    ApplicationDto(app.id, app.displayName, app.description, app.logo, None,
                   if app.lifecycleState.None? then None else Some(AppLifecycleName(app.lifecycleState.value)),
                   app.lastModified, app.createdAt, capabilities, requester, MapOrigins(app),
                   FilterTagsByType(app, CATEGORY), MapAllTags(app), ImplementationVersions(app, true),
                   requestId, voteCount)
  }
}
