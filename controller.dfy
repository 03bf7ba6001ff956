/**
 * The parts of `Controller` that compute something: the application detail
 * assembled by `getApplication` and the file name of a download. The
 * controller's private `filterTagsByType`, `mapAllTags` and
 * `parseCapabilitiesJson` are the mapper's, line for line, and are modelled
 * by the same functions. Its `mapImplementationVersions` differs only in
 * leaving out the download link.
 */
module Controller {
  import opened Wrappers
  import Text
  import opened Entities
  import opened Dtos
  import ApplicationMapper

  /** The controller's `mapImplementationVersions`: the mapper's flattening without download links. */
  function ImplementationVersions(app: Application): (r: Option<seq<VersionDto>>)
    reads app, ApplicationMapper.VersionObjects(OrEmpty(app.implementations))
    ensures r.None? <==> app.implementations.None?
    ensures r.Some? ==> |r.value| == ApplicationMapper.TotalVersions(app.implementations.value)
  {
    ApplicationMapper.ImplementationVersions(app, false)
  }

  /** The controller's flattening has no download link, and otherwise agrees with the mapper's version by version. */
  lemma VersionsWithoutLinks(app: Application)
    ensures ImplementationVersions(app).None? <==> ApplicationMapper.ImplementationVersions(app, true).None?
    ensures ImplementationVersions(app).Some? ==>
      var c := ImplementationVersions(app).value;
      var m := ApplicationMapper.ImplementationVersions(app, true).value;
      && |c| == |m|
      && forall j :: 0 <= j < |c| ==> c[j].downloadLink.None? && c[j] == m[j].(downloadLink := None)
  {
    if app.implementations.Some? {
      FlattenWithoutLinks(app.implementations.value);
    }
  }

  lemma {:induction false} FlattenWithoutLinks(impls: seq<Implementation>)
    ensures var c := ApplicationMapper.Flatten(impls, false);
      var m := ApplicationMapper.Flatten(impls, true);
      && |c| == |m|
      && forall j :: 0 <= j < |c| ==> c[j].downloadLink.None? && c[j] == m[j].(downloadLink := None)
  {
    if impls != [] {
      FlattenWithoutLinks(impls[1..]);
    }
  }

  /**
   * `getApplication` given the result of the lookup (`null` when the id
   * names no application): `None` is the "not found" response, which the
   * lookup's RuntimeException leads to.
   */
  function GetApplication(found: Application?): (r: Option<ApplicationDto>)
    reads if found == null then {} else {found} + ApplicationMapper.VersionObjects(OrEmpty(found.implementations))
    ensures r.None? <==> found == null
    ensures r.Some? ==>
      && r.value.riskLevel.None?
      && (r.value.lifecycleState.Some? <==> found.lifecycleState.Some?)
      && (r.value.origins.None? <==> found.applicationOrigins.None?)
      && r.value.categories == ApplicationMapper.FilterTagsByType(found, CATEGORY)
      && r.value.tags == ApplicationMapper.MapAllTags(found)
      && r.value.implementationVersions == ImplementationVersions(found)
  {
    if found == null then None
    else
      var app := found;
      Some(ApplicationDto(app.id, app.displayName, app.description, app.logo, None,
                          if app.lifecycleState.None? then None else Some(AppLifecycleName(app.lifecycleState.value)),
                          app.lastModified, None, None, None, ApplicationMapper.MapOrigins(app),
                          ApplicationMapper.FilterTagsByType(app, CATEGORY), ApplicationMapper.MapAllTags(app),
                          ImplementationVersions(app), None, None))
  }

  /**
   * The detail the controller returns is the mapper's transfer object for no
   * request, without the creation time and without download links.
   */
  lemma DetailIsMapperView(app: Application)
    ensures GetApplication(app).Some?
    ensures GetApplication(app).value
            == ApplicationMapper.MapToApplicationDto(app, None, None, None, None)
                 .(createdAt := None, implementationVersions := ImplementationVersions(app))
  {
  }

  /**
   * The file name of `redirectToDownload`: the download link after its last
   * `/`, or the whole link when it has none. A null link is the
   * NullPointerException (`None`).
   */
  function DownloadFilename(downloadLink: Option<string>): (r: Option<string>)
    ensures r.None? <==> downloadLink.None?
    ensures r.Some? ==> '/' !in r.value
    ensures r.Some? ==> var link := downloadLink.value;
      && |r.value| <= |link| && link[|link| - |r.value|..] == r.value
      && (|r.value| == |link| || link[|link| - |r.value| - 1] == '/')
  {
    if downloadLink.None? then None
    else
      var link := downloadLink.value;
      Some(link[Text.LastIndexOf(link, '/') + 1..])
  }

  /** A link without `/` is its own file name; otherwise the name is what follows the final `/`. */
  lemma DownloadFilenameCases(prefix: string, name: string)
    requires '/' !in name
    ensures DownloadFilename(Some(name)) == Some(name)
    ensures DownloadFilename(Some(prefix + ['/'] + name)) == Some(name)
  {
    var link := prefix + ['/'] + name;
    var k := Text.LastIndexOf(link, '/');
    assert link[|prefix|] == '/';
    assert link[|prefix| + 1..] == name;
    assert forall j :: 0 <= j < |name| ==> link[|prefix| + 1 + j] == name[j];
  }
}
