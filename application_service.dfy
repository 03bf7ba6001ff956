/**
 * The state-changing rules of `ApplicationService`: the build callbacks
 * that move a version out of publishing, the recording of downloads and the
 * creation of capability requests. The repositories are in-memory stores:
 * versions and applications by id, requests and downloads as lists.
 */
module ApplicationService {
  import opened Wrappers
  import Text
  import opened Entities

  /** `DOWNLOAD_OFFSET_SECONDS`, and the `offset` the controller passes: the de-duplication window. */
  const DOWNLOAD_OFFSET_SECONDS: int := 10

  /** The fields of `ContinueForm` that `successBuild` reads. */
  datatype ContinueForm = ContinueForm(connectorBundle: Option<string>, connectorVersion: Option<string>,
                                       publishTime: Option<int>, downloadLink: Option<string>)

  datatype ServiceError =
    | NotFound(id: Uuid)              // the EntityNotFoundException of a reference to a missing row
    | NullPointer                     // dereferencing or unboxing a null
    | IllegalArgument(message: string)
    | ConstraintViolation             // the save rejected by `unique_request_per_application`

  // ----- downloads -----

  /** The four values a download is compared on: version, address, user agent and time. */
  predicate SameClient(d: Download, version: Uuid, ip: Option<string>, userAgent: Option<string>)
  {
    d.version == version && d.ip == ip && d.userAgent == userAgent
  }

  /**
   * The derived query `existsByImplementationVersionAndIpAddressAndUserAgentAndDownloadedAt`:
   * a stored download of the same client made exactly at the cutoff.
   */
  predicate ExistsAtCutoff(ds: seq<Download>, version: Uuid, ip: Option<string>, userAgent: Option<string>, cutoff: int)
  {
    exists i :: 0 <= i < |ds| && SameClient(ds[i], version, ip, userAgent) && ds[i].downloadedAt == cutoff
  }

  /** The `existsRecentDuplicate` query: a stored download of the same client made after the cutoff. */
  predicate ExistsAfterCutoff(ds: seq<Download>, version: Uuid, ip: Option<string>, userAgent: Option<string>, cutoff: int)
  {
    exists i :: 0 <= i < |ds| && SameClient(ds[i], version, ip, userAgent) && ds[i].downloadedAt > cutoff
  }

  /** The store after `recordDownloadIfNew` as written: one new download, stamped `now`, unless one sits exactly at the cutoff. */
  function RecordAsWritten(ds: seq<Download>, version: Uuid, ip: Option<string>, userAgent: Option<string>,
                           cutoff: int, now: int): (r: seq<Download>)
    ensures ExistsAtCutoff(ds, version, ip, userAgent, cutoff) ==> r == ds
    ensures !ExistsAtCutoff(ds, version, ip, userAgent, cutoff) ==> r == ds + [Download(version, ip, userAgent, now)]
  {
    if ExistsAtCutoff(ds, version, ip, userAgent, cutoff) then ds else ds + [Download(version, ip, userAgent, now)]
  }

  /** The store after the windowed check: one new download unless the same client downloaded after the cutoff. */
  function RecordWindowed(ds: seq<Download>, version: Uuid, ip: Option<string>, userAgent: Option<string>,
                          cutoff: int, now: int): (r: seq<Download>)
    ensures ExistsAfterCutoff(ds, version, ip, userAgent, cutoff) ==> r == ds
    ensures !ExistsAfterCutoff(ds, version, ip, userAgent, cutoff) ==> r == ds + [Download(version, ip, userAgent, now)]
  {
    if ExistsAfterCutoff(ds, version, ip, userAgent, cutoff) then ds else ds + [Download(version, ip, userAgent, now)]
  }

  /** Downloads of one client recorded in the store are at least the window apart. */
  predicate Spaced(ds: seq<Download>)
  {
    forall i, j :: 0 <= i < j < |ds| && SameClient(ds[i], ds[j].version, ds[j].ip, ds[j].userAgent)
      ==> ds[j].downloadedAt - ds[i].downloadedAt >= DOWNLOAD_OFFSET_SECONDS
  }

  /**
   * As written, a client that downloads again five seconds later is recorded
   * twice: the earlier download is not exactly at the cutoff.
   */
  lemma AsWrittenRecordsRepeat(version: Uuid, ip: Option<string>, userAgent: Option<string>)
    ensures var first := [Download(version, ip, userAgent, 100)];
      var now := 105;
      && Spaced(first)
      && RecordAsWritten(first, version, ip, userAgent, now - DOWNLOAD_OFFSET_SECONDS, now)
         == first + [Download(version, ip, userAgent, now)]
      && !Spaced(RecordAsWritten(first, version, ip, userAgent, now - DOWNLOAD_OFFSET_SECONDS, now))
  {
    var first := [Download(version, ip, userAgent, 100)];
    assert !ExistsAtCutoff(first, version, ip, userAgent, 95);
    var after := first + [Download(version, ip, userAgent, 105)];
    assert SameClient(after[0], after[1].version, after[1].ip, after[1].userAgent);
  }

  /** With the cutoff `now` minus the window, the windowed check keeps every client's downloads spaced. */
  lemma WindowedKeepsSpacing(ds: seq<Download>, version: Uuid, ip: Option<string>, userAgent: Option<string>,
                             cutoff: int, now: int)
    requires Spaced(ds) && cutoff + DOWNLOAD_OFFSET_SECONDS <= now
    ensures Spaced(RecordWindowed(ds, version, ip, userAgent, cutoff, now))
  {
    var r := RecordWindowed(ds, version, ip, userAgent, cutoff, now);
    if !ExistsAfterCutoff(ds, version, ip, userAgent, cutoff) {
      forall i, j | 0 <= i < j < |r| && SameClient(r[i], r[j].version, r[j].ip, r[j].userAgent)
        ensures r[j].downloadedAt - r[i].downloadedAt >= DOWNLOAD_OFFSET_SECONDS
      {
        if j == |ds| {
          assert r[i] == ds[i];
        } else {
          assert r[i] == ds[i] && r[j] == ds[j];
        }
      }
    }
  }

  /** The windowed check never records a client twice within the window, given the clock's cutoff. */
  lemma WindowedSuppressesRepeat(ds: seq<Download>, version: Uuid, ip: Option<string>, userAgent: Option<string>,
                                 earlier: int, now: int)
    requires now - DOWNLOAD_OFFSET_SECONDS < earlier
    requires Download(version, ip, userAgent, earlier) in ds
    ensures RecordWindowed(ds, version, ip, userAgent, now - DOWNLOAD_OFFSET_SECONDS, now) == ds
  {
    var i :| 0 <= i < |ds| && ds[i] == Download(version, ip, userAgent, earlier);
    assert SameClient(ds[i], version, ip, userAgent);
  }

  // ----- requests -----

  /** The request table and the next identity the database assigns. */
  datatype RequestStore = RequestStore(requests: seq<Request>, nextId: int)

  /** Identities are below the next one and distinct, and one request per application. */
  predicate GoodStore(s: RequestStore)
  {
    && OneRequestPerApplication(s.requests)
    && (forall i :: 0 <= i < |s.requests| ==> s.requests[i].id < s.nextId)
  }

  datatype Outcome = Outcome(result: Result<Request, ServiceError>, store: RequestStore)

  predicate HasRequestFor(rs: seq<Request>, application: Uuid)
  {
    exists i :: 0 <= i < |rs| && rs[i].application == application
  }

  /**
   * `createRequest` on the request store, given the ids of the stored
   * applications: an unknown id, a null type (the `toUpperCase` on null) and
   * a type that names no constant after upper-casing are errors; so is a
   * second request for the same application, which the unique constraint
   * rejects.
   */
  function CreateRequestOutcome(known: set<Uuid>, store: RequestStore, applicationId: Uuid,
                                capabilitiesType: Option<string>, requester: Option<string>): (o: Outcome)
    ensures o.result.Err? ==> o.store == store
    ensures o.result.Ok? ==> o.store.requests == store.requests + [o.result.value] && o.store.nextId == store.nextId + 1
    ensures o.result.Ok? ==> o.result.value.id == store.nextId && o.result.value.application == applicationId
  {
    if applicationId !in known then
      Outcome(Err(IllegalArgument("Application not found: " + applicationId)), store)
    else if capabilitiesType.None? then Outcome(Err(NullPointer), store)
    else
      var ct := CapabilityValueOf(Text.ToUpper(capabilitiesType.value));
      if ct.None? then
        Outcome(Err(IllegalArgument("Invalid capabilitiesType: " + capabilitiesType.value
                                    + " (allowed: READ, CREATE, MODIFY, DELETE)")), store)
      else if HasRequestFor(store.requests, applicationId) then Outcome(Err(ConstraintViolation), store)
      else
        var r := NewRequest(store.nextId, applicationId).(capabilitiesType := ct, requester := requester);
        Outcome(Ok(r), RequestStore(store.requests + [r], store.nextId + 1))
  }

  /**
   * A request is created exactly when the application exists, the type
   * names a constant once upper-cased and the application has no request
   * yet; it carries that application, type and requester, no votes, and is
   * appended to the store.
   */
  lemma CreateRequestSucceeds(known: set<Uuid>, store: RequestStore, applicationId: Uuid,
                              capabilitiesType: Option<string>, requester: Option<string>)
    ensures var o := CreateRequestOutcome(known, store, applicationId, capabilitiesType, requester);
      && (o.result.Ok? <==>
            && applicationId in known && capabilitiesType.Some?
            && Text.ToUpper(capabilitiesType.value) in CAPABILITY_NAMES
            && !HasRequestFor(store.requests, applicationId))
      && (o.result.Ok? ==>
            && o.result.value.application == applicationId
            && o.result.value.capabilitiesType == CapabilityValueOf(Text.ToUpper(capabilitiesType.value))
            && CapabilityName(o.result.value.capabilitiesType.value) == Text.ToUpper(capabilitiesType.value)
            && o.result.value.requester == requester && o.result.value.VotesCount() == 0
            && o.store.requests == store.requests + [o.result.value])
  {
  }

  /** The type is matched without regard to case. */
  lemma CreateRequestIgnoresCase(known: set<Uuid>, store: RequestStore, applicationId: Uuid,
                                 t: string, requester: Option<string>)
    ensures CreateRequestOutcome(known, store, applicationId, Some(Text.ToLower(t)), requester).result.Ok?
            == CreateRequestOutcome(known, store, applicationId, Some(t), requester).result.Ok?
  {
    assert Text.ToUpper(Text.ToLower(t)) == Text.ToUpper(t);
  }

  /** Creating a request keeps one request per application and the identities fresh. */
  lemma CreateRequestKeepsStore(known: set<Uuid>, store: RequestStore, applicationId: Uuid,
                                capabilitiesType: Option<string>, requester: Option<string>)
    requires GoodStore(store)
    ensures GoodStore(CreateRequestOutcome(known, store, applicationId, capabilitiesType, requester).store)
  {
    var o := CreateRequestOutcome(known, store, applicationId, capabilitiesType, requester);
    if o.result.Ok? {
      var rs := o.store.requests;
      forall i, j | 0 <= i < j < |rs| ensures rs[i].application != rs[j].application {
        if j == |store.requests| {
          assert rs[i] == store.requests[i];
        } else {
          assert rs[i] == store.requests[i] && rs[j] == store.requests[j];
        }
      }
    }
  }

  // ----- the service -----

  class ApplicationServiceState {
    var applications: map<Uuid, Application>
    var versions: map<Uuid, ImplementationVersion>
    var requests: seq<Request>
    var nextRequestId: int
    var downloads: seq<Download>

    constructor (applications: map<Uuid, Application>, versions: map<Uuid, ImplementationVersion>)
      ensures this.applications == applications && this.versions == versions
      ensures requests == [] && downloads == [] && nextRequestId == 1
    {
      this.applications := applications;
      this.versions := versions;
      requests, downloads, nextRequestId := [], [], 1;
    }

    /**
     * `failBuild`: the version becomes WITH_ERROR with the form's message;
     * the application becomes WITH_ERROR too when this is the only version of
     * its only implementation. A missing join or null list is a
     * NullPointerException after the version has been updated.
     */
    method FailBuild(oid: Uuid, errorMessage: Option<string>) returns (r: Option<ServiceError>)
      modifies (if oid in versions then {versions[oid]} else {})`lifecycleState
      modifies (if oid in versions then {versions[oid]} else {})`errorMessage
      modifies (if oid in versions && versions[oid].implementation != null
                   && versions[oid].implementation.application != null
                then {versions[oid].implementation.application} else {})`lifecycleState
      ensures oid !in versions ==> r == Some(NotFound(oid))
      ensures oid in versions ==>
        var v := versions[oid];
        v.lifecycleState == Some(VersionLifecycle.WITH_ERROR) && v.errorMessage == errorMessage
      ensures oid in versions ==>
        var impl := versions[oid].implementation;
        && (impl == null || impl.implementationVersions.None? ==> r == Some(NullPointer))
        && (impl != null && impl.implementationVersions.Some? ==>
              var app := impl.application;
              var onlyVersion := |impl.implementationVersions.value| == 1;
              && (onlyVersion && (app == null || app.implementations.None?) ==> r == Some(NullPointer))
              && (!onlyVersion || (app != null && app.implementations.Some?) ==> r.None?))
      ensures oid in versions && versions[oid].implementation != null && versions[oid].implementation.application != null ==>
        var impl := versions[oid].implementation;
        var app := impl.application;
        app.lifecycleState ==
          if impl.implementationVersions.Some? && |impl.implementationVersions.value| == 1
             && app.implementations.Some? && |app.implementations.value| == 1
          then Some(AppLifecycle.WITH_ERROR)
          else old(app.lifecycleState)
    {
      if oid !in versions {
        return Some(NotFound(oid));
      }
      var version := versions[oid];
      version.lifecycleState := Some(VersionLifecycle.WITH_ERROR);
      version.errorMessage := errorMessage;
      var implementation := version.implementation;
      if implementation == null || implementation.implementationVersions.None? {
        return Some(NullPointer);
      }
      var application := implementation.application;
      if |implementation.implementationVersions.value| == 1 {
        if application == null || application.implementations.None? {
          return Some(NullPointer);
        }
        if |application.implementations.value| == 1 {
          application.lifecycleState := Some(AppLifecycle.WITH_ERROR);
        }
      }
      return None;
    }

    /**
     * `successBuild`: the implementation takes the form's bundle, then the
     * version its connector version, download link and publish time and
     * becomes ACTIVE. A null publish time fails the unboxing after the bundle
     * has been set.
     */
    method SuccessBuild(oid: Uuid, form: ContinueForm) returns (r: Option<ServiceError>)
      modifies (if oid in versions then {versions[oid]} else {})`connectorVersion
      modifies (if oid in versions then {versions[oid]} else {})`downloadLink
      modifies (if oid in versions then {versions[oid]} else {})`publishDate
      modifies (if oid in versions then {versions[oid]} else {})`lifecycleState
      modifies (if oid in versions && versions[oid].implementation != null
                then {versions[oid].implementation} else {})`connectorBundle
      ensures oid !in versions ==> r == Some(NotFound(oid))
      ensures oid in versions && versions[oid].implementation == null ==>
        var v := versions[oid];
        && r == Some(NullPointer)
        && v.connectorVersion == old(v.connectorVersion) && v.downloadLink == old(v.downloadLink)
        && v.publishDate == old(v.publishDate) && v.lifecycleState == old(v.lifecycleState)
      ensures oid in versions && versions[oid].implementation != null ==>
        var v := versions[oid];
        && v.implementation.connectorBundle == form.connectorBundle
        && (form.publishTime.None? ==>
              && r == Some(NullPointer)
              && v.connectorVersion == old(v.connectorVersion) && v.downloadLink == old(v.downloadLink)
              && v.publishDate == old(v.publishDate) && v.lifecycleState == old(v.lifecycleState))
        && (form.publishTime.Some? ==>
              && r.None?
              && v.connectorVersion == form.connectorVersion && v.downloadLink == form.downloadLink
              && v.publishDate == form.publishTime && v.lifecycleState == Some(VersionLifecycle.ACTIVE))
    {
      if oid !in versions {
        return Some(NotFound(oid));
      }
      var version := versions[oid];
      var implementation := version.implementation;
      if implementation == null {
        return Some(NullPointer);
      }
      implementation.connectorBundle := form.connectorBundle;
      if form.publishTime.None? {
        return Some(NullPointer);
      }
      version.connectorVersion := form.connectorVersion;
      version.downloadLink := form.downloadLink;
      version.publishDate := form.publishTime;
      version.lifecycleState := Some(VersionLifecycle.ACTIVE);
      return None;
    }

    /** `recordDownloadIfNew` as written: the duplicate test asks for a download exactly at the cutoff. */
    method RecordDownloadIfNewAsWritten(version: Uuid, ip: Option<string>, userAgent: Option<string>,
                                        cutoff: int, now: int)
      modifies this`downloads
      ensures downloads == RecordAsWritten(old(downloads), version, ip, userAgent, cutoff, now)
    {
      var duplicate := false;
      for i := 0 to |downloads|
        invariant duplicate <==> ExistsAtCutoff(downloads[..i], version, ip, userAgent, cutoff)
      {
        if SameClient(downloads[i], version, ip, userAgent) && downloads[i].downloadedAt == cutoff {
          duplicate := true;
        }
        assert downloads[..i + 1][..i] == downloads[..i];
      }
      assert downloads[..|downloads|] == downloads;
      if !duplicate {
        downloads := downloads + [Download(version, ip, userAgent, now)];
      }
    }

    /**
     * `recordDownloadIfNew` with the duplicate test the repository's
     * `existsRecentDuplicate` states: a download of the same client after
     * the cutoff.
     */
    method RecordDownloadIfNew(version: Uuid, ip: Option<string>, userAgent: Option<string>, cutoff: int, now: int)
      modifies this`downloads
      ensures downloads == RecordWindowed(old(downloads), version, ip, userAgent, cutoff, now)
    {
      var duplicate := false;
      for i := 0 to |downloads|
        invariant duplicate <==> ExistsAfterCutoff(downloads[..i], version, ip, userAgent, cutoff)
      {
        if SameClient(downloads[i], version, ip, userAgent) && downloads[i].downloadedAt > cutoff {
          duplicate := true;
        }
        assert downloads[..i + 1][..i] == downloads[..i];
      }
      assert downloads[..|downloads|] == downloads;
      if !duplicate {
        downloads := downloads + [Download(version, ip, userAgent, now)];
      }
    }

    /** `createRequest` on the request table. */
    method CreateRequest(applicationId: Uuid, capabilitiesType: Option<string>, requester: Option<string>)
      returns (r: Result<Request, ServiceError>)
      modifies this`requests, this`nextRequestId
      ensures Outcome(r, RequestStore(requests, nextRequestId))
              == CreateRequestOutcome(applications.Keys, old(RequestStore(requests, nextRequestId)),
                                      applicationId, capabilitiesType, requester)
    {
      if applicationId !in applications {
        return Err(IllegalArgument("Application not found: " + applicationId));
      }
      if capabilitiesType.None? {
        return Err(NullPointer);
      }
      var ct := CapabilityValueOf(Text.ToUpper(capabilitiesType.value));
      if ct.None? {
        return Err(IllegalArgument("Invalid capabilitiesType: " + capabilitiesType.value
                                   + " (allowed: READ, CREATE, MODIFY, DELETE)"));
      }
      var request := NewRequest(nextRequestId, applicationId).(capabilitiesType := ct, requester := requester);
      var i := 0;
      while i < |requests|
        invariant 0 <= i <= |requests|
        invariant forall k :: 0 <= k < i ==> requests[k].application != applicationId
      {
        if requests[i].application == applicationId {
          return Err(ConstraintViolation);
        }
        i := i + 1;
      }
      requests := requests + [request];
      nextRequestId := nextRequestId + 1;
      r := Ok(request);
    }

    /**
     * The linking half of `uploadConnector`: an application with an id is
     * replaced by the stored one (an unknown id is an error), then the
     * implementation points to the application and the version to the
     * implementation.
     */
    method LinkUpload(application: Application, implementation: Implementation, version: ImplementationVersion)
      returns (r: Result<Application, string>)
      modifies implementation`application, version`implementation
      ensures application.id.Some? && application.id.value !in applications ==>
        r == Err("Application not found")
        && implementation.application == old(implementation.application)
        && version.implementation == old(version.implementation)
      ensures application.id.None? ==> r == Ok(application)
      ensures application.id.Some? && application.id.value in applications ==>
        r == Ok(applications[application.id.value])
      ensures r.Ok? ==> implementation.application == r.value && version.implementation == implementation
    {
      var app := application;
      if application.id.Some? {
        if application.id.value !in applications {
          return Err("Application not found");
        }
        app := applications[application.id.value];
      }
      implementation.application := app;
      version.implementation := implementation;
      r := Ok(app);
    }
  }
}
