/**
 * The persistent entities of the catalog back end. `Application`,
 * `Implementation` and `ImplementationVersion` are updated in place by the
 * services, so they are classes; tags, countries, downloads, votes and
 * requests are read or stored whole, so they are values. A Java `null` is
 * `None` (for references to another entity class, the nullable class type).
 */
module Entities {
  import opened Wrappers

  /** A `java.util.UUID`, compared and printed as its text. */
  type Uuid = string

  /** `Application.ApplicationLifecycleType`. */
  datatype AppLifecycle = REQUESTED | IN_PUBLISH_PROCESS | ACTIVE | WITH_ERROR

  /** `ImplementationVersion.ImplementationVersionLifecycleType`. */
  datatype VersionLifecycle = IN_PUBLISH_PROCESS | ACTIVE | DEPRECATED | ARCHIVED | WITH_ERROR

  /** `ImplementationVersion.CapabilitiesType`. */
  datatype CapabilitiesType = READ | CREATE | MODIFY | DELETE

  /** `ImplementationVersion.BuildFrameworkType`. */
  datatype BuildFramework = MAVEN | GRADLE

  /** `ApplicationTag.ApplicationTagType`. */
  datatype TagType = DEPLOYMENT | LOCALITY | CATEGORY | COMMON

  // ----- enum names (`Enum.name()`) and `Enum.valueOf` -----

  function AppLifecycleName(l: AppLifecycle): string
  {
    match l
    case REQUESTED => "REQUESTED"
    case IN_PUBLISH_PROCESS => "IN_PUBLISH_PROCESS"
    case ACTIVE => "ACTIVE"
    case WITH_ERROR => "WITH_ERROR"
  }

  function VersionLifecycleName(l: VersionLifecycle): string
  {
    match l
    case IN_PUBLISH_PROCESS => "IN_PUBLISH_PROCESS"
    case ACTIVE => "ACTIVE"
    case DEPRECATED => "DEPRECATED"
    case ARCHIVED => "ARCHIVED"
    case WITH_ERROR => "WITH_ERROR"
  }

  function TagTypeName(t: TagType): string
  {
    match t
    case DEPLOYMENT => "DEPLOYMENT"
    case LOCALITY => "LOCALITY"
    case CATEGORY => "CATEGORY"
    case COMMON => "COMMON"
  }

  function CapabilityName(c: CapabilitiesType): string
  {
    match c
    case READ => "READ"
    case CREATE => "CREATE"
    case MODIFY => "MODIFY"
    case DELETE => "DELETE"
  }

  /** The four names `CapabilitiesType.valueOf` accepts. */
  const CAPABILITY_NAMES: set<string> := {"READ", "CREATE", "MODIFY", "DELETE"}

  /**
   * `CapabilitiesType.valueOf(name)`: the constant with exactly that name;
   * any other string (`None` here) is an IllegalArgumentException.
   */
  function CapabilityValueOf(name: string): (r: Option<CapabilitiesType>)
    ensures r.Some? <==> name in CAPABILITY_NAMES
    ensures r.Some? ==> CapabilityName(r.value) == name
  {
    if name == "READ" then Some(READ)
    else if name == "CREATE" then Some(CREATE)
    else if name == "MODIFY" then Some(MODIFY)
    else if name == "DELETE" then Some(DELETE)
    else None
  }

  /** `valueOf(c.name()) == c`: the names identify the constants. */
  lemma CapabilityNameRoundTrip(c: CapabilitiesType)
    ensures CapabilityName(c) in CAPABILITY_NAMES
    ensures CapabilityValueOf(CapabilityName(c)) == Some(c)
  {
  }

  // ----- values -----

  /** `ApplicationTag`, reached through the `ApplicationApplicationTag` link. */
  datatype ApplicationTag = ApplicationTag(id: Option<int>, name: Option<string>,
                                           displayName: Option<string>, tagType: Option<TagType>)

  /** `CountryOfOrigin`, reached through the `ApplicationOrigin` link. */
  datatype CountryOfOrigin = CountryOfOrigin(id: Option<int>, name: Option<string>, displayName: Option<string>)

  /** `ImplementationTag`, reached through the `ImplementationImplementationTag` link. */
  datatype ImplementationTag = ImplementationTag(id: int, name: Option<string>, displayName: Option<string>)

  /**
   * `Download`: which version was fetched, from which address (the text of
   * the address key) by which user agent, and when (seconds).
   */
  datatype Download = Download(version: Uuid, ip: Option<string>, userAgent: Option<string>, downloadedAt: int)

  /** `Vote`, identified by its `VoteId` pair. */
  datatype Vote = Vote(requestId: Option<int>, voter: Option<string>)

  /**
   * `Request`. `capabilitiesType` is the single type that
   * `ApplicationService.createRequest` sets; `capabilities` is the array column.
   */
  datatype Request = Request(id: int, application: Uuid, capabilities: Option<seq<CapabilitiesType>>,
                             capabilitiesType: Option<CapabilitiesType>, requester: Option<string>,
                             votes: Option<seq<Vote>>)
  {
    /** `getVotesCount`. */
    function VotesCount(): (r: nat)
      ensures r == 0 <==> votes.None? || votes.value == []
    {
      if votes.None? then 0 else |votes.value|
    }
  }

  /** `new Request()` given the identity the database assigns; `votes` starts as an empty list. */
  function NewRequest(id: int, application: Uuid): (r: Request)
    ensures r.id == id && r.application == application
    ensures r.votes == Some([]) && r.VotesCount() == 0
    ensures r.capabilities.None? && r.capabilitiesType.None? && r.requester.None?
  {
    Request(id, application, None, None, None, Some([]))
  }

  /** The count is the number of votes whenever the list is present. */
  lemma VotesCountOfAdded(r: Request, v: Vote)
    requires r.votes.Some?
    ensures r.(votes := Some(r.votes.value + [v])).VotesCount() == r.VotesCount() + 1
  {
  }

  /** The `unique_request_per_application` constraint over a stored list of requests. */
  predicate OneRequestPerApplication(rs: seq<Request>)
  {
    forall i, j :: 0 <= i < j < |rs| ==> rs[i].application != rs[j].application
  }

  // ----- entities updated in place -----

  class Application {
    var id: Option<Uuid>
    var name: Option<string>
    var displayName: Option<string>
    var description: Option<string>
    var lifecycleState: Option<AppLifecycle>
    var createdAt: Option<int>
    var lastModified: Option<int>
    var implementations: Option<seq<Implementation>>
    var applicationTags: Option<seq<ApplicationTag>>
    // Read by the mapper, the controller and the logo service, though not
    // declared in `Application.java`.
    var logo: Option<seq<bv8>>
    var applicationOrigins: Option<seq<CountryOfOrigin>>
    var logoPath: Option<string>
    var logoContentType: Option<string>
    var logoOriginalName: Option<string>
    var logoSizeBytes: Option<int>

    /** `new Application()`: every field is null. */
    constructor ()
      ensures id.None? && name.None? && displayName.None? && description.None?
      ensures lifecycleState.None? && createdAt.None? && lastModified.None?
      ensures implementations.None? && applicationTags.None? && logo.None? && applicationOrigins.None?
      ensures logoPath.None? && logoContentType.None? && logoOriginalName.None? && logoSizeBytes.None?
    {
      id, name, displayName, description := None, None, None, None;
      lifecycleState, createdAt, lastModified := None, None, None;
      implementations, applicationTags, logo, applicationOrigins := None, None, None, None;
      logoPath, logoContentType, logoOriginalName, logoSizeBytes := None, None, None, None;
    }

    /**
     * `addImplementation`: allocates the list when it is null, appends the
     * argument, points its back-reference here and returns this object.
     */
    method AddImplementation(impl: Implementation) returns (r: Application)
      modifies this`implementations, impl`application
      ensures implementations == Some(OrEmpty(old(implementations)) + [impl])
      ensures impl.application == this
      ensures r == this
    {
      if implementations.None? {
        implementations := Some([]);
      }
      impl.application := this;
      implementations := Some(implementations.value + [impl]);
      r := this;
    }
  }

  class Implementation {
    var id: Option<int>
    var displayName: Option<string>
    /** The bundle reference, held as the text the build form reports. */
    var connectorBundle: Option<string>
    var application: Application?
    var implementationVersions: Option<seq<ImplementationVersion>>
    var implementationTags: Option<seq<ImplementationTag>>

    /** `new Implementation()`: the version list starts empty, everything else null. */
    constructor ()
      ensures implementationVersions == Some([])
      ensures id.None? && displayName.None? && connectorBundle.None? && application == null
      ensures implementationTags.None?
    {
      id, displayName, connectorBundle, application := None, None, None, null;
      implementationVersions, implementationTags := Some([]), None;
    }
  }

  class ImplementationVersion {
    var id: Option<Uuid>
    var description: Option<string>
    var connectorVersion: Option<string>
    var browseLink: Option<string>
    var checkoutLink: Option<string>
    var downloadLink: Option<string>
    var systemVersion: Option<string>
    var author: Option<string>
    var releasedDate: Option<int>
    /** Epoch milliseconds. */
    var publishDate: Option<int>
    var lifecycleState: Option<VersionLifecycle>
    var buildFramework: Option<BuildFramework>
    var connidVersion: Option<string>
    var implementation: Implementation?
    var errorMessage: Option<string>
    var downloads: Option<seq<Download>>
    /** Read by the mapper, though not declared in `ImplementationVersion.java`. */
    var capabilitiesJson: Option<string>

    /** `new ImplementationVersion()`: the download list starts empty, everything else null. */
    constructor ()
      ensures downloads == Some([]) && DownloadCount() == 0
      ensures id.None? && description.None? && connectorVersion.None? && browseLink.None?
      ensures checkoutLink.None? && downloadLink.None? && systemVersion.None? && author.None?
      ensures releasedDate.None? && publishDate.None? && lifecycleState.None?
      ensures buildFramework.None? && connidVersion.None? && implementation == null
      ensures errorMessage.None? && capabilitiesJson.None?
    {
      id, description, connectorVersion, browseLink := None, None, None, None;
      checkoutLink, downloadLink, systemVersion, author := None, None, None, None;
      releasedDate, publishDate, lifecycleState := None, None, None;
      buildFramework, connidVersion, implementation := None, None, null;
      errorMessage, downloads, capabilitiesJson := None, Some([]), None;
    }

    /** `getDownloadCount`: zero for a null list, its size otherwise. */
    function DownloadCount(): (r: nat)
      reads this
      ensures r == 0 <==> downloads.None? || downloads.value == []
    {
      if downloads.None? then 0 else |downloads.value|
    }
  }
}
