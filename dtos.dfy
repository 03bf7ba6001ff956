/**
 * The transfer objects the back end returns. `ApplicationDto` carries the
 * union of the fields that its two producers set: the controller's
 * eleven-argument constructor and the mapper's builder. A field a producer
 * does not set is `None`.
 */
module Dtos {
  import opened Wrappers
  import opened Entities

  /** `ApplicationTagDto`: the tag type as its enum name. */
  datatype TagDto = TagDto(id: Option<int>, name: Option<string>, displayName: Option<string>,
                           tagType: Option<string>)

  /** `CountryOfOriginDto`. */
  datatype CountryDto = CountryDto(id: Option<int>, name: Option<string>, displayName: Option<string>)

  /** `ImplementationVersionDto`: one row of the version table of an application. */
  datatype VersionDto = VersionDto(description: Option<string>, implementationTags: Option<seq<Option<string>>>,
                                   capabilities: Option<seq<string>>, connectorVersion: Option<string>,
                                   systemVersion: Option<string>, releasedDate: Option<int>,
                                   author: Option<string>, lifecycleState: Option<string>,
                                   downloadLink: Option<string>)

  /** `ApplicationDto`. */
  datatype ApplicationDto = ApplicationDto(
    id: Option<Uuid>, displayName: Option<string>, description: Option<string>, logo: Option<seq<bv8>>,
    riskLevel: Option<string>, lifecycleState: Option<string>, lastModified: Option<int>,
    createdAt: Option<int>, capabilities: Option<seq<string>>, requester: Option<string>,
    origins: Option<seq<CountryDto>>, categories: Option<seq<TagDto>>, tags: Option<seq<TagDto>>,
    implementationVersions: Option<seq<VersionDto>>, requestId: Option<int>, voteCount: Option<int>)
}
