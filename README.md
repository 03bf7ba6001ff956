# Integration catalog — a Dafny model

This project models the logic of the Evolveum integration catalog. The catalog is a register of midPoint connectors: applications, their implementations and their versions. It has two halves.

The front end is an Angular application. Its catalog list runs fetched records through a filter, sort and page pipeline. A filter dialog edits the filter state. An upload wizard and its implementation form gate what the user may submit. The detail page sorts an application's versions into four buckets. There are also a small home page, a hard-coded sign-in service with its dialog, and a request form.

The back end is a Spring/JPA service. Its parts with logic are these:
- a mapper and a controller that build transfer objects from entities;
- a converter for PostgreSQL array literals of capability names (section 8.15.2, "Array Value Input", of the PostgreSQL documentation);
- a user-agent classifier;
- the logo store's validation and metadata bookkeeping;
- the build callbacks, the download log and request creation of the application service;
- the pending-request service;
- the entities' small rules and the value-equality keys.

Every component of the front end is a `class` whose fields are the component's signals and properties. Its methods either have `modifies` frames naming the fields they change, or use `modifies this` with an `ensures` that states every field; and computed signals are functions that read those fields. An HTTP call is a parameter:
- the method that issues it appends the request it would send to a field such as `requests` or `sent`;
- the subscription's `next` and `error` callbacks are separate methods;
- an `@Output` emitter is a counter or a list of emitted events.

On the back end, the entities the services update in place are classes: `Application`, `Implementation` and `ImplementationVersion`. Everything read or stored whole is a datatype. A repository is an in-memory store, a map by id or a list. A Java `null` is `None`. A thrown exception is the `Err` case of a `Result`.

| module | file | models |
|---|---|---|
| `Wrappers` | wrappers.dfy | `Option` and `Result` |
| `Text`, `JsText`, `JavaText` | text.dfy | string primitives with JavaScript semantics (`trim`, UTF-16 `length`, `split`) and Java semantics (`trim`, `isBlank`, `split` dropping trailing empties, the `\s*` stripping around a `split`, `String.hashCode`, 32-bit wrap-around) |
| `SeqUtil` | seq_util.dfy | `Array.prototype.filter`, a JavaScript `Set` as a duplicate-free sequence in insertion order, a stable sort by key |
| `Catalog` | catalog.dfy | the front end's application record and filter state, category-tag selection, version collection, capability formatting |
| `ApplicationsList` | applications_list.dfy | the catalog list: `applications-list.ts` |
| `FilterDialog` | filter_modal.dfy | `filter-modal.ts` |
| `UploadWizard` | upload_form_main.dfy | `upload-form-main.ts` |
| `UploadImplementation` | upload_form_impl.dfy | `upload-form-impl.ts` |
| `ApplicationDetailView` | application_detail.dfy | `components/application-detail/application-detail.ts` |
| `Homepage` | homepage.dfy | `homepage.component.ts` |
| `Auth` | auth.dfy | `auth.service.ts`; browser storage is the field `storedUser` |
| `LoginDialog` | login_modal.dfy | `login-modal.ts` |
| `RequestDialog` | request_form.dfy | `request-form.ts` |
| `Entities` | entities.dfy | `Application`, `Implementation`, `ImplementationVersion`, `Request`, tags, downloads and their enums |
| `Dtos` | dtos.dfy | the transfer objects |
| `ApplicationMapper` | mapper.dfy | `ApplicationMapper.java` |
| `Controller` | controller.dfy | the computing parts of `Controller.java` |
| `CapabilitiesConverter` | capabilities_converter.dfy | `CapabilitiesArrayConverter.java` |
| `UserAgent` | user_agent.dfy | `UserAgentParser.java` |
| `LogoStorage` | logo_storage.dfy | `LogoStorageProperties.java`, `LogoStorageService.java` |
| `ApplicationService` | application_service.dfy | `ApplicationService.java` and the duplicate query of `DownloadsRepository.java` |
| `PendingRequests` | pending_requests.dfy | `PendingRequestService.java` |
| `VoteKeys` | vote_id.dfy | `VoteId.java` |
| `InetKeys` | inet.dfy | `utils/Inet.java`, `utils/InetAddress.java`, `repository/adapter/InetAddress.java` |

The string and sequence helpers in text.dfy and seq_util.dfy carry their own lemmas. They model language runtimes rather than code of the repository, so they have no rows below.

## Model

| member | source | states |
|---|---|---|
| Entities.CapabilityValueOf | src/main/java/com/evolveum/midpoint/integration/catalog/object/ImplementationVersion.java:32-37 | `valueOf` accepts exactly the four constant names and then yields the constant of that name |
| Entities.CapabilityNameRoundTrip | src/main/java/com/evolveum/midpoint/integration/catalog/object/ImplementationVersion.java:32-37 | `valueOf(c.name())` gives back `c` for every capability |
| Entities.NewRequest | src/main/java/com/evolveum/midpoint/integration/catalog/object/Request.java:28-48 | a new request has an empty vote list and a vote count of zero, and no capabilities or requester |
| Entities.VotesCountOfAdded | src/main/java/com/evolveum/midpoint/integration/catalog/object/Request.java:45-48 | adding a vote to a present list raises `getVotesCount` by exactly one |
| Entities.Application.constructor | src/main/java/com/evolveum/midpoint/integration/catalog/object/Application.java:38-69 | a new application has every field null |
| Entities.Application.AddImplementation | src/main/java/com/evolveum/midpoint/integration/catalog/object/Application.java:71-78 | a null list is first replaced by an empty one; the implementation is appended, its back-reference points here, and the same object is returned |
| Entities.Implementation.constructor | src/main/java/com/evolveum/midpoint/integration/catalog/object/Implementation.java:26-45 | a new implementation has an empty version list and every other field null |
| Entities.ImplementationVersion.constructor | src/main/java/com/evolveum/midpoint/integration/catalog/object/ImplementationVersion.java:52-109 | a new version has an empty download list, so its download count is zero, and every other field null |
| VoteKeys.VoteId.Empty | src/main/java/com/evolveum/midpoint/integration/catalog/object/VoteId.java:24 | the no-argument key has both fields null |
| VoteKeys.VoteId.constructor | src/main/java/com/evolveum/midpoint/integration/catalog/object/VoteId.java:26-29 | the key holds exactly the given request id and voter |
| VoteKeys.VoteId.SetRequestId | src/main/java/com/evolveum/midpoint/integration/catalog/object/VoteId.java:31-33 | the request id is replaced and the voter kept |
| VoteKeys.VoteId.SetVoter | src/main/java/com/evolveum/midpoint/integration/catalog/object/VoteId.java:35-37 | the voter is replaced and the request id kept |
| VoteKeys.VoteId.Equals | src/main/java/com/evolveum/midpoint/integration/catalog/object/VoteId.java:39-45 | equal exactly to another `VoteId` with the same request id and voter, two nulls counting as equal; never to null or to another class |
| VoteKeys.EqualsIsEquivalence | src/main/java/com/evolveum/midpoint/integration/catalog/object/VoteId.java:39-45 | `equals` is reflexive, symmetric and transitive, and false for null and for another class |
| VoteKeys.HashConsistentWithEquals | src/main/java/com/evolveum/midpoint/integration/catalog/object/VoteId.java:47-50 | equal keys have equal `Objects.hash` codes, which are 32-bit signed values |
| InetKeys.Equals | src/main/java/com/evolveum/midpoint/integration/catalog/utils/Inet.java:27-38 | equal exactly to a key of the same class with the same address, two null addresses counting as equal; never to null or to an object of another class |
| InetKeys.NullAddressesEqual | src/main/java/com/evolveum/midpoint/integration/catalog/utils/Inet.java:37 | two keys of one class with null addresses are equal |
| InetKeys.EqualsIsEquivalence | src/main/java/com/evolveum/midpoint/integration/catalog/utils/Inet.java:27-38 | `equals` is reflexive, symmetric and transitive, and false for null and for a foreign object |
| InetKeys.HashConsistentWithEquals | src/main/java/com/evolveum/midpoint/integration/catalog/utils/Inet.java:40-45 | equal keys have equal hash codes |
| InetKeys.Hash | src/main/java/com/evolveum/midpoint/integration/catalog/utils/Inet.java:40-45 | the hash code is 0 for a null address and a 32-bit signed value in every case |
| InetKeys.ContentEnd | src/main/java/com/evolveum/midpoint/integration/catalog/utils/Inet.java:49-51 | the only positions where `$` can match are this one and the end of the string, and only line terminators follow it |
| InetKeys.LineStart | src/main/java/com/evolveum/midpoint/integration/catalog/utils/Inet.java:49-51 | no line terminator follows this position, and one precedes it unless it is 0: `.` can run from here to the end of the line |
| InetKeys.MatchCharacterization | src/main/java/com/evolveum/midpoint/integration/catalog/utils/Inet.java:49-51 | `\/.*$` matches `s[p..j]` exactly when `s[p]` is a slash on the last line and `j` is the end of that line's content |
| InetKeys.LastLineFacts | src/main/java/com/evolveum/midpoint/integration/catalog/utils/Inet.java:49-51 | the last line's bounds, stated on the whole address |
| InetKeys.SlashFacts | src/main/java/com/evolveum/midpoint/integration/catalog/utils/Inet.java:49-51 | the slash the replacement starts from is the first one on the last line, and when there is none the last line has no slash |
| InetKeys.NoSlashNoMatch | src/main/java/com/evolveum/midpoint/integration/catalog/utils/Inet.java:49-51 | without a slash on the last line the pattern matches nowhere |
| InetKeys.FirstSlashMatches | src/main/java/com/evolveum/midpoint/integration/catalog/utils/Inet.java:49-51 | the first slash on the last line starts the leftmost and longest match, and no match starts after it |
| InetKeys.StripHostIsRegexReplacement | src/main/java/com/evolveum/midpoint/integration/catalog/utils/Inet.java:49-51 | the host equals `address.replaceAll("\\/.*$", "")`: either the address is unchanged and nothing matches, or exactly the leftmost-longest match is removed |
| InetKeys.SlashCut | src/main/java/com/evolveum/midpoint/integration/catalog/utils/Inet.java:49-51 | with a slash on the last line, the removed part is the leftmost-longest match |
| InetKeys.StripHostSingleLine | src/main/java/com/evolveum/midpoint/integration/catalog/utils/Inet.java:49-51 | on a one-line address, everything from the first slash onwards is removed |
| InetKeys.StripHostNoSlash | src/main/java/com/evolveum/midpoint/integration/catalog/utils/Inet.java:49-51 | an address without a slash is resolved unchanged |
| InetKeys.ToInetAddress | src/main/java/com/evolveum/midpoint/integration/catalog/utils/Inet.java:47-57 | a null address fails before resolution; otherwise the stripped host is resolved, and an unknown host becomes an IllegalStateException naming that host |
| InetKeys.ClassesAgree | src/main/java/com/evolveum/midpoint/integration/catalog/repository/adapter/InetAddress.java:24-54 | the three key classes hash and resolve identically; `equals` holds between two of them only when they are the same class |
| UserAgent.BrowserName | src/main/java/com/evolveum/midpoint/integration/catalog/util/UserAgentParser.java:11-33 | the result is one of the eight browser names, and "Unknown" exactly for a null or empty header |
| UserAgent.DeviceType | src/main/java/com/evolveum/midpoint/integration/catalog/util/UserAgentParser.java:35-52 | the result is one of the four device types, and "Unknown" exactly for a null or empty header |
| UserAgent.CaseInsensitive | src/main/java/com/evolveum/midpoint/integration/catalog/util/UserAgentParser.java:16-40 | lower- or upper-casing the header changes neither result |
| UserAgent.BrowserPrecedence | src/main/java/com/evolveum/midpoint/integration/catalog/util/UserAgentParser.java:18-32 | each browser is reported exactly when its markers are present and no earlier browser's markers are |
| UserAgent.DeviceClassification | src/main/java/com/evolveum/midpoint/integration/catalog/util/UserAgentParser.java:42-51 | "Tablet" exactly when `tablet` or `ipad` appears; otherwise "Mobile" exactly when `mobile` or `android` appears; otherwise "Desktop" |
| UserAgent.ChromiumIsNeverChromeOrSafari | src/main/java/com/evolveum/midpoint/integration/catalog/util/UserAgentParser.java:22-25 | a header naming Chromium is never reported as Chrome or Safari |
| UserAgent.ChromeBeforeSafari | src/main/java/com/evolveum/midpoint/integration/catalog/util/UserAgentParser.java:22-25 | a Chrome header that also carries `safari/` is reported as Chrome |
| VoteKeys.VoteId.HashCode | src/main/java/com/evolveum/midpoint/integration/catalog/object/VoteId.java:47-50 | `Objects.hash(requestId, voter)` is a 32-bit signed value, and 961 when both parts are null |
| InetKeys.StripHost | src/main/java/com/evolveum/midpoint/integration/catalog/utils/Inet.java:47-52 | removing the regular-expression match never lengthens the address, and an address without a slash is handed over unchanged |
| Entities.Request.VotesCount | src/main/java/com/evolveum/midpoint/integration/catalog/object/Request.java:46-48 | the vote count is zero exactly when the vote list is null or empty |
| Entities.ImplementationVersion.DownloadCount | src/main/java/com/evolveum/midpoint/integration/catalog/object/ImplementationVersion.java:107-109 | the download count is zero exactly when the download list is null or empty |
| CapabilitiesConverter.Names | src/main/java/com/evolveum/midpoint/integration/catalog/repository/adapter/CapabilitiesArrayConverter.java:31 | one enum name per element, in order |
| CapabilitiesConverter.DatabaseColumn | src/main/java/com/evolveum/midpoint/integration/catalog/repository/adapter/CapabilitiesArrayConverter.java:20-35 | the column is null exactly for a null or empty array |
| CapabilitiesConverter.StripBraces | src/main/java/com/evolveum/midpoint/integration/catalog/repository/adapter/CapabilitiesArrayConverter.java:44-47 | one pair of surrounding braces is removed, and text without both braces is kept |
| CapabilitiesConverter.ParsePartsOk | src/main/java/com/evolveum/midpoint/integration/catalog/repository/adapter/CapabilitiesArrayConverter.java:54-58 | a successful parse has one element per part, each the constant the trimmed part names |
| CapabilitiesConverter.ParsePartsPrefixErr | src/main/java/com/evolveum/midpoint/integration/catalog/repository/adapter/CapabilitiesArrayConverter.java:56-58 | once a part fails the conversion, the later parts do not change the error |
| CapabilitiesConverter.ParsePartsError | src/main/java/com/evolveum/midpoint/integration/catalog/repository/adapter/CapabilitiesArrayConverter.java:56-58 | the conversion fails exactly when some part names no constant, and then with the first such part |
| CapabilitiesConverter.ConvertToDatabaseColumn | src/main/java/com/evolveum/midpoint/integration/catalog/repository/adapter/CapabilitiesArrayConverter.java:20-35 | the `StringBuilder` loop produces the column text: null for a null or empty array, otherwise `{`, the names joined by `,`, and `}` |
| CapabilitiesConverter.JoinSnoc | src/main/java/com/evolveum/midpoint/integration/catalog/repository/adapter/CapabilitiesArrayConverter.java:27-32 | appending a separator and one more name extends the joined text |
| CapabilitiesConverter.ConvertToEntityAttribute | src/main/java/com/evolveum/midpoint/integration/catalog/repository/adapter/CapabilitiesArrayConverter.java:37-60 | a null or empty column reads as an empty array; otherwise the trimmed, unbraced text is split on `,` and each trimmed part is looked up, and the result or error is the one the specification function gives |
| CapabilitiesConverter.ParseAll | src/main/java/com/evolveum/midpoint/integration/catalog/repository/adapter/CapabilitiesArrayConverter.java:54-59 | the loop fills a fresh array by index with the parsed parts, or stops at the first unknown name with that name as the error |
| CapabilitiesConverter.EmptyColumns | src/main/java/com/evolveum/midpoint/integration/catalog/repository/adapter/CapabilitiesArrayConverter.java:39-51 | null, `""` and `{}` all read as an empty array |
| CapabilitiesConverter.ColumnParts | src/main/java/com/evolveum/midpoint/integration/catalog/repository/adapter/CapabilitiesArrayConverter.java:44-54 | a braced column of comma-free parts whose last part is not empty splits back into exactly those parts |
| CapabilitiesConverter.ParsePartsNames | src/main/java/com/evolveum/midpoint/integration/catalog/repository/adapter/CapabilitiesArrayConverter.java:56-58 | the names of an array parse back to that array |
| CapabilitiesConverter.NamesAreWords | src/main/java/com/evolveum/midpoint/integration/catalog/repository/adapter/CapabilitiesArrayConverter.java:31 | every enum name is a non-empty word with no comma |
| CapabilitiesConverter.RoundTrip | src/main/java/com/evolveum/midpoint/integration/catalog/repository/adapter/CapabilitiesArrayConverter.java:19-60 | writing a non-empty array and reading its column back gives the same array |
| CapabilitiesConverter.RoundTripEmpty | src/main/java/com/evolveum/midpoint/integration/catalog/repository/adapter/CapabilitiesArrayConverter.java:20-41 | a null or empty array is written as null, which reads back as an empty array |
| CapabilitiesConverter.UnknownNameRejected | src/main/java/com/evolveum/midpoint/integration/catalog/repository/adapter/CapabilitiesArrayConverter.java:56-58 | a column whose last word names no constant fails with that word, as `{READ,WRITE}` does |
| CapabilitiesConverter.ParseParts | src/main/java/com/evolveum/midpoint/integration/catalog/repository/adapter/CapabilitiesArrayConverter.java:54-59 | a successful conversion has one element per part; a failing one reports a trimmed text that names no constant |
| CapabilitiesConverter.EntityAttribute | src/main/java/com/evolveum/midpoint/integration/catalog/repository/adapter/CapabilitiesArrayConverter.java:38-60 | null, "" and a text that is empty once trimmed and stripped of its braces give the empty array; a failure reports a text that names no constant |
| LogoStorage.MakeProperties | src/main/java/com/evolveum/midpoint/integration/catalog/configuration/LogoStorageProperties.java:24-31 | the base path is never blank and the size limit always positive; a non-blank path and a positive limit are kept |
| LogoStorage.DefaultingIsPerField | src/main/java/com/evolveum/midpoint/integration/catalog/configuration/LogoStorageProperties.java:24-31 | each setting is defaulted on its own, whatever the other one is |
| LogoStorage.DefaultsApply | src/main/java/com/evolveum/midpoint/integration/catalog/configuration/LogoStorageProperties.java:19-31 | a null or blank path becomes `/data/logos`, and a limit that is not positive becomes 5242880 bytes |
| LogoStorage.MakePropertiesIdempotent | src/main/java/com/evolveum/midpoint/integration/catalog/configuration/LogoStorageProperties.java:24-31 | building the record again from a built record changes nothing |
| LogoStorage.FileExtension | src/main/java/com/evolveum/midpoint/integration/catalog/service/LogoStorageService.java:232-241 | "" for a null name or one without a dot; otherwise a suffix of the name that starts with its last dot and holds no other dot |
| LogoStorage.ValidateFile | src/main/java/com/evolveum/midpoint/integration/catalog/service/LogoStorageService.java:63-93 | the file passes exactly when it is present and non-empty, within the size limit, of an allowed content type ignoring case, and (when it has a name) of an allowed extension ignoring case |
| LogoStorage.ValidationOrder | src/main/java/com/evolveum/midpoint/integration/catalog/service/LogoStorageService.java:63-93 | the validations run in order, and the error reported is the first one that fails |
| LogoStorage.NamelessFilePasses | src/main/java/com/evolveum/midpoint/integration/catalog/service/LogoStorageService.java:84-92 | a file without an original name is never rejected for its extension |
| LogoStorage.DotlessNameRejected | src/main/java/com/evolveum/midpoint/integration/catalog/service/LogoStorageService.java:84-92 | a name without a dot has the empty extension and is rejected with it |
| LogoStorage.SafeFileNameKeepsExtension | src/main/java/com/evolveum/midpoint/integration/catalog/service/LogoStorageService.java:101-104 | the generated name has the original name's extension and is never blank |
| LogoStorage.DeleteFile | src/main/java/com/evolveum/midpoint/integration/catalog/service/LogoStorageService.java:209-224 | a null or blank path changes nothing; otherwise that file is gone afterwards and every other file is kept unchanged |
| LogoStorage.LogoStorageService.constructor | src/main/java/com/evolveum/midpoint/integration/catalog/service/LogoStorageService.java:49-55 | the service holds the given settings and directory |
| LogoStorage.LogoStorageService.SaveLogo | src/main/java/com/evolveum/midpoint/integration/catalog/service/LogoStorageService.java:114-141 | a file that fails validation changes nothing and reports the error; otherwise the old file is deleted, the upload is stored under the new safe name, the four logo fields describe it, and it can be loaded back |
| LogoStorage.LogoStorageService.DeleteLogo | src/main/java/com/evolveum/midpoint/integration/catalog/service/LogoStorageService.java:149-166 | the referenced file is deleted, the four logo fields become null, and no logo exists under the old path |
| LogoStorage.LogoStorageService.LoadLogoBytes | src/main/java/com/evolveum/midpoint/integration/catalog/service/LogoStorageService.java:174-192 | null for a null or blank path or a missing file; otherwise exactly the stored bytes |
| LogoStorage.LogoStorageService.LogoExists | src/main/java/com/evolveum/midpoint/integration/catalog/service/LogoStorageService.java:249-254 | `logoExists` is false for a null or blank path and otherwise holds exactly when the file is on disk, that is exactly when `loadLogoBytes` returns bytes |
| LogoStorage.SafeFileName | src/main/java/com/evolveum/midpoint/integration/catalog/service/LogoStorageService.java:101-104 | the safe name is the UUID followed by the original extension, and nothing else |
| ApplicationMapper.MapAllTags | src/main/java/com/evolveum/midpoint/integration/catalog/mapper/ApplicationMapper.java:49-70 | null exactly for a null tag list; otherwise one transfer object per tag, in order, copying id, name and display name, with the type as its enum name or null |
| ApplicationMapper.TagTypeNameInjective | src/main/java/com/evolveum/midpoint/integration/catalog/mapper/ApplicationMapper.java:68 | two tag types have the same enum name only when they are the same type |
| ApplicationMapper.FilterTagsIsTypedSubset | src/main/java/com/evolveum/midpoint/integration/catalog/mapper/ApplicationMapper.java:34-56 | `filterTagsByType` is null exactly when the tag list is null, and otherwise keeps, in order, exactly those transfer objects of `mapAllTags` that carry the type's name |
| ApplicationMapper.MapOrigins | src/main/java/com/evolveum/midpoint/integration/catalog/mapper/ApplicationMapper.java:142-152 | null exactly for a null origin list; otherwise one transfer object per origin copying id, name and display name |
| ApplicationMapper.Clean | src/main/java/com/evolveum/midpoint/integration/catalog/mapper/ApplicationMapper.java:118 | no bracket or double quote is left |
| ApplicationMapper.ParseCapabilitiesJson | src/main/java/com/evolveum/midpoint/integration/catalog/mapper/ApplicationMapper.java:112-126 | null for null or empty text and exactly when nothing is left once the brackets and quotes go; otherwise parts that hold no comma, bracket or quote |
| ApplicationMapper.CleanAppend | src/main/java/com/evolveum/midpoint/integration/catalog/mapper/ApplicationMapper.java:118 | removing brackets and quotes distributes over concatenation |
| ApplicationMapper.CleanPlain | src/main/java/com/evolveum/midpoint/integration/catalog/mapper/ApplicationMapper.java:118 | text without brackets or quotes is kept unchanged |
| ApplicationMapper.CleanMarks | src/main/java/com/evolveum/midpoint/integration/catalog/mapper/ApplicationMapper.java:118 | a bracket or a quote on its own is removed |
| ApplicationMapper.CleanQuote | src/main/java/com/evolveum/midpoint/integration/catalog/mapper/ApplicationMapper.java:118 | a quoted plain word loses only its quotes |
| ApplicationMapper.CleanQuotedItems | src/main/java/com/evolveum/midpoint/integration/catalog/mapper/ApplicationMapper.java:118 | quoted, comma-separated words clean down to the words joined by commas |
| ApplicationMapper.ParseCompactArray | src/main/java/com/evolveum/midpoint/integration/catalog/mapper/ApplicationMapper.java:112-126 | a compact JSON array of plain words such as `["READ","CREATE"]` parses back to those words, and `[]` parses to null |
| ApplicationMapper.VersionsOf | src/main/java/com/evolveum/midpoint/integration/catalog/mapper/ApplicationMapper.java:83-103 | one transfer object per version of an implementation, in order, each built from that implementation and that version |
| ApplicationMapper.Flatten | src/main/java/com/evolveum/midpoint/integration/catalog/mapper/ApplicationMapper.java:81-104 | the flattened list has one transfer object per version over all implementations, a null version list counting none |
| ApplicationMapper.FlattenPosition | src/main/java/com/evolveum/midpoint/integration/catalog/mapper/ApplicationMapper.java:81-104 | version `k` of implementation `i` is at position (versions before `i`) + `k`: grouped by implementation, in order |
| ApplicationMapper.FlattenFirst | src/main/java/com/evolveum/midpoint/integration/catalog/mapper/ApplicationMapper.java:81-104 | the first implementation's versions open the flattened list |
| ApplicationMapper.FlattenLater | src/main/java/com/evolveum/midpoint/integration/catalog/mapper/ApplicationMapper.java:81-104 | a version of a later implementation sits after the first implementation's versions |
| ApplicationMapper.FlattenRestIndex | src/main/java/com/evolveum/midpoint/integration/catalog/mapper/ApplicationMapper.java:81-104 | the rest of the list follows the first implementation's versions |
| ApplicationMapper.TotalVersionsPrefix | src/main/java/com/evolveum/midpoint/integration/catalog/mapper/ApplicationMapper.java:81-104 | the versions before implementation `i` are those of the first one, then those before `i` in the rest |
| ApplicationMapper.ImplementationVersions | src/main/java/com/evolveum/midpoint/integration/catalog/mapper/ApplicationMapper.java:77-105 | null exactly for a null implementation list; otherwise one transfer object per version |
| ApplicationMapper.MapToApplicationDto | src/main/java/com/evolveum/midpoint/integration/catalog/mapper/ApplicationMapper.java:137-180 | the transfer object copies id, names, logo, the timestamps and the request arguments; the lifecycle state is the enum name or null; no risk level is set; origins, categories, tags and versions come from the mappings above |
| ApplicationMapper.TagToDto | src/main/java/com/evolveum/midpoint/integration/catalog/mapper/ApplicationMapper.java:63-70 | id, name and display name are copied; the type name is null exactly when the type is, and it names a type exactly when the tag has that type |
| ApplicationMapper.FilterTagsByType | src/main/java/com/evolveum/midpoint/integration/catalog/mapper/ApplicationMapper.java:34-42 | null exactly for a null tag list; otherwise no more objects than tags, each of the requested type, and every tag of that type among them |
| ApplicationMapper.VersionToDto | src/main/java/com/evolveum/midpoint/integration/catalog/mapper/ApplicationMapper.java:82-103 | description and connector version are copied, the link only with `withLink`, the tag list null exactly when the implementation has none and otherwise one name per tag, the lifecycle name naming exactly the version's state, and no parsed capability holds a comma |
| Controller.ImplementationVersions | src/main/java/com/evolveum/midpoint/integration/catalog/controller/Controller.java:369-387 | null exactly when the implementation list is null; otherwise one transfer object for each version of each implementation |
| Controller.VersionsWithoutLinks | src/main/java/com/evolveum/midpoint/integration/catalog/controller/Controller.java:369-387 | the controller's flattening is null exactly when the mapper's is, has the same length, and agrees with it version by version except that it never carries a download link |
| Controller.FlattenWithoutLinks | src/main/java/com/evolveum/midpoint/integration/catalog/controller/Controller.java:372-386 | over any implementation list, flattening without links equals flattening with links with every link cleared |
| Controller.GetApplication | src/main/java/com/evolveum/midpoint/integration/catalog/controller/Controller.java:60-115 | "not found" exactly when the lookup fails; otherwise no risk level, a lifecycle state exactly when the application has one, origins null exactly when the application's are, categories and tags as the tag mappings give them, and the link-free version list |
| Controller.DetailIsMapperView | src/main/java/com/evolveum/midpoint/integration/catalog/controller/Controller.java:60-115 | the detail returned for an application is the mapper's transfer object without a creation time and with the link-free version list |
| Controller.DownloadFilename | src/main/java/com/evolveum/midpoint/integration/catalog/controller/Controller.java:215 | null link gives the failure; otherwise a suffix of the link containing no slash that is either the whole link or directly preceded by a slash |
| Controller.DownloadFilenameCases | src/main/java/com/evolveum/midpoint/integration/catalog/controller/Controller.java:215 | a slash-free link is its own file name, and whatever precedes a final slash is cut away |
| ApplicationService.RecordAsWritten | src/main/java/com/evolveum/midpoint/integration/catalog/service/ApplicationService.java:299-311 | as written, the download is skipped exactly when a download of the same version, address and user agent is stored at precisely the cutoff; otherwise one download stamped now is appended |
| ApplicationService.RecordWindowed | src/main/java/com/evolveum/midpoint/integration/catalog/repository/DownloadsRepository.java:26-37 | the download is skipped exactly when the same client has a stored download later than the cutoff; otherwise one download stamped now is appended |
| ApplicationService.AsWrittenRecordsRepeat | src/main/java/com/evolveum/midpoint/integration/catalog/service/ApplicationService.java:299-311 | a client downloading again five seconds after a first download is recorded a second time, breaking the ten-second spacing |
| ApplicationService.WindowedKeepsSpacing | src/main/java/com/evolveum/midpoint/integration/catalog/service/ApplicationService.java:51 | with the cutoff at least the ten-second offset before now, the windowed check keeps every client's recorded downloads at least ten seconds apart |
| ApplicationService.WindowedSuppressesRepeat | src/main/java/com/evolveum/midpoint/integration/catalog/service/ApplicationService.java:352-353 | a client that downloaded within the last ten seconds is not recorded again |
| ApplicationService.CreateRequestOutcome | src/main/java/com/evolveum/midpoint/integration/catalog/service/ApplicationService.java:313-330 | a failing `createRequest` leaves the request table as it was; a successful one appends exactly the new request, which carries the next id and the application, and advances the id sequence |
| ApplicationService.CreateRequestSucceeds | src/main/java/com/evolveum/midpoint/integration/catalog/service/ApplicationService.java:313-330 | a request is created exactly when the application exists, the upper-cased type names a capability and the application has no request yet (the unique constraint of src/main/java/com/evolveum/midpoint/integration/catalog/object/Request.java:23); it carries that application, type and requester, has no votes and is appended |
| ApplicationService.CreateRequestIgnoresCase | src/main/java/com/evolveum/midpoint/integration/catalog/service/ApplicationService.java:319 | the capability type is matched without regard to case |
| ApplicationService.CreateRequestKeepsStore | src/main/java/com/evolveum/midpoint/integration/catalog/object/Request.java:23 | creating a request keeps one request per application and every identity below the next one |
| ApplicationService.ApplicationServiceState.constructor | src/main/java/com/evolveum/midpoint/integration/catalog/service/ApplicationService.java:86-109 | the service starts over the given applications and versions, with no requests and no downloads |
| ApplicationService.ApplicationServiceState.FailBuild | src/main/java/com/evolveum/midpoint/integration/catalog/service/ApplicationService.java:215-229 | an unknown version is not found; otherwise the version becomes WITH_ERROR with the message, then a null implementation or version list fails, and the application becomes WITH_ERROR exactly when this is the only version of its only implementation (a null application or implementation list then fails); the application keeps its lifecycle state in every other case, and only the version's state and message and the application's state may change |
| ApplicationService.ApplicationServiceState.SuccessBuild | src/main/java/com/evolveum/midpoint/integration/catalog/service/ApplicationService.java:200-213 | an unknown version is not found and a null implementation fails with the version unchanged; otherwise the bundle is set, and then a null publish time fails leaving the version's fields as they were, while a present one sets connector version, link and publish date and makes the version ACTIVE; only those fields and the implementation's bundle may change |
| ApplicationService.ApplicationServiceState.RecordDownloadIfNewAsWritten | src/main/java/com/evolveum/midpoint/integration/catalog/service/ApplicationService.java:299-311 | the download table becomes what the as-written rule gives |
| ApplicationService.ApplicationServiceState.RecordDownloadIfNew | src/main/java/com/evolveum/midpoint/integration/catalog/repository/DownloadsRepository.java:26-37 | the download table becomes what the windowed rule gives |
| ApplicationService.ApplicationServiceState.CreateRequest | src/main/java/com/evolveum/midpoint/integration/catalog/service/ApplicationService.java:313-330 | the result and the new request table are those of the request rule over the stored application ids |
| ApplicationService.ApplicationServiceState.LinkUpload | src/main/java/com/evolveum/midpoint/integration/catalog/service/ApplicationService.java:147-153 | an application with an unknown id is an error that links nothing; otherwise the application is the stored one (or the given one without an id), the implementation points to it and the version to the implementation |
| PendingRequests.CollabText | src/main/java/com/evolveum/midpoint/integration/catalog/service/PendingRequestService.java:50 | the stored flag is "yes" exactly for a present true and "no" for false or null |
| PendingRequests.CapabilitiesText | src/main/java/com/evolveum/midpoint/integration/catalog/service/PendingRequestService.java:41-43 | capabilities are stored, as the JSON writer renders them, exactly when the list is present and non-empty; otherwise the column stays null |
| PendingRequests.PendingRequest.constructor | src/main/java/com/evolveum/midpoint/integration/catalog/object/PendingRequest.java:22-51 | a new entity has every field null |
| PendingRequests.PendingRequestService.constructor | src/main/java/com/evolveum/midpoint/integration/catalog/repository/PendingRequestRepository.java:13 | the repository starts empty, the first identity being 1 |
| PendingRequests.PendingRequestService.SubmitRequest | src/main/java/com/evolveum/midpoint/integration/catalog/service/PendingRequestService.java:34-55 | a fresh row is appended with the next identity, every text field copied unchanged, the capabilities and the flag as the two rules above give them |
| PendingRequests.PendingRequestService.AllPendingRequests | src/main/java/com/evolveum/midpoint/integration/catalog/service/PendingRequestService.java:57-67 | one display row per stored request, in order, with its id, name and description, REQUESTED and pending |
| PendingRequests.PendingRequestService.Displays | src/main/java/com/evolveum/midpoint/integration/catalog/service/PendingRequestService.java:58-66 | each display row is built from the row at the same position |
| ApplicationDetailView.FilteredIsFilter | angular-frontend/src/app/components/application-detail/application-detail.ts:387-402 | the two narrowing steps, each skipped for an empty selection, keep in order exactly the versions that pass both tests |
| ApplicationDetailView.FilteredVersionsSpec | angular-frontend/src/app/components/application-detail/application-detail.ts:386-402 | a version survives the filter exactly when it is loaded and admitted (some capability selected when capabilities are selected, its truthy midPoint version selected when versions are selected); with no selection every version stays, in order |
| ApplicationDetailView.BucketMeaning | angular-frontend/src/app/components/application-detail/application-detail.ts:410-421 | a version lands in an active bucket exactly when its state is ACTIVE and in an Evolveum bucket exactly when its author, lower-cased, contains "evolveum"; a missing author is the community's |
| ApplicationDetailView.PlaceSpec | angular-frontend/src/app/components/application-detail/application-detail.ts:413-421 | pushing a version appends it to its own bucket and leaves the other three unchanged |
| ApplicationDetailView.GroupingAppend | angular-frontend/src/app/components/application-detail/application-detail.ts:409-422 | grouping one more version is pushing it onto the grouping of the rest |
| ApplicationDetailView.BucketAppend | angular-frontend/src/app/components/application-detail/application-detail.ts:409-422 | each bucket of a longer list is the bucket of the shorter one plus the new version when it belongs there |
| ApplicationDetailView.GroupingPartition | angular-frontend/src/app/components/application-detail/application-detail.ts:404-427 | the four buckets together hold exactly the grouped versions, as a multiset, and a version is in a bucket exactly when it was grouped and belongs there |
| ApplicationDetailView.OtherCount | angular-frontend/src/app/components/application-detail/application-detail.ts:250-252 | the two "other" buckets together count exactly the versions that are not active |
| ApplicationDetailView.CollapseWhitespace | angular-frontend/src/app/components/application-detail/application-detail.ts:77 | the replacement is no longer than the input and leaves no white space |
| ApplicationDetailView.CollapseKeeps | angular-frontend/src/app/components/application-detail/application-detail.ts:77 | a string without white space is unchanged |
| ApplicationDetailView.CollapseTwoWords | angular-frontend/src/app/components/application-detail/application-detail.ts:77 | two words around any run of white space become the words joined by one underscore |
| ApplicationDetailView.CollapseGap | angular-frontend/src/app/components/application-detail/application-detail.ts:77 | a run of white space before a word becomes one underscore |
| ApplicationDetailView.CollapseAfterWord | angular-frontend/src/app/components/application-detail/application-detail.ts:77 | a leading word is kept and the rest is replaced on its own |
| ApplicationDetailView.SkipWhitespace | angular-frontend/src/app/components/application-detail/application-detail.ts:77 | one match of the white-space pattern takes the whole run |
| ApplicationDetailView.FilterAiGeneratedTag | angular-frontend/src/app/components/application-detail/application-detail.ts:74-80 | null gives no tags; otherwise a tag is kept exactly when it does not normalise to ai_generated |
| ApplicationDetailView.AiGeneratedLabelDropped | angular-frontend/src/app/components/application-detail/application-detail.ts:74-80 | "AI", any run of white space and "Generated" normalise to ai_generated, so that label is dropped |
| ApplicationDetailView.FilterInstalledCapability | angular-frontend/src/app/components/application-detail/application-detail.ts:82-85 | null gives no capabilities; otherwise every capability except "Installed" is kept |
| ApplicationDetailView.NonInstalledIffFiltered | angular-frontend/src/app/components/application-detail/application-detail.ts:82-90 | there is a capability other than "Installed" exactly when the filter leaves something |
| ApplicationDetailView.FormatConnectorType | angular-frontend/src/app/components/application-detail/application-detail.ts:303-313 | null or empty gives Unknown; otherwise CONNID gives Java-based and SCIM_REST gives Low-code, in any letter case, and anything else is returned unchanged |
| ApplicationDetailView.ConnectorTypeIgnoresCase | angular-frontend/src/app/components/application-detail/application-detail.ts:306-311 | two spellings of a known framework that differ only in letter case format alike |
| ApplicationDetailView.FormatCapabilityText | angular-frontend/src/app/components/application-detail/application-detail.ts:292-301 | same length, no underscore left, the first character upper-cased and the rest lower-cased with underscores as spaces |
| ApplicationDetailView.FormatCapabilityTextIdempotent | angular-frontend/src/app/components/application-detail/application-detail.ts:292-301 | formatting an already formatted text changes nothing |
| ApplicationDetailView.ApplicationDetailPage.constructor | angular-frontend/src/app/components/application-detail/application-detail.ts:21-39 | nothing loaded, loading, no error, nothing expanded, four empty buckets, main tab, filter modal closed, empty filter, no dropdown, the capabilities section, no downloads; the buckets match the empty state |
| ApplicationDetailView.ApplicationDetailPage.GroupVersionsByLifecycleState | angular-frontend/src/app/components/application-detail/application-detail.ts:377-428 | null versions give four empty buckets; otherwise the buckets are the reference grouping of the filtered versions |
| ApplicationDetailView.ApplicationDetailPage.ApplyFilters | angular-frontend/src/app/components/application-detail/application-detail.ts:243-248 | with loaded versions the buckets are regrouped under the current filter; otherwise they are unchanged |
| ApplicationDetailView.ApplicationDetailPage.OnApplicationLoaded | angular-frontend/src/app/components/application-detail/application-detail.ts:351-357 | the application is stored, loading ends, and the buckets show its versions under the current filter |
| ApplicationDetailView.ApplicationDetailPage.OnApplicationLoadFailed | angular-frontend/src/app/components/application-detail/application-detail.ts:358-362 | the load error message is set and loading ends |
| ApplicationDetailView.ApplicationDetailPage.OnMissingId | angular-frontend/src/app/components/application-detail/application-detail.ts:47-56 | without an id in the route the error says so and loading ends |
| ApplicationDetailView.ApplicationDetailPage.OnDownloadsCount | angular-frontend/src/app/components/application-detail/application-detail.ts:366-370 | the downloads count is the one received |
| ApplicationDetailView.ApplicationDetailPage.ToggleCapabilities | angular-frontend/src/app/components/application-detail/application-detail.ts:62-68 | the index's membership among the expanded versions flips and no other index changes |
| ApplicationDetailView.ApplicationDetailPage.SetActiveTab | angular-frontend/src/app/components/application-detail/application-detail.ts:92-94 | the active tab is the one given |
| ApplicationDetailView.ApplicationDetailPage.ToggleFilterModal | angular-frontend/src/app/components/application-detail/application-detail.ts:96-98 | the filter modal's open flag flips |
| ApplicationDetailView.ApplicationDetailPage.SelectFilterSection | angular-frontend/src/app/components/application-detail/application-detail.ts:100-102 | the selected section is the one given |
| ApplicationDetailView.ApplicationDetailPage.ToggleDropdown | angular-frontend/src/app/components/application-detail/application-detail.ts:104-120 | the same dropdown closes, any other opens |
| ApplicationDetailView.ApplicationDetailPage.CloseDropdown | angular-frontend/src/app/components/application-detail/application-detail.ts:122-125 | no dropdown is open |
| ApplicationDetailView.ApplicationDetailPage.ResetFilters | angular-frontend/src/app/components/application-detail/application-detail.ts:127-133 | both selections are empty and the buckets match |
| ApplicationDetailView.ApplicationDetailPage.ClearCapabilitiesFilter | angular-frontend/src/app/components/application-detail/application-detail.ts:135-139 | the capability selection is empty, the version selection kept, the dropdown closed and the buckets match |
| ApplicationDetailView.ApplicationDetailPage.ClearVersionsFilter | angular-frontend/src/app/components/application-detail/application-detail.ts:141-145 | the version selection is empty, the capability selection kept, the dropdown closed and the buckets match |
| ApplicationDetailView.ApplicationDetailPage.ToggleCapabilityFilter | angular-frontend/src/app/components/application-detail/application-detail.ts:147-161 | a selected capability is removed entirely, an unselected one appended; the buckets match |
| ApplicationDetailView.ApplicationDetailPage.ToggleMidpointVersionFilter | angular-frontend/src/app/components/application-detail/application-detail.ts:163-177 | a selected version is removed entirely, an unselected one appended; the buckets match |
| ApplicationDetailView.ApplicationDetailPage.RemoveCapabilityFilter | angular-frontend/src/app/components/application-detail/application-detail.ts:179-185 | every copy of the capability leaves the selection; the buckets match |
| ApplicationDetailView.ApplicationDetailPage.RemoveMidpointVersionFilter | angular-frontend/src/app/components/application-detail/application-detail.ts:187-193 | every copy of the version leaves the selection; the buckets match |
| ApplicationDetailView.ApplicationDetailPage.GetTotalVersionsCount | angular-frontend/src/app/components/application-detail/application-detail.ts:250-252 | the number of loaded versions that pass the filter and are not active, or zero with nothing loaded |
| ApplicationDetailView.GroupFiltered | angular-frontend/src/app/components/application-detail/application-detail.ts:404-422 | the loop's four arrays are the reference grouping of the filtered versions |
| ApplicationDetailView.FilteredVersions | angular-frontend/src/app/components/application-detail/application-detail.ts:386-402 | no more versions than loaded, each loaded and admitted by both steps, and every version when both selections are empty |
| ApplicationDetailView.NormalizeTag | angular-frontend/src/app/components/application-detail/application-detail.ts:74-80 | the normal form is no longer than the tag and holds no white space |
| ApplicationDetailView.HasNonInstalledCapabilities | angular-frontend/src/app/components/application-detail/application-detail.ts:87-90 | false for null or an empty list, and true when the first capability is not `Installed` |
| ApplicationDetailView.ApplicationDetailPage.IsExpanded | angular-frontend/src/app/components/application-detail/application-detail.ts:70-72 | an index is expanded only when it is in the expanded set, so nothing is while the set is empty |
| ApplicationDetailView.ApplicationDetailPage.IsCapabilitySelected | angular-frontend/src/app/components/application-detail/application-detail.ts:230-232 | a capability is selected exactly when a version offering only it passes the capability step, and then the capability selection is non-empty |
| ApplicationDetailView.ApplicationDetailPage.IsMidpointVersionSelected | angular-frontend/src/app/components/application-detail/application-detail.ts:234-236 | a non-empty midPoint version is selected exactly when a version of it passes the version step; a selected version makes the version selection non-empty |
| ApplicationDetailView.ApplicationDetailPage.HasActiveFilters | angular-frontend/src/app/components/application-detail/application-detail.ts:238-241 | without an active filter every version list passes unchanged; with one, a version with neither capabilities nor a midPoint version is dropped |
| Catalog.WithSelection | angular-frontend/src/app/components/applications-list/applications-list.ts:323-345 | the spread update replaces exactly one selection and keeps the trending switch and every other selection |
| Catalog.CategoryTags | angular-frontend/src/app/components/applications-list/applications-list.ts:488-495 | every tag collected over the records' categories and tags is typed CATEGORY or DEPLOYMENT |
| Catalog.AllVersionsMembers | angular-frontend/src/app/components/applications-list/applications-list.ts:518-526 | a version is collected exactly when some record lists it |
| Catalog.TagNamesAppend | angular-frontend/src/app/components/applications-list/applications-list.ts:492 | one more tag adds its name at the end, and a new distinct name only when it was not seen |
| Catalog.FilterStep | angular-frontend/src/app/components/applications-list/applications-list.ts:490-494 | the inner loop over one more tag extends the collected category tags exactly when that tag is a category tag |
| Catalog.CategoryTagsStep | angular-frontend/src/app/components/applications-list/applications-list.ts:488-495 | the outer loop over one more record appends that record's category tags |
| Catalog.CollectVersions | angular-frontend/src/app/components/filter-modal/filter-modal.ts:246-251 | the loop over the records yields every listed version once, in first-insertion order (as a Set iterates) |
| Catalog.AddVersions | angular-frontend/src/app/components/applications-list/applications-list.ts:522 | adding a record's versions to the Set is the set of the versions seen so far followed by the new ones |
| Catalog.SortedVersionsSpec | angular-frontend/src/app/components/filter-modal/filter-modal.ts:252 | the version list has no duplicates, is sorted, and holds exactly the versions some record lists |
| Catalog.Capitalize | angular-frontend/src/app/components/filter-modal/filter-modal.ts:192 | the word keeps its length and first character and the rest is lower-cased |
| Catalog.FormatCapabilityWords | angular-frontend/src/app/components/filter-modal/filter-modal.ts:189-194 | words joined by underscores are shown as the capitalised words joined by single spaces |
| Catalog.FormatCapability | angular-frontend/src/app/components/filter-modal/filter-modal.ts:189-194 | the shown text has the capability's length and no underscore left |
| ApplicationsList.KeepAfterFilter | angular-frontend/src/app/components/applications-list/applications-list.ts:116-165 | a switched-off step keeps everything and a switched-on one narrows by its test, so one more step is one filter by the combined test |
| ApplicationsList.NarrowIsFilter | angular-frontend/src/app/components/applications-list/applications-list.ts:116-165 | the chain of filters keeps, in fetched order, exactly the records that pass every switched-on test |
| ApplicationsList.NarrowIsChain | angular-frontend/src/app/components/applications-list/applications-list.ts:116-165 | the chain equals one filter by the seven tests combined one after the other |
| ApplicationsList.MatchChain | angular-frontend/src/app/components/applications-list/applications-list.ts:116-165 | the seven chained tests together accept exactly the records the reference predicate accepts |
| ApplicationsList.Step | angular-frontend/src/app/components/applications-list/applications-list.ts:116-165 | one more step of the chain over already filtered records is a filter of the originals by the combined test |
| ApplicationsList.ListedIff | angular-frontend/src/app/components/applications-list/applications-list.ts:116-165 | a record is listed exactly when it was fetched and passes every switched-on test (tab, query, trending, categories, capabilities, status, versions); with nothing switched on every record is listed |
| ApplicationsList.AbsentNeverMatches | angular-frontend/src/app/components/applications-list/applications-list.ts:117-165 | a record missing the collection that a switched-on test looks at (capabilities, versions, state, tags or categories) is never listed |
| ApplicationsList.SearchIgnoresCase | angular-frontend/src/app/components/applications-list/applications-list.ts:111-128 | search is a substring test of the lower-cased display name against the lower-cased, trimmed query, and a record's letter case does not change it |
| ApplicationsList.BlankQueryFiltersNothing | angular-frontend/src/app/components/applications-list/applications-list.ts:111-128 | a query of white space only normalises to nothing, so it filters nothing |
| ApplicationsList.SortAppsSpec | angular-frontend/src/app/components/applications-list/applications-list.ts:167-183 | each sort is a permutation ordered by its key, and records with equal keys keep their filtered order |
| ApplicationsList.PopularFirst | angular-frontend/src/app/components/applications-list/applications-list.ts:172-176 | by popularity every popular record precedes every other one, and each group keeps its filtered order |
| ApplicationsList.ActiveFirst | angular-frontend/src/app/components/applications-list/applications-list.ts:177-182 | by activity every ACTIVE record precedes every other one, and each group keeps its filtered order |
| ApplicationsList.PageBounds | angular-frontend/src/app/components/applications-list/applications-list.ts:185-187 | a page holds at most twelve records of the list; from page 0 on it is the slice from page*12 to page*12+12, clamped, and it is empty exactly from the end of the list on |
| ApplicationsList.PageOfListed | angular-frontend/src/app/components/applications-list/applications-list.ts:185-187 | a page of the sorted records holds at most twelve, each of them listed |
| ApplicationsList.PageCount | angular-frontend/src/app/components/applications-list/applications-list.ts:253-255 | the page count is the least number of twelve-record pages covering the count, and zero exactly for zero records |
| ApplicationsList.PagesCoverList | angular-frontend/src/app/components/applications-list/applications-list.ts:185-187 | every listed record appears, at its position, on one of the pages 0 to totalPages-1 |
| ApplicationsList.LastDisplayNameIsLast | angular-frontend/src/app/components/applications-list/applications-list.ts:492 | the display name kept for a name is the one of its last occurrence, since the map's set overwrites |
| ApplicationsList.AvailableCategoriesSpec | angular-frontend/src/app/components/applications-list/applications-list.ts:485-500 | the available categories are sorted by display name, name each category tag exactly once, and show the display name of its last occurrence |
| ApplicationsList.EntriesSpec | angular-frontend/src/app/components/applications-list/applications-list.ts:497 | before sorting there is one entry per distinct name, carrying its last display name |
| ApplicationsList.SortedEntries | angular-frontend/src/app/components/applications-list/applications-list.ts:497-499 | sorting keeps the entries, their distinct names and their display names |
| ApplicationsList.IndexTag | angular-frontend/src/app/components/applications-list/applications-list.ts:491-493 | setting a category tag in the map keeps the key order (a new key at the end) and the last display names |
| ApplicationsList.IndexTags | angular-frontend/src/app/components/applications-list/applications-list.ts:490-494 | the inner loop enters exactly the record's category tags into the map, keeping the loop state |
| ApplicationsList.IndexedEntries | angular-frontend/src/app/components/applications-list/applications-list.ts:497 | reading the finished map back gives one entry per key in insertion order with its last display name |
| ApplicationsList.RecordTag | angular-frontend/src/app/components/applications-list/applications-list.ts:492 | one more tag extends the key order by its name when new, and sets its name's display name |
| ApplicationsList.FormatLifecycleState | angular-frontend/src/app/components/applications-list/applications-list.ts:715-730 | empty or null gives ""; REQUESTED, ACTIVE, WITH_ERROR and IN_PUBLISH_PROCESS get their labels; any other state is returned unchanged |
| ApplicationsList.ListToggle | angular-frontend/src/app/components/applications-list/applications-list.ts:379-429 | toggling puts the value in exactly when it was absent and leaves every other value's membership as it was |
| ApplicationsList.ListToggleTwice | angular-frontend/src/app/components/applications-list/applications-list.ts:379-429 | toggling keeps a duplicate-free selection duplicate-free, and toggling an absent value twice restores the selection |
| ApplicationsList.NarrowApps | angular-frontend/src/app/components/applications-list/applications-list.ts:114-165 | the reassignments of the chain yield exactly the records that pass every switched-on test |
| ApplicationsList.ListState.constructor | angular-frontend/src/app/components/applications-list/applications-list.ts:32-87 | no records, no query, the all tab, no filter, the first page, alphabetical order, no open dropdown |
| ApplicationsList.ListState.FeaturedApplications | angular-frontend/src/app/components/applications-list/applications-list.ts:91-108 | every record, in order, when no query, the all tab and no filter; otherwise none |
| ApplicationsList.ListState.FilteredCount | angular-frontend/src/app/components/applications-list/applications-list.ts:194-251 | the number of listed records before sorting and slicing |
| ApplicationsList.ListState.TotalPages | angular-frontend/src/app/components/applications-list/applications-list.ts:253-255 | enough twelve-record pages for the listed records, and zero exactly when none is listed |
| ApplicationsList.ListState.MoreApplications | angular-frontend/src/app/components/applications-list/applications-list.ts:110-188 | the current page of twelve of the sorted listed records: at most twelve, each of them listed |
| ApplicationsList.ListState.OnSearchChange | angular-frontend/src/app/components/applications-list/applications-list.ts:276-280 | the query is the input's value, the first page is shown, and nothing else changes |
| ApplicationsList.ListState.ResetFilter | angular-frontend/src/app/components/applications-list/applications-list.ts:282-292 | no query, no filter and the first page; records, tab, sort and dropdown stay |
| ApplicationsList.ListState.CloseDropdown | angular-frontend/src/app/components/applications-list/applications-list.ts:312-315 | no dropdown is open |
| ApplicationsList.ListState.ToggleDropdown | angular-frontend/src/app/components/applications-list/applications-list.ts:294-310 | the same dropdown closes, any other opens |
| ApplicationsList.ListState.ClearTrendingFilter | angular-frontend/src/app/components/applications-list/applications-list.ts:317-321 | trending off, the first page, the dropdown closed; nothing else changes |
| ApplicationsList.ListState.ClearFilter | angular-frontend/src/app/components/applications-list/applications-list.ts:323-345 | the chosen selection is empty, the first page, the dropdown closed; every other selection and field stays |
| ApplicationsList.ListState.RemoveFilter | angular-frontend/src/app/components/applications-list/applications-list.ts:347-377 | every copy of the value leaves the chosen selection, the first page; everything else stays |
| ApplicationsList.ListState.ToggleInFilter | angular-frontend/src/app/components/applications-list/applications-list.ts:379-429 | the chosen selection is toggled for the value, the first page; everything else stays |
| ApplicationsList.ListState.AllAvailableCategories | angular-frontend/src/app/components/applications-list/applications-list.ts:485-500 | the nested loops and the sort yield the reference list of available categories |
| ApplicationsList.ListState.AllMidpointVersions | angular-frontend/src/app/components/applications-list/applications-list.ts:518-526 | every version some record lists, once each, sorted |
| ApplicationsList.ListState.OnSortChange | angular-frontend/src/app/components/applications-list/applications-list.ts:528-532 | the chosen order, the first page; nothing else changes |
| ApplicationsList.ListState.SetActiveTab | angular-frontend/src/app/components/applications-list/applications-list.ts:538-541 | the chosen tab, the first page; nothing else changes |
| ApplicationsList.ListState.ApplyFilter | angular-frontend/src/app/components/applications-list/applications-list.ts:671-674 | the dialog's filter state replaces the list's, the first page; nothing else changes |
| ApplicationsList.ListState.NextPage | angular-frontend/src/app/components/applications-list/applications-list.ts:553-557 | one page on only while not on the last page, so the page stays in range |
| ApplicationsList.ListState.PreviousPage | angular-frontend/src/app/components/applications-list/applications-list.ts:559-563 | one page back only while not on the first page, so the page stays in range |
| ApplicationsList.ListState.GoToPage | angular-frontend/src/app/components/applications-list/applications-list.ts:565-567 | the page is the argument, unchecked |
| ApplicationsList.Narrow | angular-frontend/src/app/components/applications-list/applications-list.ts:116-165 | the chain never adds records, keeps only fetched ones, and with every test switched off keeps them all in order |
| ApplicationsList.SortApps | angular-frontend/src/app/components/applications-list/applications-list.ts:167-183 | the sort is a permutation of the records ordered by the option's key |
| ApplicationsList.Page | angular-frontend/src/app/components/applications-list/applications-list.ts:185-187 | a page holds at most twelve of the records, and none from the end of the list on |
| ApplicationsList.AvailableCategories | angular-frontend/src/app/components/applications-list/applications-list.ts:485-500 | the map's entries, all of them and only they, sorted by display name |
| FilterDialog.SetToggle | angular-frontend/src/app/components/filter-modal/filter-modal.ts:119-127 | toggling a Set keeps it duplicate-free, puts the value in exactly when it was absent, and keeps every other value's membership |
| FilterDialog.SetToggleTwice | angular-frontend/src/app/components/filter-modal/filter-modal.ts:119-187 | toggling twice restores the Set's members, and restores it exactly when the value was absent |
| FilterDialog.SyncedRoundTrip | angular-frontend/src/app/components/filter-modal/filter-modal.ts:196-205 | a state without duplicate values comes back from the dialog's sync and snapshot unchanged |
| FilterDialog.OccurrencesCount | angular-frontend/src/app/components/filter-modal/filter-modal.ts:220-222 | a name's count is its multiplicity among the counted tags' names |
| FilterDialog.FirstDisplayNameIsFirst | angular-frontend/src/app/components/filter-modal/filter-modal.ts:220-228 | the display name kept for a name is that of its first occurrence; later ones only raise the count |
| FilterDialog.CountsFor | angular-frontend/src/app/components/filter-modal/filter-modal.ts:233 | one row per given name, in order, with its first display name and its count |
| FilterDialog.TotalAppend | angular-frontend/src/app/components/filter-modal/filter-modal.ts:222-227 | one more row raises the total by its count |
| FilterDialog.TotalStep | angular-frontend/src/app/components/filter-modal/filter-modal.ts:222-227 | one more tag raises the total over distinct names by one exactly when its name is among them |
| FilterDialog.OccurrencesAbsent | angular-frontend/src/app/components/filter-modal/filter-modal.ts:224-228 | a name no tag carries has no occurrences, so a new row starts at one |
| FilterDialog.CountsSum | angular-frontend/src/app/components/filter-modal/filter-modal.ts:214-233 | the counts add up to the number of counted tags |
| FilterDialog.CategoryCountsSpec | angular-frontend/src/app/components/filter-modal/filter-modal.ts:210-240 | the rows name each category tag exactly once, in first-occurrence order, count its occurrences, keep its first display name, and sum to the number of category tags |
| FilterDialog.CountsNames | angular-frontend/src/app/components/filter-modal/filter-modal.ts:220-233 | one row per distinct name, and a row for every counted tag's name |
| FilterDialog.CountsValues | angular-frontend/src/app/components/filter-modal/filter-modal.ts:220-233 | each row's count is the multiplicity of its name and its display name the first one |
| FilterDialog.CountTag | angular-frontend/src/app/components/filter-modal/filter-modal.ts:219-230 | incrementing an existing row or inserting a new one keeps the loop state |
| FilterDialog.CountTagEntry | angular-frontend/src/app/components/filter-modal/filter-modal.ts:219-230 | after one more tag, each row holds its name's first display name and its occurrence count |
| FilterDialog.OneMoreTag | angular-frontend/src/app/components/filter-modal/filter-modal.ts:220-228 | one more tag leaves a first display name that already exists and raises only its own name's count |
| FilterDialog.CountedRows | angular-frontend/src/app/components/filter-modal/filter-modal.ts:233 | reading back the finished map gives one row per key in insertion order, equal to the reference rows |
| FilterDialog.CountTags | angular-frontend/src/app/components/filter-modal/filter-modal.ts:218-231 | the inner loop counts exactly the record's category tags, keeping the loop state |
| FilterDialog.SyncThenSnapshot | angular-frontend/src/app/components/filter-modal/filter-modal.ts:95-103 | after the sync each selection is duplicate-free and holds exactly the values of the incoming list; a duplicate-free state comes back unchanged |
| FilterDialog.FilterModal.constructor | angular-frontend/src/app/components/filter-modal/filter-modal.ts:35-55 | no filter, trending off, the trending section, empty selections, no data and no events |
| FilterDialog.FilterModal.Snapshot | angular-frontend/src/app/components/filter-modal/filter-modal.ts:196-205 | the snapshot carries the trending switch and each Set's values in insertion order |
| FilterDialog.FilterModal.SetCurrentFilterState | angular-frontend/src/app/components/filter-modal/filter-modal.ts:95-103 | after the effect the input is the new state and each Set holds exactly the elements of the corresponding list, once each |
| FilterDialog.FilterModal.SelectSection | angular-frontend/src/app/components/filter-modal/filter-modal.ts:111-113 | the selected section is the one given |
| FilterDialog.FilterModal.ToggleTrending | angular-frontend/src/app/components/filter-modal/filter-modal.ts:115-117 | trending flips |
| FilterDialog.FilterModal.Toggle | angular-frontend/src/app/components/filter-modal/filter-modal.ts:119-187 | the chosen Set is toggled for the value and every other Set, the switch, the input, the data and the events stay |
| FilterDialog.FilterModal.CloseModal | angular-frontend/src/app/components/filter-modal/filter-modal.ts:196-208 | the current selections are emitted, then the close |
| FilterDialog.FilterModal.LoadCategories | angular-frontend/src/app/components/filter-modal/filter-modal.ts:210-240 | the category rows are the reference counts of the records' category tags |
| FilterDialog.FilterModal.LoadMidpointVersions | angular-frontend/src/app/components/filter-modal/filter-modal.ts:242-259 | the version list is every version some record lists, once each, sorted |
| FilterDialog.Synced | angular-frontend/src/app/components/filter-modal/filter-modal.ts:95-103 | the switch is copied and each selection becomes a duplicate-free list holding the same values |
| FilterDialog.Occurrences | angular-frontend/src/app/components/filter-modal/filter-modal.ts:220-222 | a count never exceeds the number of tags and is zero exactly when no tag has the name |
| FilterDialog.FirstDisplayName | angular-frontend/src/app/components/filter-modal/filter-modal.ts:220-228 | a name no tag carries has no display name |
| FilterDialog.CategoryCounts | angular-frontend/src/app/components/filter-modal/filter-modal.ts:210-233 | one row per distinct name, each with a count of at least one equal to the name's occurrences, and a row for every counted tag's name |
| UploadImplementation.IsValid | angular-frontend/src/app/components/upload-form-impl/upload-form-impl.ts:95-108 | a new implementation is valid exactly when display name, license type, description and build framework are non-blank after trimming; a new version exactly when an implementation is chosen; an undecided mode never |
| UploadImplementation.OptionalFieldsIgnored | angular-frontend/src/app/components/upload-form-impl/upload-form-impl.ts:98-108 | the maintainer, the three links and the project path never decide validity |
| UploadImplementation.ValidityByMode | angular-frontend/src/app/components/upload-form-impl/upload-form-impl.ts:98-108 | a new version's validity ignores the new-implementation fields, and a new implementation's ignores the chosen implementation |
| UploadImplementation.UploadFormImpl.constructor | angular-frontend/src/app/components/upload-form-impl/upload-form-impl.ts:35-49 | new version preselected, nothing chosen, every field empty, nothing emitted; the form is not valid |
| UploadImplementation.UploadFormImpl.UpdateFormValidity | angular-frontend/src/app/components/upload-form-impl/upload-form-impl.ts:95-128 | the current data is emitted, then the verdict |
| UploadImplementation.UploadFormImpl.SelectNewVersion | angular-frontend/src/app/components/upload-form-impl/upload-form-impl.ts:79-82 | the mode is new version, any choice stays, the data and the verdict are emitted, and the form is valid exactly when an implementation is chosen |
| UploadImplementation.UploadFormImpl.SelectNewImplementation | angular-frontend/src/app/components/upload-form-impl/upload-form-impl.ts:84-88 | the mode is new implementation, the choice is dropped, the data and the verdict are emitted |
| UploadImplementation.UploadFormImpl.SelectImplementation | angular-frontend/src/app/components/upload-form-impl/upload-form-impl.ts:90-93 | the implementation is chosen, the data and the verdict are emitted, and in new-version mode the form is then valid |
| UploadImplementation.UploadFormImpl.OnFieldChange | angular-frontend/src/app/components/upload-form-impl/upload-form-impl.ts:130-132 | the fields as the template wrote them, then the data and the verdict are emitted |
| UploadWizard.FilteredApplicationsSpec | angular-frontend/src/app/components/upload-form-main/upload-form-main.ts:34-47 | a blank query lists nothing; otherwise a record is listed exactly when it is ACTIVE and its lower-cased display name or description contains the lower-cased, trimmed query |
| UploadWizard.DeploymentTags | angular-frontend/src/app/components/upload-form-main/upload-form-main.ts:98 | only DEPLOYMENT tags of the record's own tags are taken, a missing list giving none |
| UploadWizard.DeploymentValue | angular-frontend/src/app/components/upload-form-main/upload-form-main.ts:118 | the selector value keeps the name's length and holds no underscore |
| UploadWizard.DeploymentOptions | angular-frontend/src/app/components/upload-form-main/upload-form-main.ts:85-124 | no record or no deployment tag offers all three options; two tags offer only Both; otherwise the first tag's value and label, then Both |
| UploadWizard.DefaultDeploymentOffered | angular-frontend/src/app/components/upload-form-main/upload-form-main.ts:85-182 | Both is always offered, and with at most two deployment tags the preselected deployment type is among the options offered |
| UploadWizard.DefaultNotOfferedForThreeTags | angular-frontend/src/app/components/upload-form-main/upload-form-main.ts:101-182 | with three deployment tags the preselected on-premise is not among the options offered |
| UploadWizard.CanSubmitIff | angular-frontend/src/app/components/upload-form-main/upload-form-main.ts:244-248 | the form can be submitted exactly when the display name and the description each hold a character that is not white space and a category is chosen |
| UploadWizard.OriginNames | angular-frontend/src/app/components/upload-form-main/upload-form-main.ts:159 | one display name per origin, in order |
| UploadWizard.UploadFormMain.constructor | angular-frontend/src/app/components/upload-form-main/upload-form-main.ts:18-32 | the first step, the Evolveum-hosted type, no query, no record, no details and no dropdown; nothing emitted |
| UploadWizard.UploadFormMain.CloseModal | angular-frontend/src/app/components/upload-form-main/upload-form-main.ts:130-133 | the close is emitted and the whole form is back in its initial state |
| UploadWizard.UploadFormMain.NextStep | angular-frontend/src/app/components/upload-form-main/upload-form-main.ts:135-139 | one step on, never past the third |
| UploadWizard.UploadFormMain.PreviousStep | angular-frontend/src/app/components/upload-form-main/upload-form-main.ts:185-189 | one step back, never before the first |
| UploadWizard.UploadFormMain.EnterDefineNewMode | angular-frontend/src/app/components/upload-form-main/upload-form-main.ts:141-146 | define-new mode, no record, the details form open and its fields cleared |
| UploadWizard.UploadFormMain.PopulateApplicationDetails | angular-frontend/src/app/components/upload-form-main/upload-form-main.ts:148-183 | without a record nothing changes; otherwise the record's name and description, its origins (also as the loaded ones) when it has a list, its first category when it has one, and the preselected deployment type |
| UploadWizard.UploadFormMain.SelectConnectorType | angular-frontend/src/app/components/upload-form-main/upload-form-main.ts:191-193 | the connector type is the one given |
| UploadWizard.UploadFormMain.OnSearchChange | angular-frontend/src/app/components/upload-form-main/upload-form-main.ts:195-198 | the query is the input's value |
| UploadWizard.UploadFormMain.ClearSearch | angular-frontend/src/app/components/upload-form-main/upload-form-main.ts:200-202 | the query is empty and so nothing is listed |
| UploadWizard.UploadFormMain.SelectApplication | angular-frontend/src/app/components/upload-form-main/upload-form-main.ts:204-209 | the record chosen, the query cleared, define-new mode and the details form closed; one can continue |
| UploadWizard.UploadFormMain.ContinueWithSelectedApp | angular-frontend/src/app/components/upload-form-main/upload-form-main.ts:211-215 | the details form opens with the record's name and description, its origins (then also the undismissable ones) when it has any, its first category when it has one, and the preselected deployment type; one can no longer continue; with no record chosen only the form opens and the details stay as they were |
| UploadWizard.UploadFormMain.RemoveSelectedApplication | angular-frontend/src/app/components/upload-form-main/upload-form-main.ts:217-223 | no record, define-new mode and the details form closed, the details cleared; one cannot continue |
| UploadWizard.UploadFormMain.ClearApplicationDetailsFields | angular-frontend/src/app/components/upload-form-main/upload-form-main.ts:225-234 | name, description, logo, origins, loaded origins and category empty, on-premise, the origin dropdown closed |
| UploadWizard.UploadFormMain.OnLogoUpload | angular-frontend/src/app/components/upload-form-main/upload-form-main.ts:250-255 | the first chosen file, if any; otherwise the logo stays |
| UploadWizard.UploadFormMain.ToggleOriginDropdown | angular-frontend/src/app/components/upload-form-main/upload-form-main.ts:257-259 | the origin dropdown's open flag flips |
| UploadWizard.UploadFormMain.AddOriginFromDropdown | angular-frontend/src/app/components/upload-form-main/upload-form-main.ts:261-265 | a non-empty country not chosen yet is appended; the list stays duplicate-free and then holds the country |
| UploadWizard.UploadFormMain.RemoveOrigin | angular-frontend/src/app/components/upload-form-main/upload-form-main.ts:267-269 | every copy of the origin leaves the list and every other origin stays |
| UploadWizard.UploadFormMain.OnDescriptionChange | angular-frontend/src/app/components/upload-form-main/upload-form-main.ts:276-281 | a text of at most 350 UTF-16 code units replaces the description; a longer one is refused, so the cap is kept |
| UploadWizard.UploadFormMain.ResetForm | angular-frontend/src/app/components/upload-form-main/upload-form-main.ts:283-298 | the form is back in its initial state |
| UploadWizard.RemoveOriginSpec | angular-frontend/src/app/components/upload-form-main/upload-form-main.ts:267-269 | removal drops the origin, keeps every other one, and keeps the list duplicate-free |
| UploadWizard.FilteredApplications | angular-frontend/src/app/components/upload-form-main/upload-form-main.ts:38-47 | nothing for a blank query; otherwise no more records than loaded, each loaded, ACTIVE and mentioning the query |
| UploadWizard.DefaultDeploymentType | angular-frontend/src/app/components/upload-form-main/upload-form-main.ts:171-182 | the preselection holds no underscore; it is `both` or `on-premise` unless there is exactly one deployment tag, and `both` exactly for two tags or a single tag whose value is `both` |
| UploadWizard.CanSubmit | angular-frontend/src/app/components/upload-form-main/upload-form-main.ts:244-248 | submitting needs a non-empty display name, a non-empty description and a category |
| UploadWizard.UploadFormMain.CanContinueWithSelection | angular-frontend/src/app/components/upload-form-main/upload-form-main.ts:240-242 | one can continue only with a record chosen, and never while the details form is open |
| UploadWizard.UploadFormMain.CanSubmitForm | angular-frontend/src/app/components/upload-form-main/upload-form-main.ts:244-248 | the form can be submitted exactly when the display name and the description each hold a character that is not white space and a category is chosen |
| UploadWizard.UploadFormMain.IsOriginDismissible | angular-frontend/src/app/components/upload-form-main/upload-form-main.ts:271-274 | an origin can be removed exactly when the selected record did not bring it, so every origin can when the record brought none |
| Homepage.RequestParams | angular-frontend/src/app/features/homepage/homepage.component.ts:38-39 | the request keeps the page and size, always sorts by `name,asc`, and carries `q` exactly when the query is non-empty, and then unchanged |
| Homepage.Content | angular-frontend/src/app/features/homepage/homepage.component.ts:43 | no body shows no cards; a bare array is shown as is; a page object shows its `content`, or the object itself when it has none |
| Homepage.TotalPages | angular-frontend/src/app/features/homepage/homepage.component.ts:45 | the page count is the response's `totalPages` when it has one, and 1 otherwise |
| Homepage.ErrorText | angular-frontend/src/app/features/homepage/homepage.component.ts:49 | the shown error is the error's message when it has one, else its string form |
| Homepage.ContentOfPage | angular-frontend/src/app/features/homepage/homepage.component.ts:43-45 | a page object with cards is displayed like the bare array of the same cards; a response without `totalPages` counts as one page |
| Homepage.HomeComponent.constructor | angular-frontend/src/app/features/homepage/homepage.component.ts:21-29 | starts on page 0 with page size 12, no cards, no error, not loading and no query |
| Homepage.HomeComponent.LoadApps | angular-frontend/src/app/features/homepage/homepage.component.ts:35-41 | marks loading, clears the error and sends exactly one request built from the current page, size and query |
| Homepage.HomeComponent.NgOnInit | angular-frontend/src/app/features/homepage/homepage.component.ts:31-33 | the first load sends one request for the current page |
| Homepage.HomeComponent.OnResponse | angular-frontend/src/app/features/homepage/homepage.component.ts:42-47 | the listing and page count become those the response yields, and loading ends |
| Homepage.HomeComponent.OnError | angular-frontend/src/app/features/homepage/homepage.component.ts:48-51 | the error text is shown and loading ends |
| Homepage.HomeComponent.Search | angular-frontend/src/app/features/homepage/homepage.component.ts:55-58 | a search goes back to page 0 and sends one request for it |
| Homepage.HomeComponent.Next | angular-frontend/src/app/features/homepage/homepage.component.ts:60-65 | moves one page on and reloads only while a further page exists; otherwise nothing changes; the page never goes negative |
| Homepage.HomeComponent.Prev | angular-frontend/src/app/features/homepage/homepage.component.ts:67-72 | moves one page back and reloads only when past the first page; otherwise nothing changes; the page never goes negative |
| Homepage.HomeComponent.OnSearchInput | angular-frontend/src/app/features/homepage/homepage.component.ts:79-82 | the query becomes the typed value |
| Auth.AcceptedCredentials | angular-frontend/src/app/services/auth.service.ts:13-31 | exactly `u1`…`u5` are accepted, each with its own name as password |
| Auth.RestoredUser | angular-frontend/src/app/services/auth.service.ts:15-21 | a stored user is adopted at start-up exactly when it is one of the known users, and then unchanged |
| Auth.AuthService.constructor | angular-frontend/src/app/services/auth.service.ts:15-21 | the signed-in user is the restored one, and the stored value is left as it was |
| Auth.AuthService.Login | angular-frontend/src/app/services/auth.service.ts:23-31 | succeeds exactly for accepted credentials, then signs the user in and stores the name; a failure changes nothing; only known users are ever signed in |
| Auth.AuthService.Logout | angular-frontend/src/app/services/auth.service.ts:33-36 | nobody is signed in and nothing stays stored |
| Auth.AuthService.IsLoggedIn | angular-frontend/src/app/services/auth.service.ts:38-40 | signed in means a current user is set, and in a valid state that user's own name is accepted as its password |
| LoginDialog.LoginOutcome | angular-frontend/src/app/components/login-modal/login-modal.ts:34-49 | no message is left exactly when both fields are filled and the service accepts them; an empty field always gives the missing-credentials message |
| LoginDialog.AcceptedCredentialsPass | angular-frontend/src/app/components/login-modal/login-modal.ts:37-45 | credentials the service accepts always get through the dialog |
| LoginDialog.LoginModal.constructor | angular-frontend/src/app/components/login-modal/login-modal.ts:23-27 | the form starts empty with no message |
| LoginDialog.LoginModal.ResetForm | angular-frontend/src/app/components/login-modal/login-modal.ts:51-55 | both fields and the message are cleared |
| LoginDialog.LoginModal.CloseModal | angular-frontend/src/app/components/login-modal/login-modal.ts:29-32 | the parent is told once and the form is cleared |
| LoginDialog.LoginModal.Login | angular-frontend/src/app/components/login-modal/login-modal.ts:34-49 | the message is the outcome for the entered credentials; on failure the fields, the signed-in user and storage are untouched; on success the dialog closes, the fields clear and the user is signed in and stored |
| RequestDialog.Payload | angular-frontend/src/app/components/request-form/request-form.ts:63-72 | the requester is the e-mail when one is given and `anonymous` otherwise, so never empty |
| RequestDialog.PayloadRoundTrip | angular-frontend/src/app/components/request-form/request-form.ts:63-72 | the payload carries every form field and the selection unaltered |
| RequestDialog.CapabilityChange | angular-frontend/src/app/components/request-form/request-form.ts:104-111 | checking appends the capability after the old selection; unchecking removes every copy; every other capability occurs as often as before |
| RequestDialog.WithoutCounts | angular-frontend/src/app/components/request-form/request-form.ts:109 | removing a capability keeps every other one as often as before |
| RequestDialog.CheckThenUncheck | angular-frontend/src/app/components/request-form/request-form.ts:104-111 | checking then unchecking a capability removes it entirely and keeps the rest in order |
| RequestDialog.RequestForm.constructor | angular-frontend/src/app/components/request-form/request-form.ts:20-35 | the form starts empty, nothing selected, the dropdown closed, nothing submitting and no message |
| RequestDialog.RequestForm.ResetForm | angular-frontend/src/app/components/request-form/request-form.ts:45-57 | the form and selection are emptied and both success and error are cleared |
| RequestDialog.RequestForm.CloseRequestModal | angular-frontend/src/app/components/request-form/request-form.ts:39-43 | the dialog closes, the parent is told once, and the form is reset |
| RequestDialog.RequestForm.SubmitRequest | angular-frontend/src/app/components/request-form/request-form.ts:59-74 | marks submitting, clears the error and sends exactly one payload built from the form and selection |
| RequestDialog.RequestForm.OnSubmitSucceeded | angular-frontend/src/app/components/request-form/request-form.ts:75-83 | submitting ends, the dialog closes and resets, and success is shown afterwards |
| RequestDialog.RequestForm.OnSubmitFailed | angular-frontend/src/app/components/request-form/request-form.ts:84-88 | submitting ends and the failure message is shown; the entered data stays |
| RequestDialog.RequestForm.OnSuccessTimeout | angular-frontend/src/app/components/request-form/request-form.ts:80-82 | the success message is hidden |
| RequestDialog.RequestForm.CloseSuccessMessage | angular-frontend/src/app/components/request-form/request-form.ts:92-94 | the success message is hidden |
| RequestDialog.RequestForm.ToggleCapabilitiesDropdown | angular-frontend/src/app/components/request-form/request-form.ts:96-98 | the dropdown flips |
| RequestDialog.RequestForm.CloseCapabilitiesDropdown | angular-frontend/src/app/components/request-form/request-form.ts:100-102 | the dropdown is closed |
| RequestDialog.RequestForm.OnCapabilityChange | angular-frontend/src/app/components/request-form/request-form.ts:104-111 | the selection changes as `CapabilityChange` states |
| RequestDialog.RequestForm.RemoveCapability | angular-frontend/src/app/components/request-form/request-form.ts:113-117 | every copy of the capability leaves the selection, the rest stay as they were |

## Left out

- HTTP, routing and status codes, JPA queries and entity annotations, the DOM, timers, `console` and logging are not modelled. A request the front end sends is recorded as a value, and each response callback is a method of its own.
- The GitHub, GitLab and Jenkins clients, the GitHub/Jenkins half of `uploadConnector`, and the URL stream of `downloadConnector` are network I/O and are not modelled. Only the linking part of `uploadConnector` is (`ApplicationService.ApplicationServiceState.LinkUpload`).
- The logo store's file system and UUID source are not modelled. The directory is a map from file name to bytes, the UUID is a parameter, and `getLogoPath`, `getBasePath` and `getMaxSizeBytes` are plain field reads.
- The clock is not modelled. `OffsetDateTime.now()` and the cutoff are integer seconds passed in, and `getTimeSinceLastUpdate` (clock and floating-point division) is left out.
- ApplicationService.ApplicationServiceState.SuccessBuild: `successBuild` turns the form's epoch milliseconds into a date; the model drops that conversion and stores `publishTime` as it comes.
- Case mapping (`toLowerCase`, `toUpperCase`) covers ASCII letters only, because Unicode case mapping depends on tables outside this model.
- `localeCompare` is code-point lexicographic order. The proofs use only that it is a total order.
- SeqUtil.SortStrings: the default `Array.prototype.sort` compares UTF-16 code units, and `StrLe` compares code points. The two orders differ between characters above U+FFFF and those from U+E000 to U+FFFF, and the model does not capture that difference.
- CapabilitiesConverter.ConvertToDatabaseColumn: a null element in the array makes `convertToDatabaseColumn` throw a `NullPointerException`; the model's array holds no nulls, so that failure is not modelled.
- In `getApplication` (src/main/java/com/evolveum/midpoint/integration/catalog/controller/Controller.java:64-96), two catch blocks are not modelled. The first catches a lifecycle value that cannot be read, which the model's enum cannot hold. The second swallows an exception from `mapImplementationVersions` and leaves the version list null; the model's mapping does not throw.
- `ObjectMapper`'s encoding of the capability list in `PendingRequestService` is an opaque function parameter.
- The country list (`CountryService`: HTTP, caching and locale sort) is not modelled. Neither are the wizard's `availableCategories` and `availableCountries` lists, `showImplementationForm`, or `activeApplications`, which is folded into `filteredApplications`.
- In the detail page, `getAllMidpointVersions`, the logo helpers, `downloadVersion`, `goBack` and the dropdown positioning from `getBoundingClientRect` are presentation or navigation. They are not modelled. `formatLifecycleState` is the shared `ApplicationsList.FormatLifecycleState`.
- In the catalog list, the following are presentation or counting for display, and are not modelled:
  - the per-option counts `getFilteredCountFor*` and `getTrendingCount`;
  - `getCategoryDisplayName`, `activeIntegrationsCount` and `isPopular`;
  - the opening and closing of the dialogs, `setViewMode`;
  - scrolling and card opacities (floating-point visibility ratios).
- `voteForRequest` is not modelled: it updates the count optimistically inside an asynchronous callback, and the vote rules live in server code that is not part of this model.
- `ApplicationsList.ListState` also leaves out the `load*` callbacks. The fetched records are the field `applications`.
- `FilterDialog.FilterModal.IsSelected` and `ApplicationsList.ListState.IsSelected` are plain membership tests with no contract of their own.
- LoginDialog.LoginModal.Login: `login` first clears the message and then sets it again within the same call. Only the final message is observable, so the model states only that.
- RequestDialog.RequestForm.RemoveCapability: the DOM checkbox that `removeCapability` unticks through `document.getElementById` is left out.
- The home page's `open` only writes to the console and is left out.
- `RequestDto.fromEntity` calls `Request` methods that `Request.java` does not define, so it is not modelled.
- Where the sources disagree, the model follows what each method reads and writes:
  - the front-end record interface does not declare `capabilities`, `midpointVersions` or `origins`, which the components read with `?.` or `|| []`, so they are optional sequences;
  - `ApplicationDto.builder()` and the controller's eight-argument `ImplementationVersionDto` do not match the declared record, so each is the record with the unset fields `None`;
  - the entity fields that the mapper and the logo store use but the entity sources do not declare are modelled as what the callers read;
  - `createRequest` (src/main/java/com/evolveum/midpoint/integration/catalog/service/ApplicationService.java:313-330) calls `Request.CapabilitiesType.valueOf` and `setCapabilitiesType`, which `Request` (src/main/java/com/evolveum/midpoint/integration/catalog/object/Request.java:26-49) does not declare, so the model's `Request` carries a `capabilitiesType` field of its own next to the `capabilities` array column.
- The controller passes `(size, page)` into `searchApplication(form, page, size)` (src/main/java/com/evolveum/midpoint/integration/catalog/controller/Controller.java:264). The search itself is a JPA query and is not modelled.
- With three or more DEPLOYMENT tags, `populateApplicationDetails` preselects `on-premise`, which `deploymentOptions` may not offer (`UploadWizard.DefaultNotOfferedForThreeTags`). The model keeps that behaviour as written.

## Findings

| source | as written | input that shows it | evidently intended | confidence | as-written member | corrected member |
|---|---|---|---|---|---|---|
| src/main/java/com/evolveum/midpoint/integration/catalog/service/ApplicationService.java:299-311 | a download counts as a duplicate only when a stored download of the same version, address and user agent has `downloadedAt` exactly equal to the cutoff, now minus 10 seconds | a download stored at t=100, then the same client again at t=105 (cutoff 95): nothing is exactly at 95, so the second download is recorded as well | a duplicate is any such download after the cutoff, as `existsRecentDuplicate` in src/main/java/com/evolveum/midpoint/integration/catalog/repository/DownloadsRepository.java:26-37 queries, so one client's recorded downloads are at least 10 seconds apart | not executed | ApplicationService.ApplicationServiceState.RecordDownloadIfNewAsWritten, ApplicationService.AsWrittenRecordsRepeat | ApplicationService.ApplicationServiceState.RecordDownloadIfNew, ApplicationService.WindowedKeepsSpacing |
