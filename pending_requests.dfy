/**
 * `PendingRequestService`: a request for a new integration is copied field
 * by field into a `PendingRequest` and stored; the listing shows every stored
 * request as requested. The JSON writer for the capability list is a
 * parameter.
 */
module PendingRequests {
  import opened Wrappers

  /** `PendingRequestDto`, as submitted. */
  datatype PendingRequestDto = PendingRequestDto(
    integrationApplicationName: Option<string>, baseUrl: Option<string>, capabilities: Option<seq<string>>,
    description: Option<string>, systemVersion: Option<string>, email: Option<string>,
    collab: Option<bool>, requester: Option<string>)

  /** `PendingRequestDisplayDto`. */
  datatype PendingRequestDisplay = PendingRequestDisplay(id: Option<int>, integrationApplicationName: Option<string>,
                                                         description: Option<string>, lifecycleState: string,
                                                         pendingRequest: bool)

  /** The stored form of the collaboration flag: "yes" exactly for a present `true`, "no" for `false` or null. */
  function CollabText(collab: Option<bool>): (r: string)
    ensures r == "yes" <==> collab == Some(true)
    ensures r == "no" <==> collab != Some(true)
  {
    if collab.Some? && collab.value then "yes" else "no"
  }

  /** The stored capabilities: the JSON text of a non-empty list, null for a null or empty one. */
  function CapabilitiesText(capabilities: Option<seq<string>>, encode: seq<string> -> string): (r: Option<string>)
    ensures r.Some? <==> capabilities.Some? && capabilities.value != []
    ensures r.Some? ==> r.value == encode(capabilities.value)
  {
    if capabilities.Some? && capabilities.value != [] then Some(encode(capabilities.value)) else None
  }

  /** The `PendingRequest` entity. */
  class PendingRequest {
    var id: Option<int>
    var integrationApplicationName: Option<string>
    var baseUrl: Option<string>
    var capabilities: Option<string>
    var description: Option<string>
    var systemVersion: Option<string>
    var email: Option<string>
    var collab: Option<string>
    var requester: Option<string>

    constructor ()
      ensures id.None? && integrationApplicationName.None? && baseUrl.None? && capabilities.None?
      ensures description.None? && systemVersion.None? && email.None? && collab.None? && requester.None?
    {
      id, integrationApplicationName, baseUrl, capabilities := None, None, None, None;
      description, systemVersion, email, collab, requester := None, None, None, None, None;
    }
  }

  class PendingRequestService {
    /** The repository's rows, in the order `findAll` returns them. */
    var store: seq<PendingRequest>
    var nextId: int

    constructor ()
      ensures store == [] && nextId == 1
    {
      store, nextId := [], 1;
    }

    /**
     * `submitRequest`: every text field is copied unchanged, the capability
     * list is stored as JSON only when it has elements, and the flag as
     * "yes"/"no"; the saved row gets the next identity.
     */
    method SubmitRequest(dto: PendingRequestDto, encode: seq<string> -> string) returns (r: PendingRequest)
      modifies this`store, this`nextId
      ensures fresh(r)
      ensures store == old(store) + [r] && nextId == old(nextId) + 1
      ensures r.id == Some(old(nextId))
      ensures r.integrationApplicationName == dto.integrationApplicationName && r.baseUrl == dto.baseUrl
      ensures r.description == dto.description && r.systemVersion == dto.systemVersion
      ensures r.email == dto.email && r.requester == dto.requester
      ensures r.capabilities == CapabilitiesText(dto.capabilities, encode)
      ensures r.collab == Some(CollabText(dto.collab))
    {
      r := new PendingRequest();
      var capabilities := CapabilitiesText(dto.capabilities, encode);
      var collab := CollabText(dto.collab);
      r.integrationApplicationName, r.baseUrl, r.capabilities := dto.integrationApplicationName, dto.baseUrl, capabilities;
      r.description, r.systemVersion, r.email := dto.description, dto.systemVersion, dto.email;
      r.collab, r.requester, r.id := Some(collab), dto.requester, Some(nextId);
      store := store + [r];
      nextId := nextId + 1;
    }

    /** `getAllPendingRequests`: one display row per stored request, in order, always REQUESTED and pending. */
    function AllPendingRequests(): (r: seq<PendingRequestDisplay>)
      reads this, set p | p in store
      ensures |r| == |store|
      ensures forall i :: 0 <= i < |r| ==>
        && r[i].id == store[i].id && r[i].integrationApplicationName == store[i].integrationApplicationName
        && r[i].description == store[i].description
        && r[i].lifecycleState == "REQUESTED" && r[i].pendingRequest
    {
      Displays(store)
    }

    static function Displays(rows: seq<PendingRequest>): (r: seq<PendingRequestDisplay>)
      reads set p | p in rows
      ensures |r| == |rows|
      ensures forall i :: 0 <= i < |r| ==>
        r[i] == PendingRequestDisplay(rows[i].id, rows[i].integrationApplicationName, rows[i].description,
                                      "REQUESTED", true)
    {
      if rows == [] then []
      else
        [PendingRequestDisplay(rows[0].id, rows[0].integrationApplicationName, rows[0].description, "REQUESTED", true)]
        + Displays(rows[1..])
    }
  }
}
