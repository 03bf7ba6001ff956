/**
 * The "request an integration" dialog: a small form, a list of chosen
 * capabilities, and the submission with its two outcomes. The HTTP call is
 * a parameter: `SubmitRequest` records the payload it would send, and the
 * callbacks of the subscription are `OnSubmitSucceeded` and `OnSubmitFailed`.
 */
module RequestDialog {
  import opened Wrappers
  import opened SeqUtil

  /** `formData`. */
  datatype FormData = FormData(integrationApplicationName: string, baseUrl: string, description: string,
                               systemVersion: string, email: string, collab: bool)

  const INITIAL_FORM := FormData("", "", "", "", "", false)

  const SUBMIT_FAILED := "Failed to submit request. Please try again."

  /** The body `submitRequest` sends. */
  datatype RequestPayload = RequestPayload(integrationApplicationName: string, baseUrl: string,
                                           capabilities: seq<string>, description: string, systemVersion: string,
                                           email: string, collab: bool, requester: string)

  /** The payload for a form and a selection; the requester is the e-mail, or `anonymous` without one. */
  function Payload(form: FormData, selected: seq<string>): (r: RequestPayload)
    ensures r.requester == if form.email != "" then form.email else "anonymous"
    ensures r.requester != ""
  {
    RequestPayload(form.integrationApplicationName, form.baseUrl, selected, form.description,
                   form.systemVersion, form.email, form.collab, if form.email != "" then form.email else "anonymous")
  }

  /** The form fields a payload carries. */
  function PayloadForm(p: RequestPayload): FormData
  {
    FormData(p.integrationApplicationName, p.baseUrl, p.description, p.systemVersion, p.email, p.collab)
  }

  /** A payload gives back the form and the selection it was built from: nothing is dropped or altered. */
  lemma PayloadRoundTrip(form: FormData, selected: seq<string>)
    ensures PayloadForm(Payload(form, selected)) == form
    ensures Payload(form, selected).capabilities == selected
  {
  }

  /** `onCapabilityChange`'s update of the selection. */
  function CapabilityChange(caps: seq<string>, checked: bool, capability: string): (r: seq<string>)
    ensures checked ==> |r| == |caps| + 1 && r[..|caps|] == caps && r[|caps|] == capability
    ensures !checked ==> capability !in r
    ensures forall c :: c != capability ==> multiset(r)[c] == multiset(caps)[c]
  {
    if checked then caps + [capability]
    else
      WithoutCounts(caps, capability);
      Without(caps, capability)
  }

  /** Removing a value keeps every other value as often as before. */
  lemma {:induction false} WithoutCounts(caps: seq<string>, capability: string)
    ensures forall c :: c != capability ==> multiset(Without(caps, capability))[c] == multiset(caps)[c]
  {
    if caps != [] {
      WithoutCounts(caps[1..], capability);
      assert caps == [caps[0]] + caps[1..];
      FilterCons(caps[0], caps[1..], NotEq(capability));
    }
  }

  /** Checking and then unchecking a capability removes it altogether, leaving the rest in order. */
  lemma CheckThenUncheck(caps: seq<string>, capability: string)
    ensures CapabilityChange(CapabilityChange(caps, true, capability), false, capability) == Without(caps, capability)
  {
    WithoutAppend(caps, [capability], capability);
    assert Without([capability], capability) == [];
  }

  class RequestForm {
    var isRequestModalOpen: bool
    /** How many times `modalClosed` was emitted. */
    var closedCount: nat
    var formData: FormData
    var selectedCapabilities: seq<string>
    var isCapabilitiesDropdownOpen: bool
    var isSubmitting: bool
    var submitSuccess: bool
    var submitError: Option<string>
    /** The payloads handed to the service, oldest first. */
    var sent: seq<RequestPayload>

    constructor (isOpen: bool)
      ensures isRequestModalOpen == isOpen && closedCount == 0
      ensures formData == INITIAL_FORM && selectedCapabilities == [] && !isCapabilitiesDropdownOpen
      ensures !isSubmitting && !submitSuccess && submitError.None? && sent == []
    {
      isRequestModalOpen, closedCount := isOpen, 0;
      formData, selectedCapabilities, isCapabilitiesDropdownOpen := INITIAL_FORM, [], false;
      isSubmitting, submitSuccess, submitError, sent := false, false, None, [];
    }

    /** `resetForm`. */
    method ResetForm()
      modifies this`formData, this`selectedCapabilities, this`submitSuccess, this`submitError
      ensures formData == INITIAL_FORM && selectedCapabilities == [] && !submitSuccess && submitError.None?
    {
      formData := INITIAL_FORM;
      selectedCapabilities := [];
      submitSuccess := false;
      submitError := None;
    }

    /** `closeRequestModal`: closed, the parent told, the form reset. */
    method CloseRequestModal()
      modifies this`isRequestModalOpen, this`closedCount
      modifies this`formData, this`selectedCapabilities, this`submitSuccess, this`submitError
      ensures !isRequestModalOpen && closedCount == old(closedCount) + 1
      ensures formData == INITIAL_FORM && selectedCapabilities == [] && !submitSuccess && submitError.None?
    {
      isRequestModalOpen := false;
      closedCount := closedCount + 1;
      ResetForm();
    }

    /** `submitRequest`, up to the payload it sends. */
    method SubmitRequest()
      modifies this`isSubmitting, this`submitError, this`sent
      ensures isSubmitting && submitError.None?
      ensures sent == old(sent) + [Payload(formData, selectedCapabilities)]
    {
      isSubmitting := true;
      submitError := None;
      var request := RequestPayload(formData.integrationApplicationName, formData.baseUrl, selectedCapabilities,
                                    formData.description, formData.systemVersion, formData.email, formData.collab,
                                    if formData.email != "" then formData.email else "anonymous");
      sent := sent + [request];
    }

    /** The `next` callback: the dialog closes and resets, and only then is success shown. */
    method OnSubmitSucceeded()
      modifies this`isSubmitting, this`isRequestModalOpen, this`closedCount
      modifies this`formData, this`selectedCapabilities, this`submitSuccess, this`submitError
      ensures !isSubmitting && !isRequestModalOpen && closedCount == old(closedCount) + 1
      ensures formData == INITIAL_FORM && selectedCapabilities == [] && submitError.None?
      ensures submitSuccess
    {
      isSubmitting := false;
      CloseRequestModal();
      submitSuccess := true;
    }

    /** The `error` callback: the entered data stays for another attempt. */
    method OnSubmitFailed()
      modifies this`isSubmitting, this`submitError
      ensures !isSubmitting && submitError == Some(SUBMIT_FAILED)
    {
      isSubmitting := false;
      submitError := Some(SUBMIT_FAILED);
    }

    /** The timer that hides the success message. */
    method OnSuccessTimeout()
      modifies this`submitSuccess
      ensures !submitSuccess
    {
      submitSuccess := false;
    }

    method CloseSuccessMessage()
      modifies this`submitSuccess
      ensures !submitSuccess
    {
      submitSuccess := false;
    }

    method ToggleCapabilitiesDropdown()
      modifies this`isCapabilitiesDropdownOpen
      ensures isCapabilitiesDropdownOpen == !old(isCapabilitiesDropdownOpen)
    {
      isCapabilitiesDropdownOpen := !isCapabilitiesDropdownOpen;
    }

    method CloseCapabilitiesDropdown()
      modifies this`isCapabilitiesDropdownOpen
      ensures !isCapabilitiesDropdownOpen
    {
      isCapabilitiesDropdownOpen := false;
    }

    /** `onCapabilityChange`: a checked box appends (even a duplicate), an unchecked one removes every copy. */
    method OnCapabilityChange(checked: bool, capability: string)
      modifies this`selectedCapabilities
      ensures selectedCapabilities == CapabilityChange(old(selectedCapabilities), checked, capability)
    {
      if checked {
        selectedCapabilities := selectedCapabilities + [capability];
      } else {
        selectedCapabilities := Without(selectedCapabilities, capability);
      }
    }

    /** `removeCapability`, without the page checkbox it unticks. */
    method RemoveCapability(capability: string)
      modifies this`selectedCapabilities
      ensures selectedCapabilities == CapabilityChange(old(selectedCapabilities), false, capability)
    {
      selectedCapabilities := Without(selectedCapabilities, capability);
    }
  }
}
