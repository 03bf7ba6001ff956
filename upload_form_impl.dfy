/**
 * `UploadFormImpl`: the last step of the upload wizard, where the user adds
 * a version to an existing implementation or describes a new one. Every
 * change re-validates the form and reports to the parent: first the form
 * data, then whether it is valid. The reports are an event log. The nine
 * text fields of a new implementation are bound to the template; they are
 * grouped here into one record, and `onFieldChange` receives their values.
 */
module UploadImplementation {
  import opened Wrappers
  import JsText

  /** `ExistingImplementation`. */
  datatype ExistingImplementation = ExistingImplementation(id: string, name: string, description: string,
                                                           publishedDate: string)

  /** The fields of a new implementation, as `formDataChanged` carries them. */
  datatype NewImplementation = NewImplementation(displayName: string, maintainer: string, licenseType: string,
                                                 description: string, browseLink: string, ticketingLink: string,
                                                 buildFramework: string, checkoutLink: string,
                                                 pathToProjectDirectory: string)

  const EMPTY_IMPLEMENTATION := NewImplementation("", "", "", "", "", "", "", "", "")

  /** The payload of `formDataChanged`. */
  datatype FormData = FormData(isNewVersion: Option<bool>, selectedImplementation: Option<ExistingImplementation>,
                               newImplementation: NewImplementation)

  /** What the step emits, in order. */
  datatype Emission = FormDataChanged(data: FormData) | FormValid(valid: bool)

  /** `updateFormValidity`'s verdict. */
  function IsValid(isNewVersion: Option<bool>, selected: Option<ExistingImplementation>,
                   impl: NewImplementation): (r: bool)
    ensures isNewVersion == Some(false) ==>
      (r <==> JsText.Trim(impl.displayName) != "" && JsText.Trim(impl.licenseType) != ""
              && JsText.Trim(impl.description) != "" && JsText.Trim(impl.buildFramework) != "")
    ensures isNewVersion == Some(true) ==> (r <==> selected.Some?)
    ensures isNewVersion.None? ==> !r
  {
    if isNewVersion == Some(false) then
      JsText.Trim(impl.displayName) != "" && JsText.Trim(impl.licenseType) != ""
      && JsText.Trim(impl.description) != "" && JsText.Trim(impl.buildFramework) != ""
    else isNewVersion == Some(true) && selected.Some?
  }

  /**
   * The maintainer, the three links and the project path never decide
   * validity.
   */
  lemma OptionalFieldsIgnored(isNewVersion: Option<bool>, selected: Option<ExistingImplementation>,
                              impl: NewImplementation, maintainer: string, browseLink: string,
                              ticketingLink: string, checkoutLink: string, path: string)
    ensures IsValid(isNewVersion, selected, impl)
            == IsValid(isNewVersion, selected,
                       impl.(maintainer := maintainer, browseLink := browseLink, ticketingLink := ticketingLink,
                             checkoutLink := checkoutLink, pathToProjectDirectory := path))
  {
  }

  /** A new version needs a chosen implementation and nothing else; a new implementation ignores the choice. */
  lemma ValidityByMode(selected: Option<ExistingImplementation>, other: Option<ExistingImplementation>,
                       impl: NewImplementation)
    ensures IsValid(Some(true), selected, impl) == IsValid(Some(true), selected, EMPTY_IMPLEMENTATION)
    ensures IsValid(Some(false), selected, impl) == IsValid(Some(false), other, impl)
  {
  }

  class UploadFormImpl {
    var isNewVersion: Option<bool>
    var selectedImplementation: Option<ExistingImplementation>
    var newImplementation: NewImplementation
    /** `formDataChanged` and `formValid` as emitted so far. */
    var events: seq<Emission>

    /** New version preselected, nothing chosen, every field empty. */
    constructor ()
      ensures isNewVersion == Some(true) && selectedImplementation.None?
      ensures newImplementation == EMPTY_IMPLEMENTATION && events == []
      ensures !FormIsValid()
    {
      isNewVersion, selectedImplementation := Some(true), None;
      newImplementation, events := EMPTY_IMPLEMENTATION, [];
    }

    /** Whether the current values pass validation. */
    predicate FormIsValid()
      reads this
    {
      IsValid(isNewVersion, selectedImplementation, newImplementation)
    }

    function CurrentData(): FormData
      reads this
    {
      FormData(isNewVersion, selectedImplementation, newImplementation)
    }

    /** `updateFormValidity`: the data, then the verdict. */
    method UpdateFormValidity()
      modifies this`events
      ensures events == old(events) + [FormDataChanged(CurrentData()), FormValid(FormIsValid())]
    {
      var isValid := false;
      if isNewVersion == Some(false) {
        isValid := JsText.Trim(newImplementation.displayName) != "" && JsText.Trim(newImplementation.licenseType) != ""
                   && JsText.Trim(newImplementation.description) != ""
                   && JsText.Trim(newImplementation.buildFramework) != "";
      } else if isNewVersion == Some(true) && selectedImplementation.Some? {
        isValid := true;
      }
      var formData := FormData(isNewVersion, selectedImplementation, newImplementation);
      events := events + [FormDataChanged(formData)];
      events := events + [FormValid(isValid)];
    }

    /** `selectNewVersion`: any chosen implementation stays chosen. */
    method SelectNewVersion()
      modifies this`isNewVersion, this`events
      ensures isNewVersion == Some(true)
      ensures events == old(events) + [FormDataChanged(CurrentData()), FormValid(FormIsValid())]
      ensures FormIsValid() <==> selectedImplementation.Some?
    {
      isNewVersion := Some(true);
      UpdateFormValidity();
    }

    /** `selectNewImplementation`: the choice of an existing implementation is dropped. */
    method SelectNewImplementation()
      modifies this`isNewVersion, this`selectedImplementation, this`events
      ensures isNewVersion == Some(false) && selectedImplementation.None?
      ensures events == old(events) + [FormDataChanged(CurrentData()), FormValid(FormIsValid())]
    {
      isNewVersion := Some(false);
      selectedImplementation := None;
      UpdateFormValidity();
    }

    /** `selectImplementation`. */
    method SelectImplementation(impl: ExistingImplementation)
      modifies this`selectedImplementation, this`events
      ensures selectedImplementation == Some(impl)
      ensures events == old(events) + [FormDataChanged(CurrentData()), FormValid(FormIsValid())]
      ensures isNewVersion == Some(true) ==> FormIsValid()
    {
      selectedImplementation := Some(impl);
      UpdateFormValidity();
    }

    /** `onFieldChange`, after the template has written the fields. */
    method OnFieldChange(fields: NewImplementation)
      modifies this`newImplementation, this`events
      ensures newImplementation == fields
      ensures events == old(events) + [FormDataChanged(CurrentData()), FormValid(FormIsValid())]
    {
      newImplementation := fields;
      UpdateFormValidity();
    }
  }
}
