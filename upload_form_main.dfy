/**
 * `UploadFormMain`: the first part of the upload wizard. The user looks up
 * an existing ACTIVE application or defines a new one, the details form is
 * filled from the chosen record, and the wizard moves between three steps.
 * The logo is a file the browser hands over; it is modelled by its name.
 * `modalClosed` is a counter of emissions.
 */
module UploadWizard {
  import opened Wrappers
  import opened SeqUtil
  import Text
  import JsText
  import opened Catalog

  /** One entry of the deployment selector: its `value` and its `label` (`label` is a Dafny keyword). */
  datatype DeploymentOption = DeploymentOption(value: string, labelText: string)

  const BOTH_ONLY := DeploymentOption("both", "Both (On-Premise and Cloud-based)")
  const ALL_OPTIONS := [DeploymentOption("on-premise", "On-premise"), DeploymentOption("cloud-based", "Cloud-based"),
                        DeploymentOption("both", "Both")]

  /** The longest description the text area accepts, in UTF-16 code units. */
  const MAX_DESCRIPTION := 350

  predicate IsActive(app: App)
  {
    app.lifecycleState == Some("ACTIVE")
  }

  /** The search test: the query in the lower-cased display name or description. */
  function QueryTest(query: string): App -> bool
  {
    (app: App) => Text.Includes(Text.ToLower(app.displayName), query) || Text.Includes(Text.ToLower(app.description), query)
  }

  /** `filteredApplications`: nothing for a blank query, otherwise the ACTIVE records that mention it. */
  function FilteredApplications(apps: seq<App>, searchQuery: string): (r: seq<App>)
    ensures NormalizedQuery(searchQuery) == "" ==> r == []
    ensures |r| <= |apps|
    ensures forall i :: 0 <= i < |r| ==> r[i] in apps && IsActive(r[i]) && QueryTest(NormalizedQuery(searchQuery))(r[i])
  {
    var query := NormalizedQuery(searchQuery);
    if query == "" then [] else Filter(Filter(apps, IsActive), QueryTest(query))
  }

  /**
   * A blank query lists nothing; otherwise a record is listed exactly when
   * it is ACTIVE and its display name or description contains the query,
   * ignoring case.
   */
  lemma FilteredApplicationsSpec(apps: seq<App>, searchQuery: string, app: App)
    ensures NormalizedQuery(searchQuery) == "" ==> FilteredApplications(apps, searchQuery) == []
    ensures NormalizedQuery(searchQuery) != "" ==>
      (app in FilteredApplications(apps, searchQuery) <==>
         app in apps && IsActive(app) && QueryTest(NormalizedQuery(searchQuery))(app))
  {
    var query := NormalizedQuery(searchQuery);
    if query != "" {
      var active := Filter(apps, IsActive);
      if app in apps && IsActive(app) {
        var k :| 0 <= k < |apps| && apps[k] == app;
        assert app in active;
        if QueryTest(query)(app) {
          var j :| 0 <= j < |active| && active[j] == app;
        }
      }
      if app in FilteredApplications(apps, searchQuery) {
        var j :| 0 <= j < |FilteredApplications(apps, searchQuery)| && FilteredApplications(apps, searchQuery)[j] == app;
        assert app in active;
      }
    }
  }

  predicate IsDeploymentTag(t: Tag)
  {
    t.tagType == Some("DEPLOYMENT")
  }

  /** `app.tags?.filter(tag => tag.tagType === 'DEPLOYMENT') || []`. */
  function DeploymentTags(app: App): (r: seq<Tag>)
    ensures forall i :: 0 <= i < |r| ==> IsDeploymentTag(r[i]) && r[i] in OrEmpty(app.tags)
  {
    Filter(OrEmpty(app.tags), IsDeploymentTag)
  }

  /** A tag name as a selector value: lower-cased, every `_` turned into `-`. */
  function DeploymentValue(name: string): (r: string)
    ensures |r| == |name| && '_' !in r
  {
    Text.ReplaceChar(Text.ToLower(name), '_', '-')
  }

  /** `deploymentOptions`. */
  function DeploymentOptions(selected: Option<App>): (r: seq<DeploymentOption>)
    ensures selected.None? ==> r == ALL_OPTIONS
    ensures selected.Some? ==> var tags := DeploymentTags(selected.value);
      && (|tags| == 0 ==> r == ALL_OPTIONS)
      && (|tags| == 2 ==> r == [BOTH_ONLY])
      && (|tags| == 1 || |tags| > 2 ==>
            r == [DeploymentOption(DeploymentValue(tags[0].name), tags[0].displayName), BOTH_ONLY])
  {
    if selected.None? then ALL_OPTIONS
    else
      var tags := DeploymentTags(selected.value);
      if |tags| == 2 then [BOTH_ONLY]
      else if |tags| == 0 then ALL_OPTIONS
      else [DeploymentOption(DeploymentValue(tags[0].name), tags[0].displayName), BOTH_ONLY]
  }

  /** The deployment type `populateApplicationDetails` preselects. */
  function DefaultDeploymentType(app: App): (r: string)
    ensures '_' !in r
    ensures |DeploymentTags(app)| != 1 ==> r == "both" || r == "on-premise"
    ensures r == "both" <==> |DeploymentTags(app)| == 2 || (|DeploymentTags(app)| == 1 && DeploymentValue(DeploymentTags(app)[0].name) == "both")
  {
    var tags := DeploymentTags(app);
    if |tags| == 2 then "both"
    else if |tags| == 1 then DeploymentValue(tags[0].name)
    else "on-premise"
  }

  /**
   * "Both" is always offered, and the preselected deployment type is one of
   * the options offered for the same record as long as it has at most two
   * deployment tags.
   */
  lemma DefaultDeploymentOffered(app: App)
    ensures exists i :: 0 <= i < |DeploymentOptions(Some(app))| && DeploymentOptions(Some(app))[i].value == "both"
    ensures |DeploymentTags(app)| <= 2 ==>
      exists i :: 0 <= i < |DeploymentOptions(Some(app))| && DeploymentOptions(Some(app))[i].value == DefaultDeploymentType(app)
  {
    var r := DeploymentOptions(Some(app));
    var tags := DeploymentTags(app);
    if |tags| == 0 {
      assert r[0].value == "on-premise" && r[2].value == "both";
    } else if |tags| == 2 {
      assert r[0].value == "both";
    } else {
      assert r[1].value == "both";
      assert r[0].value == DeploymentValue(tags[0].name);
    }
  }

  /**
   * With three deployment tags the first of which is not `ON_PREMISE`, the
   * preselected `on-premise` is not among the options.
   */
  lemma DefaultNotOfferedForThreeTags(app: App, cloud: Tag)
    requires cloud == Tag(1, "CLOUD", "Cloud", Some("DEPLOYMENT"))
    requires app.tags == Some([cloud, cloud, cloud])
    ensures DefaultDeploymentType(app) == "on-premise"
    ensures forall i :: 0 <= i < |DeploymentOptions(Some(app))| ==> DeploymentOptions(Some(app))[i].value != "on-premise"
  {
    var tags := OrEmpty(app.tags);
    FilterKeepsAll(tags, IsDeploymentTag);
    var v := DeploymentValue("CLOUD");
    assert |v| == 5 && v[0] == 'c';
  }

  /** `canSubmitForm`: a display name and a description that are not blank, and a category. */
  predicate CanSubmit(displayName: string, description: string, category: string)
    ensures CanSubmit(displayName, description, category) ==> |displayName| > 0 && |description| > 0 && category != ""
  {
    JsText.Trim(displayName) != "" && JsText.Trim(description) != "" && category != ""
  }

  /**
   * The form can be submitted exactly when the display name and the
   * description each hold a character that is not white space and a
   * category is chosen.
   */
  lemma CanSubmitIff(displayName: string, description: string, category: string)
    ensures CanSubmit(displayName, description, category) <==>
      && (exists i :: 0 <= i < |displayName| && !JsText.IsWhitespace(displayName[i]))
      && (exists i :: 0 <= i < |description| && !JsText.IsWhitespace(description[i]))
      && category != ""
  {
    JsText.TrimEmptyIffBlank(displayName);
    JsText.TrimEmptyIffBlank(description);
  }

  /** The display names of a record's origins, when it has any. */
  function OriginNames(origins: seq<Country>): (r: seq<string>)
    ensures |r| == |origins| && forall i :: 0 <= i < |r| ==> r[i] == origins[i].displayName
  {
    Map(origins, (c: Country) => c.displayName)
  }

  class UploadFormMain {
    var applications: seq<App>
    var currentStep: int
    var selectedConnectorType: string
    var searchQuery: string
    var selectedApplication: Option<App>
    var isDefineNewMode: bool
    var showDetailsForm: bool
    var displayName: string
    var description: string
    var logoFile: Option<string>
    var origins: seq<string>
    /** The origins that came with the selected record; they cannot be dismissed. */
    var loadedOrigins: seq<string>
    var category: string
    var deploymentType: string
    var showOriginDropdown: bool
    /** How many times `modalClosed` was emitted. */
    var closedCount: nat

    /** The wizard is on one of its three steps. */
    predicate Valid()
      reads this
    {
      1 <= currentStep <= 3
    }

    /** The initial state, which `resetForm` restores. */
    predicate Initial()
      reads this
    {
      && currentStep == 1 && selectedConnectorType == "evolveum-hosted" && searchQuery == ""
      && selectedApplication.None? && !isDefineNewMode && !showDetailsForm
      && displayName == "" && description == "" && logoFile.None? && origins == [] && loadedOrigins == []
      && category == "" && deploymentType == "on-premise" && !showOriginDropdown
    }

    /** The record-independent fields left as they are by clearing the details. */
    predicate DetailsCleared()
      reads this
    {
      && displayName == "" && description == "" && logoFile.None? && origins == [] && loadedOrigins == []
      && category == "" && deploymentType == "on-premise" && !showOriginDropdown
    }

    constructor (apps: seq<App>)
      ensures applications == apps && closedCount == 0 && Initial() && Valid()
    {
      applications, closedCount := apps, 0;
      currentStep, selectedConnectorType, searchQuery := 1, "evolveum-hosted", "";
      selectedApplication, isDefineNewMode, showDetailsForm := None, false, false;
      displayName, description, logoFile, origins, loadedOrigins := "", "", None, [], [];
      category, deploymentType, showOriginDropdown := "", "on-premise", false;
    }

    /** `closeModal`: `modalClosed` is emitted and the whole form reset. */
    method CloseModal()
      modifies this`closedCount, this`currentStep, this`selectedConnectorType, this`searchQuery,
              this`selectedApplication, this`isDefineNewMode, this`showDetailsForm
      modifies this`displayName, this`description, this`logoFile, this`origins, this`loadedOrigins,
              this`category, this`deploymentType, this`showOriginDropdown
      ensures closedCount == old(closedCount) + 1 && Initial() && Valid()
    {
      closedCount := closedCount + 1;
      ResetForm();
    }

    /** `nextStep`: one step on, never past the third. */
    method NextStep()
      modifies this`currentStep
      ensures currentStep == if old(currentStep) < 3 then old(currentStep) + 1 else old(currentStep)
      ensures old(Valid()) ==> Valid()
    {
      if currentStep < 3 {
        currentStep := currentStep + 1;
      }
    }

    /** `previousStep`: one step back, never before the first. */
    method PreviousStep()
      modifies this`currentStep
      ensures currentStep == if old(currentStep) > 1 then old(currentStep) - 1 else old(currentStep)
      ensures old(Valid()) ==> Valid()
    {
      if currentStep > 1 {
        currentStep := currentStep - 1;
      }
    }

    /** `enterDefineNewMode`: no record, the details form open and empty. */
    method EnterDefineNewMode()
      modifies this`isDefineNewMode, this`selectedApplication, this`showDetailsForm
      modifies this`displayName, this`description, this`logoFile, this`origins, this`loadedOrigins,
              this`category, this`deploymentType, this`showOriginDropdown
      ensures isDefineNewMode && selectedApplication.None? && showDetailsForm && DetailsCleared()
    {
      isDefineNewMode := true;
      selectedApplication := None;
      showDetailsForm := true;
      ClearApplicationDetailsFields();
    }

    /**
     * `populateApplicationDetails`: the details of the selected record; the
     * origins only when the record has a list of them, the category only
     * when it has one.
     */
    method PopulateApplicationDetails()
      modifies this`displayName, this`description, this`origins, this`loadedOrigins, this`category, this`deploymentType
      ensures old(selectedApplication).None? ==> unchanged(this)
      ensures old(selectedApplication).Some? ==> var app := old(selectedApplication).value;
        && displayName == app.displayName && description == app.description
        && (app.origins.Some? ==> origins == OriginNames(app.origins.value) && loadedOrigins == origins)
        && (app.origins.None? ==> origins == old(origins) && loadedOrigins == old(loadedOrigins))
        && category == (if app.categories.Some? && |app.categories.value| > 0 then app.categories.value[0].name
                        else old(category))
        && deploymentType == DefaultDeploymentType(app)
    {
      if selectedApplication.Some? {
        var app := selectedApplication.value;
        var countries := if app.origins.Some? then OriginNames(app.origins.value) else origins;
        var loaded := if app.origins.Some? then countries else loadedOrigins;
        var first := if app.categories.Some? && |app.categories.value| > 0 then app.categories.value[0].name
                     else category;
        var tags := DeploymentTags(app);
        var deployment := if |tags| == 2 then "both"
                          else if |tags| == 1 then DeploymentValue(tags[0].name)
                          else "on-premise";
        displayName, description, origins, loadedOrigins := app.displayName, app.description, countries, loaded;
        category, deploymentType := first, deployment;
      }
    }

    /** `selectConnectorType`. */
    method SelectConnectorType(connectorType: string)
      modifies this`selectedConnectorType
      ensures selectedConnectorType == connectorType
    {
      selectedConnectorType := connectorType;
    }

    /** `onSearchChange`. */
    method OnSearchChange(value: string)
      modifies this`searchQuery
      ensures searchQuery == value
    {
      searchQuery := value;
    }

    /** `clearSearch`. */
    method ClearSearch()
      modifies this`searchQuery
      ensures searchQuery == "" && FilteredApplications(applications, searchQuery) == []
    {
      searchQuery := "";
    }

    /** `selectApplication`: the record chosen, the search cleared, the details form closed. */
    method SelectApplication(app: App)
      modifies this`selectedApplication, this`searchQuery, this`isDefineNewMode, this`showDetailsForm
      ensures selectedApplication == Some(app) && searchQuery == "" && !isDefineNewMode && !showDetailsForm
      ensures CanContinueWithSelection()
    {
      selectedApplication := Some(app);
      searchQuery := "";
      isDefineNewMode := false;
      showDetailsForm := false;
    }

    /** `continueWithSelectedApp`: the details form opens, filled from the record. */
    method ContinueWithSelectedApp()
      modifies this`showDetailsForm
      modifies this`displayName, this`description, this`origins, this`loadedOrigins, this`category, this`deploymentType
      ensures showDetailsForm && !CanContinueWithSelection()
      ensures old(selectedApplication).None? ==>
        && displayName == old(displayName) && description == old(description)
        && origins == old(origins) && loadedOrigins == old(loadedOrigins)
        && category == old(category) && deploymentType == old(deploymentType)
      ensures old(selectedApplication).Some? ==> var app := old(selectedApplication).value;
        && displayName == app.displayName && description == app.description
        && (app.origins.Some? ==> origins == OriginNames(app.origins.value) && loadedOrigins == origins)
        && (app.origins.None? ==> origins == old(origins) && loadedOrigins == old(loadedOrigins))
        && category == (if app.categories.Some? && |app.categories.value| > 0 then app.categories.value[0].name
                        else old(category))
        && deploymentType == DefaultDeploymentType(app)
    {
      showDetailsForm := true;
      PopulateApplicationDetails();
    }

    /** `removeSelectedApplication`: no record and empty details. */
    method RemoveSelectedApplication()
      modifies this`selectedApplication, this`isDefineNewMode, this`showDetailsForm
      modifies this`displayName, this`description, this`logoFile, this`origins, this`loadedOrigins,
              this`category, this`deploymentType, this`showOriginDropdown
      ensures selectedApplication.None? && !isDefineNewMode && !showDetailsForm && DetailsCleared()
      ensures !CanContinueWithSelection()
    {
      selectedApplication := None;
      isDefineNewMode := false;
      showDetailsForm := false;
      ClearApplicationDetailsFields();
    }

    /** `clearApplicationDetailsFields`. */
    method ClearApplicationDetailsFields()
      modifies this`displayName, this`description, this`logoFile, this`origins, this`loadedOrigins,
              this`category, this`deploymentType, this`showOriginDropdown
      ensures DetailsCleared()
    {
      displayName, description, logoFile, origins, loadedOrigins := "", "", None, [], [];
      category, deploymentType, showOriginDropdown := "", "on-premise", false;
    }

    /** `canContinueWithSelection`: a record is chosen and its details are not open yet. */
    function CanContinueWithSelection(): (r: bool)
      reads this
      ensures r ==> selectedApplication.Some?
      ensures showDetailsForm ==> !r
    {
      selectedApplication.Some? && !showDetailsForm
    }

    /** `canSubmitForm`. */
    function CanSubmitForm(): (r: bool)
      reads this
      ensures r <==>
        && (exists i :: 0 <= i < |displayName| && !JsText.IsWhitespace(displayName[i]))
        && (exists i :: 0 <= i < |description| && !JsText.IsWhitespace(description[i]))
        && category != ""
    {
      CanSubmitIff(displayName, description, category);
      CanSubmit(displayName, description, category)
    }

    /** `onLogoUpload`: the first of the chosen files, if any. */
    method OnLogoUpload(files: seq<string>)
      modifies this`logoFile
      ensures logoFile == if files != [] then Some(files[0]) else old(logoFile)
    {
      if |files| > 0 {
        logoFile := Some(files[0]);
      }
    }

    /** `toggleOriginDropdown`. */
    method ToggleOriginDropdown()
      modifies this`showOriginDropdown
      ensures showOriginDropdown == !old(showOriginDropdown)
    {
      showOriginDropdown := !showOriginDropdown;
    }

    /** `addOriginFromDropdown`: a non-empty country not chosen yet is appended. */
    method AddOriginFromDropdown(country: string)
      modifies this`origins
      ensures origins == if country != "" && country !in old(origins) then old(origins) + [country] else old(origins)
      ensures NoDup(old(origins)) ==> NoDup(origins)
      ensures country != "" ==> country in origins
    {
      if country != "" && country !in origins {
        origins := origins + [country];
      }
    }

    /** `removeOrigin`: every occurrence of the origin leaves the list. */
    method RemoveOrigin(origin: string)
      modifies this`origins
      ensures origins == Without(old(origins), origin)
      ensures origin !in origins && forall o :: o != origin ==> (o in origins <==> o in old(origins))
    {
      origins := Without(origins, origin);
    }

    /** `isOriginDismissible`: only origins the record did not come with can be removed. */
    function IsOriginDismissible(origin: string): (r: bool)
      reads this
      ensures loadedOrigins == [] ==> r
      ensures r <==> forall i :: 0 <= i < |loadedOrigins| ==> loadedOrigins[i] != origin
    {
      origin !in loadedOrigins
    }

    /** `onDescriptionChange`: a text longer than 350 code units is refused. */
    method OnDescriptionChange(value: string)
      modifies this`description
      ensures description == if JsText.Utf16Length(value) <= MAX_DESCRIPTION then value else old(description)
      ensures JsText.Utf16Length(old(description)) <= MAX_DESCRIPTION ==> JsText.Utf16Length(description) <= MAX_DESCRIPTION
    {
      if JsText.Utf16Length(value) <= MAX_DESCRIPTION {
        description := value;
      }
    }

    /** `resetForm`. */
    method ResetForm()
      modifies this`currentStep, this`selectedConnectorType, this`searchQuery, this`selectedApplication,
              this`isDefineNewMode, this`showDetailsForm
      modifies this`displayName, this`description, this`logoFile, this`origins, this`loadedOrigins,
              this`category, this`deploymentType, this`showOriginDropdown
      ensures Initial() && Valid()
    {
      ClearApplicationDetailsFields();
      currentStep, selectedConnectorType, searchQuery := 1, "evolveum-hosted", "";
      selectedApplication, isDefineNewMode, showDetailsForm := None, false, false;
    }
  }

  /** Removal keeps every other origin and drops the removed one. */
  lemma RemoveOriginSpec(origins: seq<string>, origin: string)
    ensures origin !in Without(origins, origin)
    ensures forall o :: o != origin ==> (o in Without(origins, origin) <==> o in origins)
    ensures NoDup(origins) ==> NoDup(Without(origins, origin))
  {
    if NoDup(origins) {
      WithoutNoDup(origins, origin);
    }
  }
}
