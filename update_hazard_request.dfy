/** The `UpdateHazardRequest` form request: `authorize` and its rules, every
    one of them optional (`sometimes`). */
module UpdateHazardRequest {
  import opened Common
  import opened Hazards
  import StoreHazardRequest

  datatype Form = Form(
    title: Field<string>,
    description: Field<string>,
    severity: Field<int>,
    status: Field<string>,
    media: Field<StoreHazardRequest.Media>)

  /** `$this->user() != null`. */
  predicate Authorize(user: Option<UserId>) {
    user.Some?
  }

  /** The columns a valid form changes; `None` leaves a column alone, and
      `description := Some(None)` clears it. */
  datatype Changes = Changes(
    title: Option<string>,
    description: Option<Option<string>>,
    severity: Option<int>,
    status: Option<HazardStatus>)

  /** `sometimes|string|max:120` for the title (a null or empty title is
      refused), `sometimes|nullable|string|max:2000` for the description,
      `sometimes|integer|min:1|max:5`, `sometimes|in:open,resolved`. */
  function Validate(form: Form): (r: Option<Changes>)
    ensures r.Some? <==>
              (form.title.Absent? || (form.title.Given? && form.title.value != "" && |form.title.value| <= 120))
              && (!form.description.Given? || |form.description.value| <= 2000)
              && (form.severity.Absent? || (form.severity.Given? && 1 <= form.severity.value <= 5))
              && (form.status.Absent? || (form.status.Given? && ParseHazardStatus(form.status.value).Some?))
              && StoreHazardRequest.MediaAccepted(form.media)
    ensures r.Some? ==> (r.value.title.None? <==> form.title.Absent?)
    ensures r.Some? ==> (r.value.description.None? <==> form.description.Absent?)
    ensures r.Some? ==> (r.value.severity.None? <==> form.severity.Absent?)
    ensures r.Some? ==> (r.value.status.None? <==> form.status.Absent?)
    ensures r.Some? && r.value.severity.Some? ==> 1 <= r.value.severity.value <= 5
    ensures r.Some? && r.value.status.Some? ==> HazardStatusName(r.value.status.value) == form.status.value
    ensures r.Some? && form.title.Given? ==> r.value.title == Some(form.title.value)
    ensures r.Some? && form.severity.Given? ==> r.value.severity == Some(form.severity.value)
    ensures r.Some? && (form.description.Null? || form.description == Given("")) ==> r.value.description == Some(None)
    ensures r.Some? && form.description.Given? && form.description.value != "" ==>
              r.value.description == Some(Some(form.description.value))
  {
    var title: Option<Option<string>> := match form.title
      case Absent => Some(None)
      case Null => None
      case Given(s) => if s != "" && |s| <= 120 then Some(Some(s)) else None;
    var description := match form.description
      case Absent => Some(None)
      case Null => Some(Some(None))
      case Given(s) => if s == "" then Some(Some(None)) else if |s| <= 2000 then Some(Some(Some(s))) else None;
    var severity: Option<Option<int>> := match form.severity
      case Absent => Some(None)
      case Null => None
      case Given(v) => if Between(v as real, 1.0, 5.0) then Some(Some(v)) else None;
    var status: Option<Option<HazardStatus>> := match form.status
      case Absent => Some(None)
      case Null => None
      case Given(s) => match ParseHazardStatus(s) case Some(st) => Some(Some(st)) case None => None;
    if title.Some? && description.Some? && severity.Some? && status.Some? && StoreHazardRequest.MediaAccepted(form.media)
    then Some(Changes(title.value, description.value, severity.value, status.value))
    else None
  }

  /** An empty update validates and changes nothing. */
  lemma EmptyFormChangesNothing()
    ensures Validate(Form(Absent, Absent, Absent, Absent, Absent)) == Some(Changes(None, None, None, None))
  {
  }

  /** A status-only update validates exactly for the two status names. */
  lemma StatusOnlyForm(status: string)
    ensures Validate(Form(Absent, Absent, Absent, Given(status), Absent)).Some? <==> status == "open" || status == "resolved"
  {
  }
}
