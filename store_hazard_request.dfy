/** The `StoreHazardRequest` form request: `authorize` and its rule table as
    a validator.  The hazard controller's `store` does not use it. */
module StoreHazardRequest {
  import opened Common

  /** An uploaded file: the extension the framework guesses from its content
      and its size in kilobytes. */
  datatype Media = Media(extension: string, kilobytes: nat)

  datatype Form = Form(
    title: Field<string>,
    description: Field<string>,
    hazardTypeId: Field<nat>,
    latitude: Field<real>,
    longitude: Field<real>,
    severity: Field<int>,
    media: Field<Media>)

  /** The validated data. */
  datatype Report = Report(
    title: Option<string>,
    description: Option<string>,
    typeId: HazardTypeId,
    latitude: real,
    longitude: real,
    severity: int,
    media: Option<Media>)

  /** `$this->user() != null`. */
  predicate Authorize(user: Option<UserId>) {
    user.Some?
  }

  /** A `nullable|string|max:n` field: missing, null (an empty string arrives
      as null) or at most `n` characters. */
  function NullableText(f: Field<string>, n: nat): (r: Option<Option<string>>)
    ensures r.Some? <==> !f.Given? || |f.value| <= n
    ensures r == Some(None) <==> !f.Given? || f.value == ""
  {
    match f
    case Given(s) => if s == "" then Some(None) else if |s| <= n then Some(Some(s)) else None
    case _ => Some(None)
  }

  /** `nullable|file|mimes:jpg,jpeg,png,webp|max:5120`. */
  predicate MediaAccepted(f: Field<Media>) {
    f.Given? ==> f.value.extension in {"jpg", "jpeg", "png", "webp"} && f.value.kilobytes <= 5120
  }

  /** The rules: title and description optional with their length limits,
      the hazard type required and existing, both coordinates required and in
      range, severity a required integer in 1..5, the media file optional. */
  function Validate(form: Form, hazardTypes: set<HazardTypeId>): (r: Option<Report>)
    ensures r.Some? <==>
              NullableText(form.title, 120).Some? && NullableText(form.description, 2000).Some?
              && form.hazardTypeId.Given? && form.hazardTypeId.value in hazardTypes
              && form.latitude.Given? && -90.0 <= form.latitude.value <= 90.0
              && form.longitude.Given? && -180.0 <= form.longitude.value <= 180.0
              && form.severity.Given? && 1 <= form.severity.value <= 5
              && MediaAccepted(form.media)
    ensures r.Some? ==> r.value.typeId in hazardTypes && 1 <= r.value.severity <= 5
    ensures r.Some? ==> -90.0 <= r.value.latitude <= 90.0 && -180.0 <= r.value.longitude <= 180.0
    ensures r.Some? ==> (r.value.title.Some? ==> |r.value.title.value| <= 120)
                        && (r.value.description.Some? ==> |r.value.description.value| <= 2000)
    ensures r.Some? ==> r.value.typeId == form.hazardTypeId.value && r.value.severity == form.severity.value
    ensures r.Some? ==> r.value.latitude == form.latitude.value && r.value.longitude == form.longitude.value
    ensures r.Some? ==> r.value.title == if form.title.Given? && form.title.value != "" then Some(form.title.value) else None
    ensures r.Some? ==>
              r.value.description == if form.description.Given? && form.description.value != "" then Some(form.description.value) else None
    ensures r.Some? ==> r.value.media == if form.media.Given? then Some(form.media.value) else None
  {
    var title := NullableText(form.title, 120);
    var description := NullableText(form.description, 2000);
    if title.Some? && description.Some?
       && form.hazardTypeId.Given? && form.hazardTypeId.value in hazardTypes
       && form.latitude.Given? && Between(form.latitude.value, -90.0, 90.0)
       && form.longitude.Given? && Between(form.longitude.value, -180.0, 180.0)
       && form.severity.Given? && Between(form.severity.value as real, 1.0, 5.0)
       && MediaAccepted(form.media)
    then
      Some(Report(title.value, description.value, form.hazardTypeId.value,
                  form.latitude.value, form.longitude.value, form.severity.value,
                  if form.media.Given? then Some(form.media.value) else None))
    else None
  }

  /** Unlike the controller's own rules, a latitude of 100 is refused. */
  lemma RejectsOutOfRangeLatitude(form: Form, hazardTypes: set<HazardTypeId>)
    requires form.latitude == Given(100.0)
    ensures Validate(form, hazardTypes).None?
  {
  }

  /** Neither title nor description is needed. */
  lemma MinimalFormAccepted(typeId: HazardTypeId, severity: int)
    requires 1 <= severity <= 5
    ensures Validate(Form(Absent, Absent, Given(typeId), Given(0.0), Given(0.0), Given(severity), Absent), {typeId})
            == Some(Report(None, None, typeId, 0.0, 0.0, severity, None))
  {
  }
}
