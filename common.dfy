/** Types shared by every part of the model: optional values, request input
    fields, identifiers, roles, users and the failures a controller reports. */
module Common {

  datatype Option<+T> = None | Some(value: T)

  /** One field of an HTTP request as the validator sees it: missing from the
      payload, present with a null value, or present with a value.  The three
      cases are what `required`, `sometimes` and `nullable` tell apart. */
  datatype Field<+T> = Absent | Null | Given(value: T)

  type UserId = nat
  type HouseholdId = nat
  type RequestId = nat
  type HazardId = nat
  type HazardTypeId = nat

  /** The three roles of the permission package. */
  datatype Role = Admin | Leader | Member

  /** A user row, reduced to the columns the core reads or writes. */
  datatype User = User(
    name: string,
    email: Option<string>,
    householdId: Option<HouseholdId>,
    roles: set<Role>)

  /** A decoded JSON value as the models hand it to the database layer: the
      core only ever stores strings and numbers in attribute bags. */
  datatype Attr = Text(text: string) | Number(number: real)

  /** A decoded JSON object, or the attribute array passed to `create`. */
  type Attributes = map<string, Attr>

  /** Why a controller action stopped without doing its work. */
  datatype Failure =
    | Invalid      // a validation rule failed
    | NotFound     // route-model binding found no row (404)
    | Forbidden    // abort(403)
    | ServerError  // an uncaught exception while the action runs

  /** How a controller action ended. */
  datatype Outcome = Done | Warned | Failed(failure: Failure)

  /** The `required` rule on a string: present, not null and not empty. */
  predicate FilledText(f: Field<string>) {
    f.Given? && f.value != ""
  }

  /** `between:lo,hi` on a numeric field, bounds included. */
  predicate Between(x: real, lo: real, hi: real) {
    lo <= x <= hi
  }
}
