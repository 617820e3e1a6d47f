/** Who may do what to a hazard. */
module HazardPolicy {
  import opened Common
  import opened Hazards

  /** `update`: the reporter, or anyone holding `admin`. */
  predicate CanUpdate(uid: UserId, user: User, hazard: Hazard) {
    uid == hazard.userId || Admin in user.roles
  }

  /** `delete`: anyone holding `admin`; the hazard is not consulted. */
  predicate CanDelete(user: User, hazard: Hazard) {
    Admin in user.roles
  }

  /** `viewAny` and `create`: any user at all; there is no user only when
      nobody is authenticated. */
  predicate CanViewAny(user: Option<User>) {
    user.Some?
  }

  predicate CanCreate(user: Option<User>) {
    user.Some?
  }

  /** Whoever may delete a hazard may also update it. */
  lemma DeleteImpliesUpdate(uid: UserId, user: User, hazard: Hazard)
    requires CanDelete(user, hazard)
    ensures CanUpdate(uid, user, hazard)
  {
  }

  /** A reporter without `admin` may update their hazard but not delete it. */
  lemma ReporterMayUpdateButNotDelete(uid: UserId, user: User, hazard: Hazard)
    requires uid == hazard.userId && Admin !in user.roles
    ensures CanUpdate(uid, user, hazard) && !CanDelete(user, hazard)
  {
  }

  /** Deletion does not depend on the hazard, nor on who reported it. */
  lemma DeleteIgnoresHazard(user: User, a: Hazard, b: Hazard)
    ensures CanDelete(user, a) <==> CanDelete(user, b)
  {
  }
}
