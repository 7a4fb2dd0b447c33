/** The approval verdict for one product and one user or device. */
module Approval {
  import opened Wrappers

  const DAY := 86400

  const GLOBALLY_APPROVED := "globally_approved"
  const GLOBALLY_PROHIBITED := "globally_prohibited"
  const DEPARTMENT_DISCRETION := "department_discretion"

  const APPROVED := "approved"
  const CONDITIONAL := "conditional"
  const PROHIBITED := "prohibited"

  const DEPARTMENT_WIDE := "department_wide"
  const SPECIFIC_USERS := "specific_users"
  const SPECIFIC_DEVICES := "specific_devices"

  datatype Verdict = Allowed | Conditional | Prohibited | Unapproved | Expired | Unreviewed

  /** Times are seconds since the epoch, in UTC. */
  datatype Record = Record(status: string, scope: string, expires: Option<int>, inScope: bool)

  function Evaluate(default: string, rec: Option<Record>, now: int): Verdict {
    if default == GLOBALLY_APPROVED then Allowed
    else if default == GLOBALLY_PROHIBITED then Prohibited
    else if default != DEPARTMENT_DISCRETION then Unreviewed
    else
      match rec
      case None => Unapproved
      case Some(r) =>
        if r.expires.Some? && now >= (r.expires.value / DAY + 1) * DAY then Expired
        else if r.status == APPROVED then
          if r.scope == DEPARTMENT_WIDE then Allowed
          else if r.scope in {SPECIFIC_USERS, SPECIFIC_DEVICES} && r.inScope then Allowed
          else Unapproved
        else if r.status == CONDITIONAL then Conditional
        else if r.status == PROHIBITED then Prohibited
        else Unapproved
  }

  /** A record is in force to the end of its last day and never again after it. */
  lemma ExpiresAfterItsDay(default: string, rec: Option<Record>, now: int)
    ensures Evaluate(default, rec, now) == Expired <==>
              default == DEPARTMENT_DISCRETION && rec.Some? && rec.value.expires.Some?
              && now / DAY > rec.value.expires.value / DAY
    ensures forall later: int | later >= now && Evaluate(default, rec, now) == Expired ::
              Evaluate(default, rec, later) == Expired
    ensures forall same: int | same / DAY == now / DAY ::
              Evaluate(default, rec, same) == Evaluate(default, rec, now)
  {
  }

  /** Whatever is not reviewed or not recorded is not allowed. */
  lemma AllowedOnlyIfApproved(default: string, rec: Option<Record>, now: int)
    requires Evaluate(default, rec, now) == Allowed
    ensures default == GLOBALLY_APPROVED ||
            (default == DEPARTMENT_DISCRETION && rec.Some? && rec.value.status == APPROVED
             && (rec.value.scope == DEPARTMENT_WIDE || rec.value.inScope)
             && (rec.value.expires.Some? ==> now / DAY <= rec.value.expires.value / DAY))
  {
  }

  /** Records that differ only in whether the subject is listed agree unless the list decides. */
  lemma ScopeMatters(default: string, rec: Record, now: int)
    ensures Evaluate(default, Some(rec.(inScope := true)), now) == Evaluate(default, Some(rec.(inScope := false)), now)
            <==> !(default == DEPARTMENT_DISCRETION && rec.status == APPROVED
                   && rec.scope in {SPECIFIC_USERS, SPECIFIC_DEVICES}
                   && (rec.expires.Some? ==> now / DAY <= rec.expires.value / DAY))
  {
  }

  /** An approval counts to the end of its last day. */
  predicate Current(rec: Record, now: int) {
    rec.expires.None? || now / DAY <= rec.expires.value / DAY
  }

  predicate Listed(rec: Record) {
    rec.scope == DEPARTMENT_WIDE || (rec.scope in {SPECIFIC_USERS, SPECIFIC_DEVICES} && rec.inScope)
  }

  /** Exactly when each verdict is given. */
  lemma VerdictIff(default: string, rec: Option<Record>, now: int)
    ensures var v, discretion := Evaluate(default, rec, now), default == "department_discretion";
            && (v == Allowed <==>
                  || default == "globally_approved"
                  || (discretion && rec.Some? && Current(rec.value, now) && rec.value.status == "approved" && Listed(rec.value)))
            && (v == Prohibited <==>
                  || default == "globally_prohibited"
                  || (discretion && rec.Some? && Current(rec.value, now) && rec.value.status == "prohibited"))
            && (v == Conditional <==>
                  discretion && rec.Some? && Current(rec.value, now) && rec.value.status == "conditional")
            && (v == Expired <==> discretion && rec.Some? && !Current(rec.value, now))
            && (v == Unreviewed <==> default !in {"globally_approved", "globally_prohibited", "department_discretion"})
            && (v == Unapproved <==>
                  discretion && (rec.None? || (Current(rec.value, now) &&
                    (rec.value.status !in {"approved", "conditional", "prohibited"} ||
                     (rec.value.status == "approved" && !Listed(rec.value))))))
  {
    ExpiresAfterItsDay(default, rec, now);
  }
}
