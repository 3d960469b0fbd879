/** The caller of the query API, and how many rows it may ask for. */
module ApiIdentities {
  import opened Common

  datatype Identity = Identity(subject: string, authType: string, roles: set<string>) {
    predicate IsAuthenticated() {
      authType == "jwt" || authType == "api_key"
    }
  }

  datatype RowLimits = RowLimits(anonymous: nat, apiKey: nat, basicUser: nat, authenticated: nat)

  /** `_record_limit_for_identity`: the cap on the rows of one response, if any. */
  function RowCap(limits: RowLimits, identity: Identity): Option<nat> {
    if "admin" in identity.roles then None
    else if "basic-user" in identity.roles then Some(limits.basicUser)
    else if identity.authType == "api_key" then Some(limits.apiKey)
    else if identity.IsAuthenticated() then Some(limits.authenticated)
    else Some(limits.anonymous)
  }

  /** `apply_role_record_limit`. */
  function EffectiveLimit(cap: Option<nat>, requested: Option<nat>): Option<nat> {
    if cap.None? then requested
    else if requested.None? then cap
    else Some(if requested.value <= cap.value then requested.value else cap.value)
  }

  /** The limit a link carries is not changed when the link is followed, and no request gets past the cap. */
  lemma EffectiveLimitIsStable(limits: RowLimits, identity: Identity, requested: Option<nat>)
    ensures var cap, limit := RowCap(limits, identity), EffectiveLimit(RowCap(limits, identity), requested);
            && EffectiveLimit(cap, limit) == limit
            && (limit.None? <==> requested.None? && "admin" in identity.roles)
            && (limit.Some? && requested.Some? ==> limit.value <= requested.value)
            && (cap.Some? ==> limit.Some? && limit.value <= cap.value)
  {
  }

  /** Which cap applies to whom: an administrator's role beats the basic role, which beats how the caller logged in. */
  lemma CapByCaller(limits: RowLimits, identity: Identity)
    ensures "admin" in identity.roles ==> RowCap(limits, identity) == None
    ensures "admin" !in identity.roles && "basic-user" in identity.roles ==>
              RowCap(limits, identity) == Some(limits.basicUser)
    ensures identity.roles !! {"admin", "basic-user"} ==>
              RowCap(limits, identity) == if identity.authType == "api_key" then Some(limits.apiKey)
                                          else if identity.authType == "jwt" then Some(limits.authenticated)
                                          else Some(limits.anonymous)
  {
  }

  /** The effective limit is the largest number of rows that neither the request nor the cap forbids. */
  lemma EffectiveLimitIsLargest(cap: Option<nat>, requested: Option<nat>, rows: nat)
    ensures (EffectiveLimit(cap, requested).Some? ==> rows <= EffectiveLimit(cap, requested).value) <==>
            (cap.Some? ==> rows <= cap.value) && (requested.Some? ==> rows <= requested.value)
    ensures EffectiveLimit(cap, requested).None? <==> cap.None? && requested.None?
  {
  }
}
