/**
 * The administrator check that both the order listing and the review
 * endpoint perform: a single shared secret compared with the literal value of
 * the `authorization` header.
 */
module AdminAuth {
  import opened Options
  import opened OrderModel

  const BearerPrefix: string := "Bearer "

  /**
   * The request passes unless the secret is unset or empty, or the header is
   * not exactly the bearer prefix followed by the secret. When it passes, the
   * header splits into the prefix and the secret itself.
   */
  predicate IsAdmin(authorization: Option<string>, adminPassword: Option<string>)
    ensures IsAdmin(authorization, adminPassword) ==>
              && adminPassword.Some? && |adminPassword.value| > 0
              && authorization.Some? && |authorization.value| == |BearerPrefix| + |adminPassword.value|
              && authorization.value[..|BearerPrefix|] == BearerPrefix
              && authorization.value[|BearerPrefix|..] == adminPassword.value
  {
    !(!Filled(adminPassword) || authorization != Some(BearerPrefix + adminPassword.value))
  }

  /** With the secret unset or empty no header is accepted; with it set exactly one header is. */
  lemma AdminHeaderUnique(h1: Option<string>, h2: Option<string>, adminPassword: Option<string>)
    ensures !Filled(adminPassword) ==> !IsAdmin(h1, adminPassword)
    ensures Filled(adminPassword) ==> IsAdmin(Some(BearerPrefix + adminPassword.value), adminPassword)
    ensures IsAdmin(h1, adminPassword) && IsAdmin(h2, adminPassword) ==> h1 == h2
  {
  }
}
