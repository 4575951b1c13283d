/** What happens to a token that login issues when it is later presented to
    the gate.  Login signs with `process.env.JWT_SECRET || 'secret'`
    (server.js:361) and the gate verifies with `process.env.JWT_SECRET ||
    'your-secret-key'` (server.js:126): the two agree only when the
    variable is set.
 */
module Sessions {
  import opened Js
  import opened Models
  import opened Auth
  import opened Admins

  /** With JWT_SECRET set, a login token sent back as `<scheme> <token>`
      before it expires passes the gate, which hands on the admin's claims. */
  lemma ConfiguredSecretAcceptsLoginTokens(admins: seq<Admin>, u: Option<string>, p: Option<string>,
                                           compare: Comparer, sign: Signer, verify: Verifier,
                                           env: Option<string>, now: int, later: int, scheme: string)
    requires FreshTokensVerify(sign, verify) && TokensAreSpaceFree(sign)
    requires Truthy(env)
    requires ' ' !in scheme
    requires now <= later < now + TokenLifetime
    requires LoginReply(admins, u, p, compare, sign, env, now).status == 200
    ensures
      var r := LoginReply(admins, u, p, compare, sign, env, now);
      var v := r.body.admin;
      Gate(Some(scheme + " " + r.body.token), env, verify, later)
        == Next(Decoded(Claims(v.id, v.role, v.username), now, now + TokenLifetime))
  {
    var a := FindByUsername(admins, u.value).value;
    var token := sign(ClaimsOf(a), LoginSecret(env), TokenLifetime, now);
    TokenAfterFirstSpace(scheme, token, []);
    assert scheme + " " + token + [] == scheme + " " + token;
    assert GateSecret(env) == LoginSecret(env);
  }

  /** With JWT_SECRET unset (or empty), the two defaults differ, so every
      token login issues is refused by the gate with 403, at any time. */
  lemma DefaultSecretsRejectLoginTokens(admins: seq<Admin>, u: Option<string>, p: Option<string>,
                                        compare: Comparer, sign: Signer, verify: Verifier,
                                        env: Option<string>, now: int, later: int, scheme: string)
    requires OnlySigningSecretVerifies(sign, verify) && TokensAreSpaceFree(sign)
    requires !Truthy(env)
    requires ' ' !in scheme
    requires LoginReply(admins, u, p, compare, sign, env, now).status == 200
    ensures
      var r := LoginReply(admins, u, p, compare, sign, env, now);
      Gate(Some(scheme + " " + r.body.token), env, verify, later) == Respond(InvalidToken)
  {
    var a := FindByUsername(admins, u.value).value;
    var token := sign(ClaimsOf(a), LoginSecret(env), TokenLifetime, now);
    TokenAfterFirstSpace(scheme, token, []);
    assert scheme + " " + token + [] == scheme + " " + token;
    assert LoginSecret(env) == "secret" != "your-secret-key" == GateSecret(env);
  }
}
