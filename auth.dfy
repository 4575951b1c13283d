/** The bearer-token gate `authenticateToken` (server.js:115-135) and the
    token library it relies on.

    `jwt.sign` and `jwt.verify` are foreign: they enter the model as function
    values (Signer, Verifier) that every operation takes as a parameter.  The
    clock they read is an explicit argument.  What the model needs to know
    about them is stated as named assumptions (OnlySigningSecretVerifies,
    FreshTokensVerify, TokensAreSpaceFree) that a lemma lists in its
    `requires` when it relies on them.
 */
module Auth {
  import opened Js
  import opened Models
  import opened Http

  // ---------------------------------------------------------------------
  // The token library

  /** `jwt.sign(claims, secret, { expiresIn }) ` called at time `now` (seconds). */
  type Signer = (Claims, string, nat, int) -> string

  /** `jwt.verify(token, secret)` called at time `now`: the decoded payload, or
      None for every failure (bad signature, malformed, expired). */
  type Verifier = (string, string, int) -> Option<Decoded>

  /** Assumption: a token verifies under no secret but the one it was signed with. */
  ghost predicate OnlySigningSecretVerifies(sign: Signer, verify: Verifier) {
    forall c, s, e, t, s', now :: s' != s ==> verify(sign(c, s, e, t), s', now) == None
  }

  /** Assumption: until it expires, a token verifies under its own secret and
      decodes to its claims, its issue time and its expiry time. */
  ghost predicate FreshTokensVerify(sign: Signer, verify: Verifier) {
    forall c, s, e: nat, t, now :: t <= now < t + e ==> verify(sign(c, s, e, t), s, now) == Some(Decoded(c, t, t + e))
  }

  /** Assumption: a signed token is a non-empty string with no space in it
      (three base64url segments joined by dots). */
  ghost predicate TokensAreSpaceFree(sign: Signer) {
    forall c, s, e, t :: sign(c, s, e, t) != "" && ' ' !in sign(c, s, e, t)
  }

  // ---------------------------------------------------------------------
  // `authHeader.split(' ')`

  /** JavaScript's `s.split(sep)` for a one-character separator: every
      occurrence of `sep` ends a field, so adjacent separators give an empty
      field and the result is never empty. */
  function Split(s: string, sep: char): (r: seq<string>)
    ensures |r| >= 1
  {
    if s == [] then [[]]
    else
      var rest := Split(s[1..], sep);
      if s[0] == sep then [[]] + rest
      else [[s[0]] + rest[0]] + rest[1..]
  }

  /** `fields.join(sep)`, the inverse of Split. */
  function Join(fields: seq<string>, sep: char): string
    requires |fields| >= 1
  {
    if |fields| == 1 then fields[0] else fields[0] + [sep] + Join(fields[1..], sep)
  }

  /** Joining the fields of a split restores the string, and no field holds the separator. */
  lemma {:induction false} SplitJoin(s: string, sep: char)
    ensures Join(Split(s, sep), sep) == s
    ensures forall k | 0 <= k < |Split(s, sep)| :: sep !in Split(s, sep)[k]
  {
    if s != [] {
      var rest := Split(s[1..], sep);
      SplitJoin(s[1..], sep);
      if s[0] == sep {
        assert ([[]] + rest)[1..] == rest;
      } else {
        var r := [[s[0]] + rest[0]] + rest[1..];
        assert r[1..] == rest[1..];
        forall k | 0 <= k < |r| ensures sep !in r[k] {
          if k > 0 { assert r[k] == rest[k]; }
        }
        if |rest| > 1 {
          assert Join(rest, sep) == rest[0] + [sep] + Join(rest[1..], sep);
        }
      }
    }
  }

  /** A string without the separator splits into itself alone. */
  lemma {:induction false} SplitNoSep(s: string, sep: char)
    requires sep !in s
    ensures Split(s, sep) == [s]
  {
    if s != [] {
      SplitNoSep(s[1..], sep);
      assert [s[0]] + s[1..] == s;
    }
  }

  /** The text before the first separator is the first field; the rest is split on its own. */
  lemma {:induction false} SplitAtFirstSep(w: string, sep: char, t: string)
    requires sep !in w
    ensures Split(w + [sep] + t, sep) == [w] + Split(t, sep)
  {
    var s := w + [sep] + t;
    if w == [] {
      assert s[1..] == t;
    } else {
      assert s[1..] == w[1..] + [sep] + t;
      SplitAtFirstSep(w[1..], sep, t);
      assert [w[0]] + w[1..] == w;
    }
  }

  /** A field that ends the string or is followed by a separator is the first field. */
  lemma FirstField(tok: string, sep: char, tail: string)
    requires sep !in tok && (tail == [] || tail[0] == sep)
    ensures Split(tok + tail, sep)[0] == tok
  {
    if tail == [] {
      SplitNoSep(tok, sep);
      assert tok + tail == tok;
    } else {
      SplitAtFirstSep(tok, sep, tail[1..]);
      assert tok + [sep] + tail[1..] == tok + tail;
    }
  }

  // ---------------------------------------------------------------------
  // The gate

  /** `authHeader && authHeader.split(' ')[1]`, when the result is truthy;
      None stands for every falsy result (undefined or ""). */
  function ExtractToken(header: Option<string>): (t: Option<string>)
    ensures t.Some? ==> t.value != "" && ' ' !in t.value
    ensures t.Some? ==> header.Some? && ' ' in header.value
  {
    if !Truthy(header) then None
    else
      var fields := Split(header.value, ' ');
      SplitJoin(header.value, ' ');
      if |fields| >= 2 && fields[1] != "" then
        assert header.value == fields[0] + [' '] + Join(fields[1..], ' ');
        Some(fields[1])
      else None
  }

  /** The token is whatever follows the first space, up to the next space or
      the end; the word before it (the scheme) is never looked at. */
  lemma TokenAfterFirstSpace(scheme: string, token: string, tail: string)
    requires ' ' !in scheme && ' ' !in token && token != ""
    requires tail == [] || tail[0] == ' '
    ensures ExtractToken(Some(scheme + " " + token + tail)) == Some(token)
  {
    var h := scheme + " " + token + tail;
    assert h == scheme + [' '] + (token + tail);
    SplitAtFirstSep(scheme, ' ', token + tail);
    FirstField(token, ' ', tail);
  }

  /** A header with no space carries no token. */
  lemma NoSpaceNoToken(h: string)
    requires ' ' !in h
    ensures ExtractToken(Some(h)) == None
  {
    SplitNoSep(h, ' ');
  }

  /** A space after the scheme followed by nothing or by a second space
      (`"Bearer "`, `"Bearer  x"`) makes the second field empty: no token. */
  lemma EmptySecondFieldNoToken(scheme: string, rest: string)
    requires ' ' !in scheme
    requires rest == [] || rest[0] == ' '
    ensures ExtractToken(Some(scheme + " " + rest)) == None
  {
    var h := scheme + " " + rest;
    assert h == scheme + [' '] + rest;
    SplitAtFirstSep(scheme, ' ', rest);
    if rest == [] {
      assert Split(rest, ' ') == [[]];
    } else {
      assert rest == [] + [' '] + rest[1..];
      SplitAtFirstSep([], ' ', rest[1..]);
    }
  }

  /** `process.env.JWT_SECRET || 'your-secret-key'` */
  const GateDefaultSecret: string := "your-secret-key"

  function GateSecret(env: Option<string>): string {
    Or(env, GateDefaultSecret)
  }

  const TokenRequired: Reply := Msg(401, "Token required")
  const InvalidToken: Reply := Msg(403, "Invalid token")

  /** What the gate does: answer the request itself, or set `req.user` to
      the decoded payload and call `next()` once. */
  datatype GateResult = Respond(reply: Reply) | Next(user: Decoded)

  /** The decision of `authenticateToken` for an Authorization header. */
  function Gate(header: Option<string>, env: Option<string>, verify: Verifier, now: int): (g: GateResult)
    ensures g == Respond(TokenRequired) <==> ExtractToken(header).None?
    ensures g == Respond(InvalidToken) <==>
      ExtractToken(header).Some? && verify(ExtractToken(header).value, GateSecret(env), now).None?
    ensures g.Next? <==>
      ExtractToken(header).Some? && verify(ExtractToken(header).value, GateSecret(env), now).Some?
    ensures g.Next? ==> verify(ExtractToken(header).value, GateSecret(env), now) == Some(g.user)
  {
    var token := ExtractToken(header);
    if token.None? then Respond(TokenRequired)
    else
      match verify(token.value, GateSecret(env), now)
      case None => Respond(InvalidToken)
      case Some(user) => Next(user)
  }

  /** Without a token the verifier is never consulted: any two verifiers give the same 401. */
  lemma TokenRequiredWithoutVerify(header: Option<string>, env: Option<string>, v1: Verifier, v2: Verifier, now: int)
    requires ExtractToken(header).None?
    ensures Gate(header, env, v1, now) == Gate(header, env, v2, now) == Respond(TokenRequired)
  {
  }

  /** The request object, of which the gate writes only `req.user`. */
  class Request {
    const authorization: Option<string>
    var user: Option<Decoded>

    constructor (authorization: Option<string>)
      ensures this.authorization == authorization && user == None
    {
      this.authorization := authorization;
      user := None;
    }
  }

  /** `authenticateToken(req, res, next)`: returns the reply it sends, or Next
      when it hands the request on, having set `req.user`. */
  method AuthenticateToken(req: Request, env: Option<string>, verify: Verifier, now: int) returns (outcome: GateResult)
    modifies req
    ensures outcome == Gate(req.authorization, env, verify, now)
    ensures req.user == if outcome.Next? then Some(outcome.user) else old(req.user)
  {
    var token := ExtractToken(req.authorization);
    if token.None? {
      return Respond(TokenRequired);
    }
    var decoded := verify(token.value, GateSecret(env), now);
    if decoded.None? {
      return Respond(InvalidToken);
    }
    req.user := decoded;
    outcome := Next(decoded.value);
  }
}
