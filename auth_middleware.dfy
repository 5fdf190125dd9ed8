/** The authorization middleware that guards every route except sign-up and
    log-in: it takes the second space-separated field of the `authorization`
    header, hands it to the JWT verifier, and either lets the request through
    or turns the verifier's failure into a 403 or a 401. */
module Auth {
  import opened Schemas

  /** The parts of an Express request the middleware sees or passes on.
      Header names are lower-case, as Express stores them. */
  datatype Request = Request(headers: map<string, string>, verb: string, path: string, body: string)

  /** What `jwtService.verify` does with a token: return, or throw an error
      carrying a message. */
  datatype Verification = Verified | Failed(message: string)

  /** `jwtService.verify` with the configured secret, a foreign call. Its
      argument is `None` when the header has no second field (JavaScript's
      `undefined`). */
  type Verifier = Option<string> -> Verification

  /** `next()` with the request as it came in, or the exception thrown. */
  datatype Outcome = Next(forwarded: Request) | Deny(error: HttpError)

  const AuthorizationHeader := "authorization"
  const JwtExpired := "jwt expired"
  const InvalidToken := "invalid token"
  /** What the JWT library says when it is given no token. */
  const JwtMissing := "jwt must be provided"
  const SessionOver := HttpError(FORBIDDEN, "Sesi is over")
  const TokenNotValid := HttpError(FORBIDDEN, "Token is not valid")
  /** The TypeError message the V8 engine (Node.js 16 and later) raises for
      `undefined.split(' ')`. The wording belongs to the runtime, not to the
      middleware; older runtimes word it differently. */
  const MissingHeaderMessage := "Cannot read properties of undefined (reading 'split')"

  /** The fields separated by `sep`, joined back with `sep`. */
  function Join(fields: seq<string>, sep: char): string
    requires |fields| >= 1
  {
    if |fields| == 1 then fields[0] else fields[0] + [sep] + Join(fields[1..], sep)
  }

  /** JavaScript's `s.split(sep)` for a one-character separator: the maximal
      pieces between separators, empty ones included. */
  function Split(s: string, sep: char): (fields: seq<string>)
    ensures |fields| >= 1
    ensures forall i :: 0 <= i < |fields| ==> sep !in fields[i]
    ensures Join(fields, sep) == s
  {
    if s == [] then [""]
    else
      var rest := Split(s[1..], sep);
      if s[0] == sep then
        assert Join([""] + rest, sep) == [sep] + Join(rest, sep) by {
          assert ([""] + rest)[1..] == rest;
        }
        [""] + rest
      else
        var fields := [[s[0]] + rest[0]] + rest[1..];
        assert Join(fields, sep) == [s[0]] + Join(rest, sep) by {
          if |rest| > 1 {
            assert fields[1..] == rest[1..];
          }
        }
        fields
  }

  /** Splitting a field that holds no separator, followed by a separator and
      more text, yields that field and then the pieces of the rest. */
  lemma {:induction false} SplitAfterField(a: string, sep: char, b: string)
    requires sep !in a
    ensures Split(a + [sep] + b, sep) == [a] + Split(b, sep)
  {
    var s := a + [sep] + b;
    if a == [] {
      assert s == [sep] + b && s[1..] == b;
    } else {
      assert s[0] == a[0] && s[1..] == a[1..] + [sep] + b;
      SplitAfterField(a[1..], sep, b);
      assert [a[0]] + a[1..] == a;
    }
  }

  /** A string without separators is a single field. */
  lemma {:induction false} SplitWithoutSeparator(s: string, sep: char)
    requires sep !in s
    ensures Split(s, sep) == [s]
  {
    if s != [] {
      SplitWithoutSeparator(s[1..], sep);
      assert [s[0]] + s[1..] == s;
    }
  }

  /** `Split` undoes `Join` whenever no field holds the separator. */
  lemma {:induction false} SplitJoin(fields: seq<string>, sep: char)
    requires |fields| >= 1
    requires forall i :: 0 <= i < |fields| ==> sep !in fields[i]
    ensures Split(Join(fields, sep), sep) == fields
  {
    if |fields| == 1 {
      SplitWithoutSeparator(fields[0], sep);
    } else {
      SplitJoin(fields[1..], sep);
      SplitAfterField(fields[0], sep, Join(fields[1..], sep));
      assert [fields[0]] + fields[1..] == fields;
    }
  }

  /** `header.split(' ')[1]`: the second space-separated field, or `None`
      (`undefined`) when there is none. */
  function BearerToken(header: string): (token: Option<string>)
    ensures token.Some? <==> ' ' in header
    ensures token.Some? ==> ' ' !in token.value
  {
    var fields := Split(header, ' ');
    if |fields| >= 2 then Some(fields[1])
    else
      assert ' ' !in header by { assert fields == [fields[0]] && Join(fields, ' ') == fields[0]; }
      None
  }

  /** A header made of two or more space-free words, one space between
      each, yields its second word, whatever the first one says: the scheme
      is never checked, and any words after the token are ignored. */
  lemma BearerTokenOf(words: seq<string>)
    requires |words| >= 2
    requires forall i :: 0 <= i < |words| ==> ' ' !in words[i]
    ensures BearerToken(Join(words, ' ')) == Some(words[1])
  {
    SplitJoin(words, ' ');
  }

  /** The catch block: the two messages it recognises become 403s, anything
      else a 401 carrying the original message. */
  function Classify(message: string): (e: HttpError)
    ensures message == JwtExpired ==> e == SessionOver
    ensures message == InvalidToken ==> e == TokenNotValid
    ensures message != JwtExpired && message != InvalidToken ==> e == HttpError(UNAUTHORIZED, message)
    ensures e.status == FORBIDDEN <==> message == JwtExpired || message == InvalidToken
  {
    if message == JwtExpired then SessionOver
    else if message == InvalidToken then TokenNotValid
    else HttpError(UNAUTHORIZED, message)
  }

  /** `AuthMiddleware.use`. */
  function Use(req: Request, verify: Verifier): (o: Outcome)
    ensures o.Next? <==>
      AuthorizationHeader in req.headers && verify(BearerToken(req.headers[AuthorizationHeader])) == Verified
    ensures o.Next? ==> o.forwarded == req
    ensures AuthorizationHeader !in req.headers ==> o == Deny(HttpError(UNAUTHORIZED, MissingHeaderMessage))
    ensures AuthorizationHeader in req.headers && verify(BearerToken(req.headers[AuthorizationHeader])).Failed? ==>
      o == Deny(Classify(verify(BearerToken(req.headers[AuthorizationHeader])).message))
    ensures o.Deny? ==> o.error.status == UNAUTHORIZED || o.error.status == FORBIDDEN
  {
    if AuthorizationHeader !in req.headers then
      Deny(HttpError(UNAUTHORIZED, MissingHeaderMessage))
    else
      match verify(BearerToken(req.headers[AuthorizationHeader]))
      case Verified => Next(req)
      case Failed(message) => Deny(Classify(message))
  }

  /** A well-formed `Bearer <token>` header is let through exactly when the
      verifier accepts `<token>`, and an expired token is refused with 403. */
  lemma UseBearer(req: Request, verify: Verifier, token: string)
    requires ' ' !in token
    requires AuthorizationHeader in req.headers && req.headers[AuthorizationHeader] == "Bearer " + token
    ensures Use(req, verify).Next? <==> verify(Some(token)) == Verified
    ensures verify(Some(token)) == Failed(JwtExpired) ==> Use(req, verify) == Deny(SessionOver)
  {
    var words := ["Bearer", token];
    assert Join(words, ' ') == "Bearer " + token by {
      assert words[1..] == [token];
    }
    BearerTokenOf(words);
  }

  /** A header with no second field hands the verifier `undefined`; the
      library's refusal of that becomes a 401 carrying its message. */
  lemma UseMissingToken(req: Request, verify: Verifier)
    requires AuthorizationHeader in req.headers && ' ' !in req.headers[AuthorizationHeader]
    requires verify(None) == Failed(JwtMissing)
    ensures Use(req, verify) == Deny(HttpError(UNAUTHORIZED, JwtMissing))
  {
  }
}
