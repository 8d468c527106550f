/** `verifyToken`: the Express middleware that admits a request only when
    its `Authorization` header carries a token that verifies. */
module AuthMiddleware {
  import opened Common
  import opened Text

  /** The token payload `{ id }`. */
  datatype Claims = Claims(id: ObjectId)

  datatype ErrorBody = ErrorBody(error: string)

  const AccessDenied := "Access denied"
  const InvalidToken := "Invalid token"

  /** `header.split(" ")[1]`: the text between the first and the second
      space, or the end; `undefined` when the header has no space. */
  function ExtractToken(header: string): (r: Option<string>)
    ensures r.None? <==> ' ' !in header
    ensures r.Some? ==> ' ' !in r.value
  {
    SplitSingleIff(header, ' ');
    SplitJoin(header, ' ');
    var parts := Split(header, ' ');
    if |parts| >= 2 then Some(parts[1]) else None
  }

  /** The token is the second space-separated word, whatever follows it. */
  lemma TokenIsSecondWord(scheme: string, token: string, rest: string)
    requires ' ' !in scheme && ' ' !in token
    ensures ExtractToken(scheme + " " + token) == Some(token)
    ensures ExtractToken(scheme + " " + token + " " + rest) == Some(token)
  {
    SplitAtFirst(scheme, token, ' ');
    SplitWithoutSeparator(token, ' ');
    assert scheme + " " + token == scheme + [' '] + token;
    SplitAtFirst(scheme, token + " " + rest, ' ');
    SplitAtFirst(token, rest, ' ');
    assert scheme + " " + token + " " + rest == scheme + [' '] + (token + [' '] + rest);
  }

  /** The request and response as the middleware sees them. */
  class Exchange {
    /** `req.user` */
    var user: Option<Claims>
    /** How many times `next` was called. */
    var nextCalls: nat
    /** The response sent, if any. */
    var response: Option<Reply<ErrorBody>>

    constructor ()
      ensures user == None && nextCalls == 0 && response == None
    {
      user, nextCalls, response := None, 0, None;
    }

    /** `verifyToken(req, res, next)` for the header `header`; `verify` is
        `jwt.verify` with the server's secret, `None` when it throws. A
        missing or empty header gets 401. A header without a space, an
        empty token (which `jwt.verify` always rejects, as "jwt must be
        provided") or a token that does not verify gets 400. Only on
        success is the payload stored in `req.user` and `next` called,
        exactly once. */
    method VerifyToken(header: Option<string>, verify: string -> Option<Claims>)
      modifies this
      ensures !Truthy(header) ==>
                response == Some(Reply(401, ErrorBody(AccessDenied)))
                && user == old(user) && nextCalls == old(nextCalls)
      ensures Truthy(header) && !Truthy(ExtractToken(header.value)) ==>
                response == Some(Reply(400, ErrorBody(InvalidToken)))
                && user == old(user) && nextCalls == old(nextCalls)
      ensures Truthy(header) && Truthy(ExtractToken(header.value)) && verify(ExtractToken(header.value).value).None? ==>
                response == Some(Reply(400, ErrorBody(InvalidToken)))
                && user == old(user) && nextCalls == old(nextCalls)
      ensures Truthy(header) && Truthy(ExtractToken(header.value)) && verify(ExtractToken(header.value).value).Some? ==>
                user == verify(ExtractToken(header.value).value)
                && nextCalls == old(nextCalls) + 1 && response == old(response)
    {
      if !Truthy(header) {
        response := Some(Reply(401, ErrorBody(AccessDenied)));
        return;
      }
      var token := ExtractToken(header.value);
      var verified := if Truthy(token) then verify(token.value) else None;
      if verified.None? {
        response := Some(Reply(400, ErrorBody(InvalidToken)));
        return;
      }
      user := verified;
      nextCalls := nextCalls + 1;
    }
  }
}
