/** One client's `ensure_token` and `send`, between two of its waits undisturbed by the others. */
module ApiClients {
  import opened Wrappers
  import opened Tokens

  /** What a token request presents. */
  datatype Credential = ByRefreshToken(token: string) | ByPassword

  /** A listener was told a refresh token the cell did not hold before, and nothing else. */
  ghost predicate ToldIfNew(told: seq<string>, told': seq<string>, listening: bool, before: Slot, after: Slot) {
    if listening && RefreshOf(after).Some? && RefreshOf(after) != RefreshOf(before) then
      told' == told + [RefreshOf(after).value]
    else told' == told
  }

  function CredentialFor(slot: Slot): Credential {
    if RefreshOf(slot).Some? then ByRefreshToken(RefreshOf(slot).value) else ByPassword
  }

  /** A request with a bearer token: answered 401 or not, or not answered. */
  datatype ApiCall = ApiCall(token: string, unauthorized: Option<bool>)

  class ApiClient {
    const tokens: TokenCell
    const password: string
    /** The clock, which never goes back. */
    var now: int
    /** What was presented to the token endpoint, and the requests made. */
    var asked: seq<Credential>
    var calls: seq<ApiCall>

    constructor (tokens: TokenCell, password: string, now: int)
      ensures this.tokens == tokens && this.password == password && this.now == now && asked == [] && calls == []
    {
      this.tokens := tokens;
      this.password := password;
      this.now := now;
      asked, calls := [], [];
    }

    method CurrentTime() returns (t: int)
      modifies this`now
      ensures old(now) <= now == t
    {
      var later: int := *;
      now := Max(now, later);
      t := now;
    }

    /** `token_request`: a grant is stored in the cell, anything else leaves it alone. */
    method TokenRequest(credential: Credential, previous: Option<string>) returns (answer: Answer)
      modifies this`now, this`asked, tokens
      ensures old(now) <= now && asked == old(asked) + [credential] && tokens.listening == old(tokens.listening)
      ensures !answer.Grant? ==> tokens.slot == old(tokens.slot) && tokens.told == old(tokens.told)
      ensures answer.Grant? ==>
                && Adopted(tokens.slot, answer.response, previous)
                && ToldIfNew(old(tokens.told), tokens.told, tokens.listening, old(tokens.slot), tokens.slot)
      ensures answer.Grant? ==>
                && tokens.slot == Some(FromResponse(answer.response, previous, now))
                && tokens.told == old(tokens.told)
                   + (if tokens.listening && Rotated(old(tokens.slot), tokens.slot.value).Some?
                      then [Rotated(old(tokens.slot), tokens.slot.value).value] else [])
    {
      asked := asked + [credential];
      answer := *;
      if answer.Grant? {
        var at := CurrentTime();
        GrantIsAdopted(answer.response, previous, at);
        tokens.SetGranted(FromResponse(answer.response, previous, at));
      }
    }

    /** The token in the cell if it is valid and not yet due. */
    method Usable() returns (token: Option<string>)
      modifies this`now
      ensures old(now) <= now
      ensures token == if NeedsRefresh(tokens.slot, now) then None else ValidToken(tokens.slot, now)
    {
      var at := CurrentTime();
      token := tokens.ValidAccessTokenAt(at);
      if NeedsRefresh(tokens.slot, at) {
        return None;
      }
    }

    /** A valid access token: the cell's, if it is not due, or else after one token request. `answer` is what
        that request came to. */
    method EnsureToken() returns (r: Result<string, Failure>, ghost answer: Option<Answer>)
      modifies this`now, this`asked, tokens
      ensures old(now) <= now && tokens.listening == old(tokens.listening)
      ensures asked == old(asked) + if answer.None? then [] else [CredentialFor(old(tokens.slot))]
      ensures answer.Some? ==>
                asked[|asked| - 1] == if RefreshOf(old(tokens.slot)).Some? then ByRefreshToken(RefreshOf(old(tokens.slot)).value) else ByPassword
      ensures answer.None? || !answer.value.Grant? ==> tokens.slot == old(tokens.slot) && tokens.told == old(tokens.told)
      ensures answer.None? ==> r.Ok? || (r.error.Rejected? && RefreshOf(tokens.slot).None? && password == "")
      ensures answer.Some? ==> NeedsRefresh(old(tokens.slot), now) || ValidToken(old(tokens.slot), now).None?
      ensures answer == Some(RefusedGrant) ==> r == Err(Rejected)
      ensures answer.Some? && !answer.value.RefusedGrant? ==>
                r == if ValidToken(tokens.slot, now).Some? && (answer.value.Grant? || RefreshOf(old(tokens.slot)).Some?)
                     then Ok(ValidToken(tokens.slot, now).value) else Err(OtherFailure)
      ensures answer.Some? && answer.value.Grant? ==>
                && (exists at | old(now) <= at <= now ::
                      tokens.slot == Some(FromResponse(answer.value.response, RefreshOf(old(tokens.slot)), at)))
                && (tokens.listening && RefreshOf(tokens.slot) != RefreshOf(old(tokens.slot)) && RefreshOf(tokens.slot).Some? ==>
                      tokens.told == old(tokens.told) + [RefreshOf(tokens.slot).value])
      ensures answer.Some? && answer.value.Grant? ==>
                && Adopted(tokens.slot, answer.value.response, RefreshOf(old(tokens.slot)))
                && ToldIfNew(old(tokens.told), tokens.told, tokens.listening, old(tokens.slot), tokens.slot)
      ensures RefreshOf(old(tokens.slot)).Some? ==> RefreshOf(tokens.slot).Some?
      ensures r.Ok? ==> r.value != "" && r.value == BearerOf(tokens.slot)
    {
      var token := Usable();
      if token.Some? {
        return Ok(token.value), None;
      }
      // the renewal lock is taken here, and the cell looked at again
      token := Usable();
      if token.Some? {
        return Ok(token.value), None;
      }
      var refresh := if tokens.slot.Some? then tokens.slot.value.refresh else None;
      if refresh.Some? {
        var a := TokenRequest(ByRefreshToken(refresh.value), refresh);
        answer := Some(a);
        if a.RefusedGrant? {
          return Err(Rejected), answer;
        }
      } else if password == "" {
        return Err(Rejected), None;
      } else {
        var a := TokenRequest(ByPassword, None);
        answer := Some(a);
        if a.RefusedGrant? {
          return Err(Rejected), answer;
        }
        if a.NoGrant? {
          return Err(OtherFailure), answer;
        }
      }
      var at := CurrentTime();
      token := tokens.ValidAccessTokenAt(at);
      r := if token.Some? then Ok(token.value) else Err(OtherFailure);
    }

    method Call(token: string) returns (unauthorized: Option<bool>)
      modifies this`calls
      ensures calls == old(calls) + [ApiCall(token, unauthorized)]
    {
      unauthorized := *;
      calls := calls + [ApiCall(token, unauthorized)];
    }

    /** Send a request; after a 401, once more with a token granted since. The result says whether it ended in
        a 401; `renewal` is what the token request after the first 401 came to. */
    method Send() returns (r: Result<bool, Failure>, ghost renewal: Option<Answer>)
      modifies this, tokens
      ensures old(calls) <= calls && |calls| <= |old(calls)| + 2 && |asked| <= |old(asked)| + 2
      ensures RefreshOf(old(tokens.slot)).Some? ==> RefreshOf(tokens.slot).Some?
      ensures var made := calls[|old(calls)|..];
              && (made == [] ==> r.Err?)
              && (|made| == 1 ==> r.Err? || r == Ok(false))
              && (|made| == 1 && r.Ok? ==> made[0].unauthorized == Some(false))
              && (|made| == 2 ==>
                    && made[0].unauthorized == Some(true)
                    && renewal.Some? && renewal.value.Grant? && made[1].token == renewal.value.response.access
                    && r == match made[1].unauthorized { case None => Err(OtherFailure) case Some(b) => Ok(b) })
              && (r == Ok(true) ==> BearerOf(tokens.slot) != made[1].token)
    {
      renewal := None;
      var token, answer := EnsureToken();
      if token.Err? {
        return Err(token.error), renewal;
      }
      var unauthorized := Call(token.value);
      if unauthorized.None? {
        return Err(OtherFailure), renewal;
      }
      if !unauthorized.value {
        return Ok(false), renewal;
      }
      var at := CurrentTime();
      tokens.Invalidate(token.value, at);
      ghost var revoked := tokens.slot;
      token, renewal := EnsureToken();
      if token.Err? {
        return Err(token.error), renewal;
      }
      // the cell had no access token left, so this one was granted since
      assert BearerOf(revoked) == "";
      unauthorized := Call(token.value);
      if unauthorized.None? {
        return Err(OtherFailure), renewal;
      }
      if unauthorized.value {
        at := CurrentTime();
        tokens.Invalidate(token.value, at);
      }
      return Ok(unauthorized.value), renewal;
    }
  }
}
