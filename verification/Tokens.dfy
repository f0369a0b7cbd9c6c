/** A granted token and the cell that several clients share it in. */
module Tokens {
  import opened Wrappers

  const MAX_TOKEN_TTL_SECS := 365 * 86400

  /** Times are seconds. An empty access token is none. */
  datatype GrantedToken = GrantedToken(access: string, refresh: Option<string>, hardExpiresAt: int, refreshAfter: int) {
    predicate IsValidAt(now: int) {
      access != "" && now < hardExpiresAt
    }

    predicate NeedsRefreshAt(now: int) {
      now >= refreshAfter
    }

    /** The token revoked as of `now`; its refresh token stays. */
    function Invalidated(now: int): GrantedToken {
      this.(access := "", hardExpiresAt := now, refreshAfter := now)
    }
  }

  /** How long before its expiry a grant of `secs` is renewed. */
  function RenewalBuffer(secs: nat): nat {
    if secs > 120 then 60
    else if secs > 1 then Min(Max(secs / 5, 1), secs - 1)
    else 0
  }

  function Lasting(access: string, refresh: Option<string>, secs: nat, now: int): GrantedToken {
    var safe := Min(secs, MAX_TOKEN_TTL_SECS);
    GrantedToken(access, refresh, now + safe, now + safe - RenewalBuffer(safe))
  }

  /** `GrantedToken::new`: a grant without a lifetime is no access token. */
  function NewGrant(access: string, refresh: Option<string>, expiresIn: Option<nat>, now: int): GrantedToken {
    if expiresIn.Some? && expiresIn.value > 0 then Lasting(access, refresh, expiresIn.value, now)
    else GrantedToken("", refresh, now, now)
  }

  /** The token endpoint's success answer; an empty refresh token counts as none. */
  datatype TokenResponse = TokenResponse(access: string, refresh: Option<string>, expiresIn: Option<nat>)

  /** What a token request may come to: a grant, a refusal of the credentials, or neither. */
  datatype Answer = Grant(response: TokenResponse) | RefusedGrant | NoGrant

  datatype Failure = Rejected | OtherFailure

  /** `GrantedToken::from_response`: without a new refresh token the previous one stays. */
  function FromResponse(response: TokenResponse, previous: Option<string>, now: int): GrantedToken {
    var refresh := if response.refresh.Some? && response.refresh.value != "" then response.refresh else previous;
    NewGrant(response.access, refresh, response.expiresIn, now)
  }

  /** `GrantedToken::rehydrate`: a saved access token with what remains of its lifetime. */
  function Rehydrate(access: string, refresh: Option<string>, remaining: nat, now: int): GrantedToken {
    Lasting(access, refresh, remaining, now)
  }

  /** A grant is used from the start, renewed before it expires if it lasts more than a second, and never
      used beyond what was granted. */
  lemma GrantWindow(access: string, refresh: Option<string>, expiresIn: Option<nat>, now: int, t: int)
    ensures var g := NewGrant(access, refresh, expiresIn, now);
            var secs := if expiresIn.Some? then expiresIn.value else 0;
            && (g.IsValidAt(t) ==> t < now + secs)
            && (g.IsValidAt(now) <==> access != "" && secs > 0)
            && (g.NeedsRefreshAt(now) <==> secs == 0)
            && (secs > 1 ==> now < g.refreshAfter < g.hardExpiresAt)
            && (access != "" && t < g.refreshAfter ==> g.IsValidAt(t) || secs == 0)
            && g.hardExpiresAt == now + Min(secs, 31536000)
            && g.hardExpiresAt - g.refreshAfter
               == (if secs > 120 then 60 else if secs >= 10 then secs / 5 else if secs >= 2 then 1 else 0)
            && (secs > 0 ==> g.access == access) && (secs == 0 ==> g.access == "")
            && g.refresh == refresh
  {
  }

  /** A token saved earlier keeps what remains of its lifetime, and its refresh token. */
  lemma RehydratedWindow(access: string, refresh: Option<string>, remaining: nat, now: int)
    ensures var g := Rehydrate(access, refresh, remaining, now);
            && g.access == access && g.refresh == refresh && g.hardExpiresAt == now + Min(remaining, 31536000)
            && g.hardExpiresAt - g.refreshAfter
               == (if remaining > 120 then 60 else if remaining >= 10 then remaining / 5 else if remaining >= 2 then 1 else 0)
  {
  }

  /** The refresh token a grant brings is adopted; without one (or with an empty one) the previous stays. The
      access token is the granted one exactly if it was granted for any time. */
  lemma GrantIsAdopted(response: TokenResponse, previous: Option<string>, now: int)
    ensures var g := FromResponse(response, previous, now);
            && (response.refresh.Some? && response.refresh.value != "" ==> g.refresh == response.refresh)
            && (response.refresh.None? || response.refresh.value == "" ==> g.refresh == previous)
            && (response.expiresIn.Some? && response.expiresIn.value > 0 ==>
                  g.access == response.access && (response.access != "" ==> g.IsValidAt(now) && !g.NeedsRefreshAt(now)))
            && (response.expiresIn.None? || response.expiresIn.value == 0 ==> g.access == "" && !g.IsValidAt(now))
  {
  }

  /** What the cell's slot holds. */
  type Slot = Option<GrantedToken>

  function RefreshOf(slot: Slot): Option<string> {
    if slot.Some? then slot.value.refresh else None
  }

  function BearerOf(slot: Slot): string {
    if slot.Some? then slot.value.access else ""
  }

  function ValidToken(slot: Slot, now: int): Option<string> {
    if slot.Some? && slot.value.IsValidAt(now) then Some(slot.value.access) else None
  }

  predicate NeedsRefresh(slot: Slot, now: int) {
    slot.None? || slot.value.NeedsRefreshAt(now)
  }

  /** The refresh token a grant brings that the slot did not hold. */
  function Rotated(slot: Slot, token: GrantedToken): Option<string> {
    if token.refresh.Some? && token.refresh != RefreshOf(slot) then token.refresh else None
  }

  /** The slot once access token `current` was refused. */
  function Invalidated(slot: Slot, current: string, now: int): Slot {
    if slot.Some? && slot.value.access == current then Some(slot.value.Invalidated(now)) else slot
  }

  /** A refused token is gone for good, a newer one stays, and the refresh token stays either way. */
  lemma InvalidationIsExact(slot: Slot, current: string, now: int, t: int)
    requires current != ""
    ensures BearerOf(Invalidated(slot, current, now)) != current
    ensures RefreshOf(Invalidated(slot, current, now)) == RefreshOf(slot)
    ensures BearerOf(slot) != current ==> Invalidated(slot, current, now) == slot
    ensures ValidToken(Invalidated(slot, current, now), t) == if ValidToken(slot, t) == Some(current) then None else ValidToken(slot, t)
  {
  }

  /** The cell after a grant: its refresh token is the one the grant brings, or else the one presented; its access
      token the granted one if it was granted for any time. */
  ghost predicate Adopted(slot: Slot, response: TokenResponse, presented: Option<string>) {
    && slot.Some?
    && (response.refresh.Some? && response.refresh.value != "" ==> slot.value.refresh == response.refresh)
    && (response.refresh.None? || response.refresh.value == "" ==> slot.value.refresh == presented)
    && slot.value.access == (if response.expiresIn.Some? && response.expiresIn.value > 0 then response.access else "")
  }

  class TokenCell {
    var slot: Slot
    var listening: bool
    /** What the rotation listener was told. */
    var told: seq<string>

    /** `with_refresh_token` */
    constructor (refreshToken: Option<string>, now: int)
      ensures RefreshOf(slot) == if refreshToken == Some("") then None else refreshToken
      ensures BearerOf(slot) == "" && NeedsRefresh(slot, now) && told == [] && !listening
    {
      slot := if refreshToken.Some? && refreshToken.value != "" then Some(GrantedToken("", refreshToken, now, now)) else None;
      listening := false;
      told := [];
    }

    method SetRotationListener()
      modifies this
      ensures listening && slot == old(slot) && told == old(told)
    {
      listening := true;
    }

    /** Store a grant, and tell the listener if its refresh token is not the one held before. */
    method SetGranted(token: GrantedToken)
      modifies this
      ensures slot == Some(token) && listening == old(listening)
      ensures listening && token.refresh.Some? && token.refresh != RefreshOf(old(slot)) ==> told == old(told) + [token.refresh.value]
      ensures !listening || token.refresh.None? || token.refresh == RefreshOf(old(slot)) ==> told == old(told)
      ensures told == if listening && Rotated(old(slot), token).Some? then old(told) + [Rotated(old(slot), token).value] else old(told)
    {
      var previous := if slot.Some? then slot.value.refresh else None;
      var rotated := if token.refresh.Some? && previous != Some(token.refresh.value) then token.refresh else None;
      slot := Some(token);
      if rotated.Some? && listening {
        told := told + [rotated.value];
      }
    }

    method Invalidate(current: string, now: int)
      modifies this
      ensures slot == Invalidated(old(slot), current, now) && listening == old(listening) && told == old(told)
    {
      if slot.Some? && slot.value.access == current {
        slot := Some(slot.value.(access := "", hardExpiresAt := now, refreshAfter := now));
      }
    }

    method ValidAccessTokenAt(now: int) returns (token: Option<string>)
      ensures token == ValidToken(slot, now)
    {
      if slot.Some? && slot.value.IsValidAt(now) {
        return Some(slot.value.access);
      }
      return None;
    }
  }
}
