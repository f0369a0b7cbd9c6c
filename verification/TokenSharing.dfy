/** Several clients obtain, renew and invalidate tokens through one shared cell, their steps interleaved in any
    order. The server may answer anything, but issues access and refresh tokens the cell has not held before
    (or repeats the refresh token it was presented). */
module TokenSharing {
  import opened Wrappers
  import opened Tokens

  /** How a client's last call ended. */
  datatype Outcome = Token(token: string) | Failed(failure: Failure) | Answered(unauthorized: bool)

  /** Where a client is. From `Locked` to `Concluding` it holds the renewal lock. */
  datatype Pc =
    | Idle
    | Peeking                                  // about to look for a valid token
    | Peeked(token: string, at: int)           // found one; is it due for renewal?
    | Waiting                                  // for the renewal lock
    | Locked                                   // about to look again
    | Rechecked(token: string, at: int)
    | Renewing                                 // about to read the refresh token
    | Asking(presented: Option<string>)        // a token request is out: the refresh token, or the password
    | Storing(grant: GrantedToken)
    | Telling(rotated: string)                 // stored; the listener is still to be told
    | Concluding                               // about to look for the token to return
    | Calling(token: string)                   // a request is out with this token
    | Refused(token: string)                   // it was answered 401
  {
    predicate HoldsLock() {
      Locked? || Rechecked? || Renewing? || Asking? || Storing? || Telling? || Concluding?
    }

    /** A token request is out, or its answer is being stored. */
    predicate IsRenewal() {
      Asking? || Storing? || Telling?
    }

    /** The access token in hand. */
    function InHand(): Option<string> {
      if Peeked? || Rechecked? || Calling? || Refused? then Some(token) else None
    }
  }

  /** `sending`: in `send`, not just `ensure_token`; `refused`: the token its first request was refused with. */
  datatype Client = Client(pc: Pc, sending: bool, requests: nat, refused: Option<string>, password: bool, outcome: Option<Outcome>)

  /** `held` and `bearers` are the refresh and access tokens the cell has ever held. */
  datatype State = State(
    now: int,
    slot: Slot,
    initial: Option<string>,
    told: seq<string>,
    holder: Option<nat>,
    clients: seq<Client>,
    held: set<string>,
    bearers: set<string>)

  datatype Action =
    | Tick(to: int)
    | Begin(c: nat, sending: bool)
    | Peek(c: nat)
    | Judge(c: nat)
    | Lock(c: nat)
    | Recheck(c: nat)
    | Choose(c: nat)
    | Reply(c: nat, answer: Answer)
    | Store(c: nat)
    | Tell(c: nat)
    | Conclude(c: nat)
    | Respond(c: nat, status: Option<bool>)    // a request's answer: 401 or not, or none
    | Forget(c: nat)
    | Drop(c: nat)                             // the caller drops the future where it waits

  /** A server that issues fresh tokens. */
  ghost predicate Fresh(s: State, presented: Option<string>, response: TokenResponse) {
    && (response.access != "" ==> response.access !in s.bearers)
    && (response.refresh.Some? && response.refresh.value != "" && response.refresh != presented ==>
          response.refresh.value !in s.held)
  }

  ghost predicate Enabled(s: State, a: Action) {
    match a
    case Tick(to) => s.now <= to
    case _ =>
      && a.c < |s.clients|
      && var pc := s.clients[a.c].pc;
         match a
         case Tick(_) => true
         case Begin(_, _) => pc.Idle?
         case Peek(_) => pc.Peeking?
         case Judge(_) => pc.Peeked? || pc.Rechecked?
         case Lock(_) => pc.Waiting? && s.holder.None?
         case Recheck(_) => pc.Locked?
         case Choose(_) => pc.Renewing?
         case Reply(_, answer) => pc.Asking? && (answer.Grant? ==> Fresh(s, pc.presented, answer.response))
         case Store(_) => pc.Storing?
         case Tell(_) => pc.Telling?
         case Conclude(_) => pc.Concluding?
         case Respond(_, _) => pc.Calling?
         case Forget(_) => pc.Refused?
         case Drop(_) => pc.Waiting? || pc.Asking? || pc.Calling?
  }

  function At(s: State, c: nat, pc: Pc): State
    requires c < |s.clients|
  {
    s.(clients := s.clients[c := s.clients[c].(pc := pc)])
  }

  /** Let go of the renewal lock, if `c` holds it. */
  function Released(s: State, c: nat): State {
    if s.holder == Some(c) then s.(holder := None) else s
  }

  /** The call of client `c` ends. */
  function Ends(s: State, c: nat, outcome: Outcome): State
    requires c < |s.clients|
  {
    Released(s.(clients := s.clients[c := s.clients[c].(pc := Idle, outcome := Some(outcome))]), c)
  }

  /** `ensure_token` returns a token: to the caller, or to `send`, which uses it. */
  function Obtained(s: State, c: nat, token: string): State
    requires c < |s.clients|
  {
    if s.clients[c].sending then
      Released(s.(clients := s.clients[c := s.clients[c].(pc := Calling(token), requests := s.clients[c].requests + 1)]), c)
    else Ends(s, c, Token(token))
  }

  function Apply(s: State, a: Action): State
    requires Enabled(s, a)
  {
    match a
    case Tick(to) => s.(now := to)
    case Begin(c, sending) =>
      s.(clients := s.clients[c := s.clients[c].(pc := Peeking, sending := sending, requests := 0, refused := None, outcome := None)])
    case Peek(c) =>
      var found := ValidToken(s.slot, s.now);
      At(s, c, if found.Some? then Peeked(found.value, s.now) else Waiting)
    case Judge(c) =>
      var pc := s.clients[c].pc;
      if !NeedsRefresh(s.slot, pc.at) then Obtained(s, c, pc.token)
      else At(s, c, if pc.Peeked? then Waiting else Renewing)
    case Lock(c) => At(s.(holder := Some(c)), c, Locked)
    case Recheck(c) =>
      var found := ValidToken(s.slot, s.now);
      At(s, c, if found.Some? then Rechecked(found.value, s.now) else Renewing)
    case Choose(c) =>
      if RefreshOf(s.slot).Some? then At(s, c, Asking(RefreshOf(s.slot)))
      else if !s.clients[c].password then Ends(s, c, Failed(Rejected))
      else At(s, c, Asking(None))
    case Reply(c, answer) =>
      var presented := s.clients[c].pc.presented;
      (match answer
       case Grant(response) => At(s, c, Storing(FromResponse(response, presented, s.now)))
       case RefusedGrant => Ends(s, c, Failed(Rejected))
       case NoGrant => if presented.Some? then At(s, c, Concluding) else Ends(s, c, Failed(OtherFailure)))
    case Store(c) =>
      var grant := s.clients[c].pc.grant;
      var rotated := Rotated(s.slot, grant);
      At(s.(slot := Some(grant),
            held := s.held + (if grant.refresh.Some? then {grant.refresh.value} else {}),
            bearers := s.bearers + {grant.access}),
         c, if rotated.Some? then Telling(rotated.value) else Concluding)
    case Tell(c) => At(s.(told := s.told + [s.clients[c].pc.rotated]), c, Concluding)
    case Conclude(c) =>
      var found := ValidToken(s.slot, s.now);
      if found.Some? then Obtained(s, c, found.value) else Ends(s, c, Failed(OtherFailure))
    case Respond(c, status) =>
      if status.None? then Ends(s, c, Failed(OtherFailure))
      else if status.value then At(s, c, Refused(s.clients[c].pc.token))
      else Ends(s, c, Answered(false))
    case Forget(c) =>
      var token := s.clients[c].pc.token;
      var s' := s.(slot := Invalidated(s.slot, token, s.now));
      if s.clients[c].refused.None? then s'.(clients := s.clients[c := s.clients[c].(pc := Peeking, refused := Some(token))])
      else Ends(s', c, Answered(true))
    case Drop(c) => Released(At(s, c, Idle), c)
  }

  // ---- what holds in every reachable state ----

  /** The refresh token the listener knows of: the last it was told, or the one it started with. */
  function LastKnown(s: State): Option<string> {
    if s.told == [] then s.initial else Some(s.told[|s.told| - 1])
  }

  ghost predicate Started(s: State) {
    && s.told == [] && s.holder.None? && RefreshOf(s.slot) == s.initial
    && (s.initial.Some? ==> s.initial.value in s.held) && BearerOf(s.slot) in s.bearers
    && forall i | 0 <= i < |s.clients| :: s.clients[i].pc.Idle? && s.clients[i].requests == 0 && s.clients[i].refused.None?
  }

  /** The history has what the cell holds. */
  ghost predicate HeldOk(s: State) {
    && (RefreshOf(s.slot).Some? ==> RefreshOf(s.slot).value in s.held)
    && (BearerOf(s.slot) != "" ==> BearerOf(s.slot) in s.bearers)
  }

  /** The listener knows the refresh token, but for the moment between storing it and telling. */
  ghost predicate ListenerOk(s: State) {
    && (s.holder.Some? ==> s.holder.value < |s.clients|)
    && ((s.holder.Some? && s.clients[s.holder.value].pc.Telling?) || LastKnown(s) == RefreshOf(s.slot))
  }

  /** What a pending request or grant of client `k` says of the cell. */
  ghost predicate PendingOk(s: State, k: Client) {
    match k.pc
    case Asking(presented) => presented == RefreshOf(s.slot)
    case Storing(grant) =>
      && (RefreshOf(s.slot).Some? ==> grant.refresh.Some?)
      && (grant.refresh.Some? && grant.refresh != RefreshOf(s.slot) ==> grant.refresh.value !in s.held)
      && (grant.access != "" ==> grant.access !in s.bearers)
    case Telling(rotated) => RefreshOf(s.slot) == Some(rotated)
    case _ => true
  }

  /** The access token in the hand of client `k` is not the one it was refused with. */
  ghost predicate InHandOk(s: State, k: Client) {
    k.pc.InHand().Some? ==> k.pc.token != "" && k.pc.token in s.bearers && k.refused != Some(k.pc.token)
  }

  /** Nor does the cell hold that one any more. */
  ghost predicate RefusedOk(s: State, k: Client) {
    k.refused.Some? ==> k.refused.value != "" && k.refused.value in s.bearers && BearerOf(s.slot) != k.refused.value
  }

  ghost predicate SendingOk(k: Client) {
    && (k.pc.Calling? || k.pc.Refused? ==> k.sending)
    && (k.refused.Some? && !k.pc.Idle? ==> k.sending)
  }

  /** How many requests client `k` has made in this call. */
  ghost predicate CountOk(k: Client) {
    && k.requests <= (if k.refused.Some? then 2 else 1)
    && (!k.pc.Idle? ==> k.requests == (if k.refused.Some? then 1 else 0) + (if k.pc.Calling? || k.pc.Refused? then 1 else 0))
  }

  ghost predicate ClientOk(s: State, i: nat)
    requires i < |s.clients|
  {
    && (s.clients[i].pc.HoldsLock() <==> s.holder == Some(i))
    && PendingOk(s, s.clients[i]) && InHandOk(s, s.clients[i]) && RefusedOk(s, s.clients[i])
    && SendingOk(s.clients[i]) && CountOk(s.clients[i])
  }

  ghost predicate Inv(s: State) {
    HeldOk(s) && ListenerOk(s) && forall i: nat | i < |s.clients| :: ClientOk(s, i)
  }

  lemma StartedIsOk(s: State)
    requires Started(s)
    ensures Inv(s)
  {
  }

  /** What a step of client `c` may do to the cell and the lock. */
  ghost predicate CellStep(s: State, s': State, c: nat)
    requires c < |s.clients|
  {
    && s.bearers <= s'.bearers
    && (BearerOf(s'.slot) == BearerOf(s.slot) || BearerOf(s'.slot) == "" || BearerOf(s'.slot) !in s.bearers)
    && (|| s.clients[c].pc.HoldsLock()
        || (RefreshOf(s'.slot) == RefreshOf(s.slot) && s'.held == s.held && s'.bearers == s.bearers))
    && (|| s'.holder == s.holder
        || ((s.holder.None? || s.holder == Some(c)) && (s'.holder.None? || s'.holder == Some(c))))
    && |s'.clients| == |s.clients| && s'.clients == s.clients[c := s'.clients[c]]
  }

  lemma StepIsCellStep(s: State, a: Action)
    requires Inv(s) && Enabled(s, a) && !a.Tick?
    ensures CellStep(s, Apply(s, a), a.c)
  {
    assert ClientOk(s, a.c);
  }

  lemma OthersStayOk(s: State, s': State, c: nat, i: nat)
    requires c < |s.clients| && i < |s.clients| && i != c
    requires CellStep(s, s', c) && ClientOk(s, i) && ClientOk(s, c)
    ensures ClientOk(s', i)
  {
    assert s'.clients[i] == s.clients[i];
  }

  lemma ActorHoldsLock(s: State, a: Action)
    requires Enabled(s, a) && !a.Tick? && HeldOk(s) && ClientOk(s, a.c)
    ensures Apply(s, a).clients[a.c].pc.HoldsLock() ==> Apply(s, a).holder == Some(a.c)
  {
    if a.Judge? || a.Conclude? {
      ObtainingHoldsLock(s, a);
    } else {
      OtherHoldsLock(s, a);
    }
  }

  lemma ObtainingHoldsLock(s: State, a: Action)
    requires Enabled(s, a) && (a.Judge? || a.Conclude?) && HeldOk(s) && ClientOk(s, a.c)
    ensures Apply(s, a).clients[a.c].pc.HoldsLock() ==> Apply(s, a).holder == Some(a.c)
  {
  }

  lemma OtherHoldsLock(s: State, a: Action)
    requires Enabled(s, a) && !a.Tick? && !a.Judge? && !a.Conclude? && HeldOk(s) && ClientOk(s, a.c)
    ensures Apply(s, a).clients[a.c].pc.HoldsLock() ==> Apply(s, a).holder == Some(a.c)
  {
  }

  lemma ActorReleasesLock(s: State, a: Action)
    requires Enabled(s, a) && !a.Tick? && HeldOk(s) && ClientOk(s, a.c)
    ensures Apply(s, a).holder == Some(a.c) ==> Apply(s, a).clients[a.c].pc.HoldsLock()
  {
  }

  lemma ActorPendingOk(s: State, a: Action)
    requires Enabled(s, a) && !a.Tick? && HeldOk(s) && ClientOk(s, a.c)
    ensures PendingOk(Apply(s, a), Apply(s, a).clients[a.c])
  {
  }

  lemma ActorInHandOk(s: State, a: Action)
    requires Enabled(s, a) && !a.Tick? && HeldOk(s) && ClientOk(s, a.c)
    ensures InHandOk(Apply(s, a), Apply(s, a).clients[a.c])
  {
    if a.Judge? || a.Conclude? {
      ObtainingInHandOk(s, a);
    } else {
      OtherInHandOk(s, a);
    }
  }

  lemma ObtainingInHandOk(s: State, a: Action)
    requires Enabled(s, a) && (a.Judge? || a.Conclude?) && HeldOk(s) && ClientOk(s, a.c)
    ensures InHandOk(Apply(s, a), Apply(s, a).clients[a.c])
  {
  }

  lemma OtherInHandOk(s: State, a: Action)
    requires Enabled(s, a) && !a.Tick? && !a.Judge? && !a.Conclude? && HeldOk(s) && ClientOk(s, a.c)
    ensures InHandOk(Apply(s, a), Apply(s, a).clients[a.c])
  {
  }

  lemma ActorRefusedOk(s: State, a: Action)
    requires Enabled(s, a) && !a.Tick? && HeldOk(s) && ClientOk(s, a.c)
    ensures RefusedOk(Apply(s, a), Apply(s, a).clients[a.c])
  {
  }

  lemma ActorSendingOk(s: State, a: Action)
    requires Enabled(s, a) && !a.Tick? && HeldOk(s) && ClientOk(s, a.c)
    ensures SendingOk(Apply(s, a).clients[a.c])
  {
  }

  lemma ActorCountOk(s: State, a: Action)
    requires Enabled(s, a) && !a.Tick? && HeldOk(s) && ClientOk(s, a.c)
    ensures CountOk(Apply(s, a).clients[a.c])
  {
    if a.Judge? || a.Conclude? {
      ObtainingCountOk(s, a);
    } else {
      OtherCountOk(s, a);
    }
  }

  lemma ObtainingCountOk(s: State, a: Action)
    requires Enabled(s, a) && (a.Judge? || a.Conclude?) && HeldOk(s) && ClientOk(s, a.c)
    ensures CountOk(Apply(s, a).clients[a.c])
  {
  }

  lemma OtherCountOk(s: State, a: Action)
    requires Enabled(s, a) && !a.Tick? && !a.Judge? && !a.Conclude? && HeldOk(s) && ClientOk(s, a.c)
    ensures CountOk(Apply(s, a).clients[a.c])
  {
  }

  lemma StepKeepsHeldOk(s: State, a: Action)
    requires Inv(s) && Enabled(s, a)
    ensures HeldOk(Apply(s, a))
  {
    if !a.Tick? {
      assert ClientOk(s, a.c);
    }
  }

  lemma StepKeepsListenerOk(s: State, a: Action)
    requires Inv(s) && Enabled(s, a)
    ensures ListenerOk(Apply(s, a))
  {
    if !a.Tick? {
      assert ClientOk(s, a.c);
      if !a.Store? && !a.Tell? {
        NothingToTell(s, a);
      }
    }
  }

  lemma NothingToTell(s: State, a: Action)
    requires Enabled(s, a) && !a.Tick? && !a.Store? && !a.Tell? && ListenerOk(s) && ClientOk(s, a.c)
    ensures ListenerOk(Apply(s, a))
  {
  }

  lemma StepKeepsInv(s: State, a: Action)
    requires Inv(s) && Enabled(s, a)
    ensures Inv(Apply(s, a))
  {
    var s' := Apply(s, a);
    StepKeepsHeldOk(s, a);
    StepKeepsListenerOk(s, a);
    if a.Tick? {
      TimePasses(s, a.to);
    } else {
      StepIsCellStep(s, a);
      assert ClientOk(s, a.c);
      ActorHoldsLock(s, a);
      ActorReleasesLock(s, a);
      ActorPendingOk(s, a);
      ActorInHandOk(s, a);
      ActorRefusedOk(s, a);
      ActorSendingOk(s, a);
      ActorCountOk(s, a);
      forall i: nat | i < |s.clients|
        ensures ClientOk(s', i)
      {
        if i != a.c {
          OthersStayOk(s, s', a.c, i);
        }
      }
    }
  }

  lemma TimePasses(s: State, to: int)
    requires Inv(s)
    ensures forall i: nat | i < |s.clients| :: ClientOk(s.(now := to), i)
  {
    forall i: nat | i < |s.clients|
      ensures ClientOk(s.(now := to), i)
    {
      assert ClientOk(s, i);
    }
  }

  // ---- whole runs ----

  ghost predicate Leads(s: State, a: Action, s': State) {
    Enabled(s, a) && s' == Apply(s, a)
  }

  lemma LeadsToOk(s: State, a: Action, s': State)
    requires Inv(s) && Leads(s, a, s')
    ensures Inv(s') && s'.initial == s.initial && ReplacesForGood(s, s')
  {
    StepKeepsInv(s, a);
    StepReplacesForGood(s, a);
  }

  ghost predicate IsRun(ss: seq<State>, acts: seq<Action>) {
    && |ss| == |acts| + 1 && Started(ss[0])
    && forall k | 0 <= k < |acts| :: Leads(ss[k], acts[k], ss[k + 1])
  }

  lemma {:induction false} RunIsOk(ss: seq<State>, acts: seq<Action>, j: nat)
    requires IsRun(ss, acts) && j < |ss|
    ensures Inv(ss[j]) && ss[j].initial == ss[0].initial
    decreases j
  {
    if j == 0 {
      StartedIsOk(ss[0]);
    } else {
      RunIsOk(ss, acts, j - 1);
      assert Leads(ss[j - 1], acts[j - 1], ss[j - 1 + 1]);
      LeadsToOk(ss[j - 1], acts[j - 1], ss[j]);
    }
  }

  /** At most one renewal is in flight, and the refresh token it presented is the cell's current one. */
  lemma {:induction false} OneRenewalAtATime(ss: seq<State>, acts: seq<Action>, j: nat, a: nat, b: nat)
    requires IsRun(ss, acts) && j < |ss| && a < |ss[j].clients| && b < |ss[j].clients|
    requires ss[j].clients[a].pc.IsRenewal()
    ensures ss[j].clients[b].pc.IsRenewal() ==> a == b
    ensures ss[j].holder == Some(a)
    ensures ss[j].clients[a].pc.Asking? ==> ss[j].clients[a].pc.presented == RefreshOf(ss[j].slot)
  {
    RunIsOk(ss, acts, j);
    assert ClientOk(ss[j], a) && ClientOk(ss[j], b);
  }

  /** The cell's history is only added to, a refresh token gives way only to another one, and what was
      replaced does not come back. */
  ghost predicate ReplacesForGood(s: State, s': State) {
    && |s'.clients| == |s.clients| && s.held <= s'.held
    && (RefreshOf(s.slot).Some? ==> RefreshOf(s'.slot).Some?)
    && (forall refresh | refresh in s.held && RefreshOf(s.slot) != Some(refresh) :: RefreshOf(s'.slot) != Some(refresh))
  }

  lemma StepReplacesForGood(s: State, a: Action)
    requires Inv(s) && Enabled(s, a)
    ensures ReplacesForGood(s, Apply(s, a))
  {
    if !a.Tick? {
      assert ClientOk(s, a.c);
    }
  }

  lemma {:induction false} RunStep(ss: seq<State>, acts: seq<Action>, k: nat)
    requires IsRun(ss, acts) && k < |acts|
    ensures ReplacesForGood(ss[k], ss[k + 1])
  {
    RunIsOk(ss, acts, k);
    LeadsToOk(ss[k], acts[k], ss[k + 1]);
  }

  /** A refresh token the cell held once and no longer holds is never held, nor presented, again. */
  lemma {:induction false} ReplacedNeverPresented(ss: seq<State>, acts: seq<Action>, i: nat, j: nat, k: nat, refresh: string, c: nat)
    requires IsRun(ss, acts) && i <= j <= k < |ss| && c < |ss[k].clients|
    requires RefreshOf(ss[i].slot) == Some(refresh) && RefreshOf(ss[j].slot) != Some(refresh)
    ensures RefreshOf(ss[k].slot) != Some(refresh)
    ensures ss[k].clients[c].pc != Asking(Some(refresh))
    decreases k
  {
    HeldStays(ss, acts, i, j, refresh);
    NotHeldAgain(ss, acts, j, k, refresh);
    RunIsOk(ss, acts, k);
    assert ClientOk(ss[k], c);
  }

  lemma {:induction false} HeldStays(ss: seq<State>, acts: seq<Action>, i: nat, j: nat, refresh: string)
    requires IsRun(ss, acts) && i <= j < |ss| && RefreshOf(ss[i].slot) == Some(refresh)
    ensures refresh in ss[j].held
    decreases j
  {
    RunIsOk(ss, acts, i);
    if i < j {
      HeldStays(ss, acts, i, j - 1, refresh);
      RunStep(ss, acts, j - 1);
    }
  }

  lemma {:induction false} NotHeldAgain(ss: seq<State>, acts: seq<Action>, j: nat, k: nat, refresh: string)
    requires IsRun(ss, acts) && j <= k < |ss| && refresh in ss[j].held && RefreshOf(ss[j].slot) != Some(refresh)
    ensures refresh in ss[k].held && RefreshOf(ss[k].slot) != Some(refresh)
    decreases k
  {
    if j < k {
      NotHeldAgain(ss, acts, j, k - 1, refresh);
      RunStep(ss, acts, k - 1);
    }
  }

  /** Once the cell holds a refresh token it always holds one, and the password is not sent again. */
  lemma {:induction false} PasswordNeverAgain(ss: seq<State>, acts: seq<Action>, i: nat, j: nat, c: nat)
    requires IsRun(ss, acts) && i <= j < |ss| && RefreshOf(ss[i].slot).Some? && c < |ss[j].clients|
    ensures RefreshOf(ss[j].slot).Some?
    ensures ss[j].clients[c].pc != Asking(None)
    decreases j
  {
    if i < j {
      RunStep(ss, acts, j - 1);
      PasswordNeverAgain(ss, acts, i, j - 1, c);
    }
    RunIsOk(ss, acts, j);
    assert ClientOk(ss[j], c);
  }

  /** With a listener installed from the start: the last token it was told (or the one it started with) is the
      cell's refresh token, but for the moment in which the client holding the lock is telling it. */
  lemma {:induction false} ListenerKnowsCurrent(ss: seq<State>, acts: seq<Action>, j: nat)
    requires IsRun(ss, acts) && j < |ss|
    ensures LastKnown(ss[j]) == RefreshOf(ss[j].slot)
         || exists c: nat :: c < |ss[j].clients| && ss[j].holder == Some(c) && ss[j].clients[c].pc.Telling?
                             && RefreshOf(ss[j].slot) == Some(ss[j].clients[c].pc.rotated)
  {
    RunIsOk(ss, acts, j);
    if LastKnown(ss[j]) != RefreshOf(ss[j].slot) {
      assert ClientOk(ss[j], ss[j].holder.value);
    }
  }

  /** A refused renewal ends the client's call as rejected, whatever else goes on, and changes nothing in the cell. */
  lemma RefusedRenewalRejects(s: State, c: nat)
    requires Inv(s) && Enabled(s, Reply(c, RefusedGrant))
    ensures var s' := Apply(s, Reply(c, RefusedGrant));
            && s'.clients[c].pc.Idle? && s'.clients[c].outcome == Some(Failed(Rejected))
            && s'.slot == s.slot && s'.holder.None?
  {
    assert ClientOk(s, c);
  }

  /** The cell's access token gives way only to a new grant of the client that holds the lock, or to the 401 some
      client received for that very token. */
  lemma BearerLeavesOnlyRefused(s: State, a: Action)
    requires Inv(s) && Enabled(s, a) && BearerOf(s.slot) != "" && BearerOf(Apply(s, a).slot) != BearerOf(s.slot)
    ensures || (a.Store? && s.holder == Some(a.c))
            || (a.Forget? && s.clients[a.c].pc == Pc.Refused(BearerOf(s.slot)))
  {
    assert ClientOk(s, a.c);
  }

  /** One `send` makes at most two requests, the second only after the first was answered 401, and never with
      the token that was refused. */
  lemma {:induction false} SendIsBounded(ss: seq<State>, acts: seq<Action>, j: nat, c: nat)
    requires IsRun(ss, acts) && j < |ss| && c < |ss[j].clients|
    ensures ss[j].clients[c].requests <= 2
    ensures ss[j].clients[c].requests == 2 ==> ss[j].clients[c].refused.Some?
    ensures ss[j].clients[c].pc.Calling? && ss[j].clients[c].refused.Some? ==>
              ss[j].clients[c].pc.token != ss[j].clients[c].refused.value
  {
    RunIsOk(ss, acts, j);
    assert ClientOk(ss[j], c);
  }

  /** Holding the lock, the client found no valid token, or one that was due when it looked. */
  ghost predicate FoundNone(s: State, c: nat) {
    && s.holder == Some(c) && c < |s.clients|
    && (|| (s.clients[c].pc.Locked? && ValidToken(s.slot, s.now).None?)
        || (s.clients[c].pc.Rechecked? && NeedsRefresh(s.slot, s.clients[c].pc.at)))
  }

  /** A step into renewing is taken only then. */
  lemma RenewsOnlyIfNone(s: State, a: Action, s': State, c: nat)
    requires Inv(s) && Leads(s, a, s') && c < |s'.clients| && c < |s.clients|
    requires s'.clients[c].pc.Renewing? || s'.clients[c].pc.IsRenewal()
    ensures FoundNone(s, c) || s.clients[c].pc.Renewing? || s.clients[c].pc.IsRenewal()
  {
    if !a.Tick? && a.c == c {
      assert ClientOk(s, c);
      ActorRenewsOnlyIfNone(s, a);
    } else {
      OthersWait(s, a, c);
    }
  }

  lemma ActorRenewsOnlyIfNone(s: State, a: Action)
    requires Enabled(s, a) && !a.Tick? && (s.clients[a.c].pc.HoldsLock() ==> s.holder == Some(a.c))
    ensures var pc := Apply(s, a).clients[a.c].pc;
            pc.Renewing? || pc.IsRenewal() ==> FoundNone(s, a.c) || s.clients[a.c].pc.Renewing? || s.clients[a.c].pc.IsRenewal()
  {
  }

  lemma OthersWait(s: State, a: Action, c: nat)
    requires Enabled(s, a) && c < |s.clients| && (a.Tick? || a.c != c)
    ensures |Apply(s, a).clients| == |s.clients| && Apply(s, a).clients[c] == s.clients[c]
  {
  }

  /** No needless renewal: whoever asks for a token had looked at the cell again since it took the lock, and
      there was none that was valid and not due; so a renewal another client finished meanwhile is used. */
  lemma {:induction false} RenewalWasNeeded(ss: seq<State>, acts: seq<Action>, j: nat, c: nat) returns (i: nat)
    requires IsRun(ss, acts) && j < |ss| && c < |ss[j].clients|
    requires ss[j].clients[c].pc.Renewing? || ss[j].clients[c].pc.IsRenewal()
    ensures i <= j && FoundNone(ss[i], c) && forall k | i <= k <= j :: ss[k].holder == Some(c)
    decreases j
  {
    RunIsOk(ss, acts, j);
    assert ClientOk(ss[j], c);
    assert j > 0;
    RunStep(ss, acts, j - 1);
    RunIsOk(ss, acts, j - 1);
    assert Leads(ss[j - 1], acts[j - 1], ss[j - 1 + 1]);
    RenewsOnlyIfNone(ss[j - 1], acts[j - 1], ss[j], c);
    if FoundNone(ss[j - 1], c) {
      i := j - 1;
    } else {
      i := RenewalWasNeeded(ss, acts, j - 1, c);
    }
  }

  // ---- what a grant and a call come to ----

  /** A step into storing is the answer it stores. */
  lemma StoringIsAnswered(s: State, a: Action, s': State, c: nat)
    requires Leads(s, a, s') && c < |s.clients| && c < |s'.clients| && s'.clients[c].pc.Storing?
    ensures || s.clients[c].pc == s'.clients[c].pc
            || (&& a.Reply? && a.c == c && a.answer.Grant? && s.clients[c].pc.Asking?
                && s'.clients[c].pc.grant == FromResponse(a.answer.response, s.clients[c].pc.presented, s.now))
  {
    if a.Tick? || a.c != c {
      OthersWait(s, a, c);
    }
  }

  /** The answer a client is about to store, and what it had presented. */
  lemma {:induction false} StoringComesFrom(ss: seq<State>, acts: seq<Action>, j: nat, c: nat) returns (k: nat)
    requires IsRun(ss, acts) && j < |ss| && c < |ss[j].clients| && ss[j].clients[c].pc.Storing?
    ensures k < j && acts[k].Reply? && acts[k].c == c && acts[k].answer.Grant?
    ensures c < |ss[k].clients| && ss[k].clients[c].pc.Asking?
    ensures ss[j].clients[c].pc.grant == FromResponse(acts[k].answer.response, ss[k].clients[c].pc.presented, ss[k].now)
    decreases j
  {
    assert j > 0;
    RunStep(ss, acts, j - 1);
    assert Leads(ss[j - 1], acts[j - 1], ss[j - 1 + 1]);
    StoringIsAnswered(ss[j - 1], acts[j - 1], ss[j], c);
    if ss[j - 1].clients[c].pc.Storing? {
      k := StoringComesFrom(ss, acts, j - 1, c);
    } else {
      k := j - 1;
    }
  }

  /** A step that stores puts the pending grant into the cell, and turns to telling a new refresh token. */
  lemma StoresPending(s: State, c: nat, s': State)
    requires Leads(s, Store(c), s') && c < |s'.clients|
    ensures s'.slot == Some(s.clients[c].pc.grant)
    ensures s'.clients[c].pc == if RefreshOf(s'.slot).Some? && RefreshOf(s'.slot) != RefreshOf(s.slot)
                                then Telling(RefreshOf(s'.slot).value) else Concluding
  {
  }

  /** Over any run, what a client stores is what the server granted it: the refresh token the grant brings, or
      else the one it presented, is the cell's from then on; a new one is told to the listener next. */
  lemma {:induction false} GrantReachesCell(ss: seq<State>, acts: seq<Action>, j: nat, c: nat) returns (k: nat)
    requires IsRun(ss, acts) && j < |acts| && acts[j] == Store(c)
    ensures k < j && acts[k].Reply? && acts[k].c == c && acts[k].answer.Grant?
    ensures c < |ss[k].clients| && ss[k].clients[c].pc.Asking?
    ensures Adopted(ss[j + 1].slot, acts[k].answer.response, ss[k].clients[c].pc.presented)
    ensures c < |ss[j + 1].clients|
    ensures ss[j + 1].clients[c].pc
         == if RefreshOf(ss[j + 1].slot).Some? && RefreshOf(ss[j + 1].slot) != RefreshOf(ss[j].slot)
            then Telling(RefreshOf(ss[j + 1].slot).value) else Concluding
  {
    assert Leads(ss[j], acts[j], ss[j + 1]);
    k := StoringComesFrom(ss, acts, j, c);
    RunStep(ss, acts, j);
    StoresPending(ss[j], c, ss[j + 1]);
    GrantIsAdopted(acts[k].answer.response, ss[k].clients[c].pc.presented, ss[k].now);
  }

  /** Client `k` has token `token`: it uses it for its request, or returns it. */
  ghost predicate Gets(k: Client, token: string) {
    if k.sending then k.pc == Calling(token) else k.pc.Idle? && k.outcome == Some(Token(token))
  }

  /** A call ends as it should: with the cell's token if that is valid and not due, or valid after the token
      endpoint was asked; rejected only by a refusal or without any credential; and what is answered 401 is
      tried once more. */
  lemma CallsEndAsTheyShould(s: State, a: Action)
    requires Enabled(s, a) && !a.Tick?
    ensures var (k, k') := (s.clients[a.c], Apply(s, a).clients[a.c]);
            match a
            case Peek(_) => k'.pc == if ValidToken(s.slot, s.now).Some? then Peeked(ValidToken(s.slot, s.now).value, s.now) else Waiting
            case Judge(_) =>
              if !NeedsRefresh(s.slot, k.pc.at) then Gets(k', k.pc.token) else k'.pc == (if k.pc.Peeked? then Waiting else Renewing)
            case Choose(_) =>
              if RefreshOf(s.slot).Some? then k'.pc == Asking(RefreshOf(s.slot))
              else if k.password then k'.pc == Asking(None)
              else k'.pc.Idle? && k'.outcome == Some(Failed(Rejected))
            case Reply(_, answer) =>
              && (answer.Grant? ==> k'.pc.Storing?)
              && (answer.RefusedGrant? ==> k'.pc.Idle? && k'.outcome == Some(Failed(Rejected)))
              && (answer.NoGrant? && k.pc.presented.Some? ==> k'.pc.Concluding?)
              && (answer.NoGrant? && k.pc.presented.None? ==> k'.pc.Idle? && k'.outcome == Some(Failed(OtherFailure)))
            case Conclude(_) =>
              if ValidToken(s.slot, s.now).Some? then Gets(k', ValidToken(s.slot, s.now).value)
              else k'.pc.Idle? && k'.outcome == Some(Failed(OtherFailure))
            case Respond(_, status) =>
              if status == Some(true) then k'.pc == Refused(k.pc.token)
              else k'.pc.Idle? && k'.outcome == Some(if status.Some? then Answered(false) else Failed(OtherFailure))
            case Forget(_) =>
              && BearerOf(Apply(s, a).slot) == (if BearerOf(s.slot) == k.pc.token then "" else BearerOf(s.slot))
              && (if k.refused.None? then k'.pc.Peeking? && k'.refused == Some(k.pc.token)
                  else k'.pc.Idle? && k'.outcome == Some(Answered(true)))
            case Drop(_) => k'.pc.Idle? && k'.outcome == k.outcome
            case _ => true
  {
  }

  /** The lock is never stuck: whoever holds it can take a step of its own. */
  lemma {:induction false} HolderCanMove(ss: seq<State>, acts: seq<Action>, j: nat)
    requires IsRun(ss, acts) && j < |ss| && ss[j].holder.Some?
    ensures exists a: Action :: !a.Tick? && Some(a.c) == ss[j].holder && Enabled(ss[j], a)
  {
    RunIsOk(ss, acts, j);
    var c := ss[j].holder.value;
    assert ClientOk(ss[j], c);
    var pc := ss[j].clients[c].pc;
    var a := match pc
      case Locked => Recheck(c)
      case Rechecked(_, _) => Judge(c)
      case Renewing => Choose(c)
      case Asking(_) => Reply(c, NoGrant)
      case Storing(_) => Store(c)
      case Telling(_) => Tell(c)
      case _ => Conclude(c);
    assert Enabled(ss[j], a);
  }
}
