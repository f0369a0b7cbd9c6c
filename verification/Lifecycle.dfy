/** The tracker's lifecycle: what may be acquired, and how every change outdates the tickets issued before it. */
module Lifecycle {
  import opened Wrappers
  import opened ConsentFiles
  import opened Consent

  datatype PauseReason = User | IdleTimeout | Break | ConsentChanged

  datatype TrackerState =
    | Unconfigured
    | Stopped
    | Tracking
    | Paused(reason: PauseReason)
    | Locked
    | Terminated

  datatype LifecycleError =
    | ConsentRequired
    | NoActiveCapabilitiesConsented
    | InvalidStateTransition(from: TrackerState)
    | NotConfigured
    | ConsentSaveError(error: ConsentError)

  datatype Ticket = Ticket(generation: nat, capability: Capability)

  datatype AcquisitionError =
    | NotTracking(state: TrackerState)
    | CapabilityNotPermitted(capability: Capability)
    | GenerationMismatch(ticket: nat, current: nat)

  /** The tracker as a value. */
  datatype Life = Life(state: TrackerState, generation: nat, policy: Option<Permissions>, consent: ConsentState) {
    function Effective(): Permissions {
      match policy
      case Some(project) => consent.current.Effective(project)
      case None => ALL_DISABLED
    }

    function To(next: TrackerState): Life {
      this.(state := next, generation := generation + 1)
    }
  }

  datatype Event =
    | Configure(policy: Permissions)
    | Start
    | Pause(reason: PauseReason)
    | Stop
    | Lock
    | Unlock
    | Quit
    | UpdateConsent(next: LocalConsent, saved: bool)

  /** What an event makes of the tracker. */
  function Apply(l: Life, e: Event): Life {
    match e
    case Configure(policy) =>
      var configured := l.(policy := Some(policy));
      if l.state.Unconfigured? then configured.To(Stopped)
      else if l.state.Terminated? || l.policy == Some(policy) then configured
      else configured.To(Idled(configured))
    case Start => if StartRefusal(l).None? && !l.state.Tracking? then l.To(Tracking) else l
    case Pause(reason) => if l.state.Tracking? then l.To(Paused(reason)) else l
    case Stop => if l.state.Tracking? || l.state.Paused? || l.state.Locked? then l.To(Stopped) else l
    case Lock => if l.state.Tracking? || l.state.Paused? then l.To(Locked) else l
    case Unlock => if l.state.Locked? then l.To(Paused(User)) else l
    case Quit => l.To(Terminated)
    case UpdateConsent(next, saved) =>
      var updated := l.(consent := Updated(l.consent, next, saved));
      if updated.consent.current == l.consent.current then updated else updated.To(Idled(updated))
  }

  /** Tracking with nothing left to track stops. */
  function Idled(l: Life): TrackerState {
    if l.state.Tracking? && !l.Effective().HasAnyCapability() then Stopped else l.state
  }

  /** Why tracking may not start, in the order the reasons are looked for. */
  function StartRefusal(l: Life): Option<LifecycleError> {
    if l.policy.None? then Some(NotConfigured)
    else if !l.consent.current.Granted? then Some(ConsentRequired)
    else if !l.Effective().HasAnyCapability() then Some(NoActiveCapabilitiesConsented)
    else if l.state.Stopped? || l.state.Paused? || l.state.Tracking? then None
    else Some(InvalidStateTransition(l.state))
  }

  // ---- tickets ----

  function Acquired(l: Life, cap: Capability): Result<Ticket, AcquisitionError> {
    if !l.state.Tracking? then Err(NotTracking(l.state))
    else if !l.Effective().Permits(cap) then Err(CapabilityNotPermitted(cap))
    else Ok(Ticket(l.generation, cap))
  }

  function TicketRefusal(l: Life, ticket: Ticket): Option<AcquisitionError> {
    if !l.state.Tracking? then Some(NotTracking(l.state))
    else if ticket.generation != l.generation then Some(GenerationMismatch(ticket.generation, l.generation))
    else if !l.Effective().Permits(ticket.capability) then Some(CapabilityNotPermitted(ticket.capability))
    else None
  }

  // ---- field by field ----

  /** Tracking under a policy and a granted consent. */
  predicate Tracks(l: Life) {
    l.state.Tracking? && l.policy.Some? && l.consent.current.Granted?
  }

  /** A ticket for a capability is issued exactly if that capability's own field is set in the policy and in the
      granted consent, and validates under the same condition in the generation it was issued in. */
  lemma TicketsByField(l: Life, g: nat)
    ensures Acquired(l, ScreenCapture).Ok? <==> Tracks(l) && l.policy.value.screenshot && l.consent.current.permissions.screenshot
    ensures Acquired(l, KeyboardCount).Ok? <==> Tracks(l) && l.policy.value.keyboard && l.consent.current.permissions.keyboard
    ensures Acquired(l, MouseCount).Ok? <==> Tracks(l) && l.policy.value.mouse && l.consent.current.permissions.mouse
    ensures Acquired(l, ActiveWindow).Ok? <==> Tracks(l) && l.policy.value.activeWindow && l.consent.current.permissions.activeWindow
    ensures Acquired(l, RunningPrograms).Ok?
       <==> Tracks(l) && l.policy.value.runningPrograms && l.consent.current.permissions.runningPrograms
    ensures Acquired(l, Webcam).Ok? <==> Tracks(l) && l.policy.value.webcam && l.consent.current.permissions.webcam
    ensures forall cap ::
              && (Acquired(l, cap).Ok? ==> Acquired(l, cap).value == Ticket(l.generation, cap))
              && (TicketRefusal(l, Ticket(g, cap)).None? <==> Acquired(l, cap).Ok? && g == l.generation)
  {
    if l.policy.Some? && l.consent.current.Granted? {
      var (p, q) := (l.policy.value, l.consent.current.permissions);
      assert q.Intersect(p).screenshot == (q.screenshot && p.screenshot);
    }
  }

  /** Each capability is effective exactly if its own field is set on both sides; screenshots are blurred if
      either side asks for it. */
  ghost predicate BothAllow(effective: Permissions, policy: Permissions, consent: Permissions) {
    && (effective.screenshot <==> policy.screenshot && consent.screenshot)
    && (effective.webcam <==> policy.webcam && consent.webcam)
    && (effective.keyboard <==> policy.keyboard && consent.keyboard)
    && (effective.mouse <==> policy.mouse && consent.mouse)
    && (effective.activeWindow <==> policy.activeWindow && consent.activeWindow)
    && (effective.runningPrograms <==> policy.runningPrograms && consent.runningPrograms)
    && (effective.blurScreenshots <==> policy.blurScreenshots || consent.blurScreenshots)
  }

  /** Nothing is effective without a policy or a granted consent. */
  lemma EffectiveByField(l: Life)
    ensures l.policy.Some? && l.consent.current.Granted? ==> BothAllow(l.Effective(), l.policy.value, l.consent.current.permissions)
    ensures l.policy.None? || !l.consent.current.Granted? ==>
              l.Effective() == Permissions(false, false, false, false, false, false, true)
  {
  }

  /** Some capability is allowed on both sides. */
  ghost predicate ShareCapability(p: Permissions, q: Permissions) {
    || (p.screenshot && q.screenshot) || (p.webcam && q.webcam) || (p.keyboard && q.keyboard)
    || (p.mouse && q.mouse) || (p.activeWindow && q.activeWindow) || (p.runningPrograms && q.runningPrograms)
  }

  /** Tracking starts exactly with a policy and a granted consent that share a capability, from Stopped or Paused
      (or goes on); otherwise the first reason against it is given. */
  lemma StartsExactlyWhen(l: Life)
    ensures StartRefusal(l).None? <==>
              && l.policy.Some? && l.consent.current.Granted? && ShareCapability(l.policy.value, l.consent.current.permissions)
              && (l.state.Stopped? || l.state.Paused? || l.state.Tracking?)
    ensures l.policy.None? ==> StartRefusal(l) == Some(NotConfigured)
    ensures l.policy.Some? && !l.consent.current.Granted? ==> StartRefusal(l) == Some(ConsentRequired)
    ensures l.policy.Some? && l.consent.current.Granted? && !ShareCapability(l.policy.value, l.consent.current.permissions) ==>
              StartRefusal(l) == Some(NoActiveCapabilitiesConsented)
    ensures StartRefusal(l).None? ==> Apply(l, Start).state.Tracking?
    ensures StartRefusal(l).Some? ==> Apply(l, Start) == l
  {
  }

  /** Which state follows which. */
  lemma StatesFollow(l: Life, reason: PauseReason)
    ensures Apply(l, Pause(reason)).state == if l.state == Tracking then Paused(reason) else l.state
    ensures Apply(l, Stop).state == if l.state == Unconfigured || l.state == Terminated then l.state else Stopped
    ensures Apply(l, Lock).state == if l.state == Tracking || l.state.Paused? then Locked else l.state
    ensures Apply(l, Unlock).state == if l.state == Locked then Paused(User) else l.state
    ensures Apply(l, Quit).state == Terminated
  {
  }

  /** Pausing, stopping, locking and quitting leave the tracker not tracking, and outdate every ticket. */
  lemma SilencedAtOnce(l: Life, e: Event, ticket: Ticket, cap: Capability)
    requires e.Pause? || e.Stop? || e.Lock? || e.Quit?
    ensures var after := Apply(l, e);
            && !after.state.Tracking? && Acquired(after, cap).Err? && TicketRefusal(after, ticket).Some?
            && (l.state.Tracking? ==> after.generation == l.generation + 1)
            && after.policy == l.policy && after.consent == l.consent
  {
  }

  /** What configuring does: the policy is taken at once, tracking goes on only with something left to track, and
      a first policy only makes the tracker ready. */
  lemma ConfiguresAtOnce(l: Life, policy: Permissions)
    ensures var after := Apply(l, Event.Configure(policy));
            && after.policy == Some(policy) && after.consent == l.consent
            && (l.state.Unconfigured? ==> after.state == Stopped)
            && (l.state.Tracking? ==>
                  after.state == if l.policy == Some(policy)
                                    || (l.consent.current.Granted? && ShareCapability(policy, l.consent.current.permissions))
                                 then Tracking else Stopped)
            && (!l.state.Unconfigured? && !l.state.Tracking? ==> after.state == l.state)
  {
  }

  /** A choice of consent that is saved (or needs no saving) is in force at once; otherwise what a failed choice leaves. */
  lemma ConsentsAtOnce(l: Life, next: LocalConsent, saved: bool)
    ensures var after := Apply(l, Event.UpdateConsent(next, saved));
            && after.policy == l.policy
            && (saved || l.consent.durable.None? ==> after.consent.current == next)
            && (!saved && l.consent.durable.Some? && l.consent.current != next ==>
                  FailedChoice(l.consent.current, next, after.consent.current))
  {
    assert AfterAll(l.consent, []) == l.consent;
    ChoiceComesIntoForce(l.consent, [], next, saved);
    OneChoice(l.consent, next, saved);
    assert [] + [Choose(next, saved)] == [Choose(next, saved)];
  }

  /** Tracking goes on over a choice of consent only with something left to track. */
  lemma TracksOnWithConsent(l: Life, next: LocalConsent, saved: bool)
    ensures var after := Apply(l, Event.UpdateConsent(next, saved));
            && (l.state.Tracking? && after.consent.current != l.consent.current && l.policy.Some? ==>
                  after.state == if after.consent.current.Granted?
                                    && ShareCapability(l.policy.value, after.consent.current.permissions)
                                 then Tracking else Stopped)
            && (!l.state.Tracking? ==> after.state == l.state)
  {
    var after := Apply(l, Event.UpdateConsent(next, saved));
    EffectiveByField(after);
  }

  class TrackerLifecycle {
    var state: TrackerState
    var generation: nat
    var projectPolicy: Option<Permissions>
    const consentManager: ConsentManager

    ghost function Footprint(): set<object> {
      {this} + consentManager.Footprint()
    }

    ghost predicate Valid() {
      this !in consentManager.Footprint() && consentManager.Valid()
    }

    ghost function Now(): Life
      reads Footprint()
    {
      Life(state, generation, projectPolicy, consentManager.Now())
    }

    /** Never tracking from the start. */
    constructor (consentManager: ConsentManager)
      requires consentManager.Valid()
      ensures Valid() && this.consentManager == consentManager
      ensures Now() == Life(Unconfigured, 1, None, consentManager.Now())
    {
      state := Unconfigured;
      generation := 1;
      projectPolicy := None;
      this.consentManager := consentManager;
    }

    method EffectivePermissions() returns (p: Permissions)
      ensures p == Now().Effective()
    {
      match projectPolicy {
        case Some(project) => return consentManager.current.Effective(project);
        case None => return ALL_DISABLED;
      }
    }

    method Configure(policy: Permissions)
      requires Valid()
      modifies this
      ensures Valid() && Now() == Apply(old(Now()), Event.Configure(policy))
    {
      var prevPolicy := projectPolicy;
      projectPolicy := Some(policy);
      if state == Unconfigured {
        state := Stopped;
        generation := generation + 1;
        return;
      }
      if state == Terminated {
        return;
      }
      if prevPolicy != Some(policy) {
        generation := generation + 1;
        var effective := EffectivePermissions();
        if state == Tracking && !effective.HasAnyCapability() {
          state := Stopped;
        }
      }
    }

    /** `start` and `resume` */
    method Start() returns (r: Result<Unit, LifecycleError>)
      requires Valid()
      modifies this
      ensures Valid() && Now() == Apply(old(Now()), Event.Start)
      ensures r == match StartRefusal(old(Now())) { case None => Ok(Unit) case Some(e) => Err(e) }
    {
      if projectPolicy.None? {
        return Err(NotConfigured);
      }
      if !consentManager.current.Granted? {
        return Err(ConsentRequired);
      }
      var effective := EffectivePermissions();
      if !effective.HasAnyCapability() {
        return Err(NoActiveCapabilitiesConsented);
      }
      if state.Stopped? || state.Paused? {
        state := Tracking;
        generation := generation + 1;
        return Ok(Unit);
      }
      if state.Tracking? {
        return Ok(Unit);
      }
      return Err(InvalidStateTransition(state));
    }

    method Pause(reason: PauseReason) returns (r: Result<Unit, LifecycleError>)
      requires Valid()
      modifies this
      ensures Valid() && Now() == Apply(old(Now()), Event.Pause(reason))
      ensures r == if old(state).Tracking? || old(state).Paused? then Ok(Unit) else Err(InvalidStateTransition(old(state)))
    {
      if state.Tracking? {
        state := Paused(reason);
        generation := generation + 1;
        return Ok(Unit);
      }
      if state.Paused? {
        return Ok(Unit);
      }
      return Err(InvalidStateTransition(state));
    }

    method Stop() returns (r: Result<Unit, LifecycleError>)
      requires Valid()
      modifies this
      ensures Valid() && Now() == Apply(old(Now()), Event.Stop)
      ensures r == if old(state).Unconfigured? || old(state).Terminated? then Err(InvalidStateTransition(old(state))) else Ok(Unit)
    {
      if state.Tracking? || state.Paused? || state.Locked? {
        state := Stopped;
        generation := generation + 1;
        return Ok(Unit);
      }
      if state.Stopped? {
        return Ok(Unit);
      }
      return Err(InvalidStateTransition(state));
    }

    method Lock()
      requires Valid()
      modifies this
      ensures Valid() && Now() == Apply(old(Now()), Event.Lock)
    {
      if state.Tracking? || state.Paused? {
        state := Locked;
        generation := generation + 1;
      }
    }

    method Unlock()
      requires Valid()
      modifies this
      ensures Valid() && Now() == Apply(old(Now()), Event.Unlock)
    {
      if state.Locked? {
        state := Paused(User);
        generation := generation + 1;
      }
    }

    method Quit()
      requires Valid()
      modifies this
      ensures Valid() && Now() == Apply(old(Now()), Event.Quit)
    {
      state := Terminated;
      generation := generation + 1;
    }

    /** Reconciled whether or not the choice could be saved. */
    method UpdateConsent(next: LocalConsent) returns (r: Result<Unit, LifecycleError>)
      requires Valid()
      modifies Footprint()
      ensures Valid() && Now() == Apply(old(Now()), Event.UpdateConsent(next, r.Ok?))
      ensures r.Ok? <==> UpdateSucceeds(old(Now()).consent, next, r.Ok?)
      ensures r.Err? ==> r.error.ConsentSaveError?
    {
      var prevConsent := consentManager.current;
      var prevEffective := EffectivePermissions();
      var updated := consentManager.Update(next);
      var newConsent := consentManager.current;
      var newEffective := EffectivePermissions();
      if prevConsent != newConsent || prevEffective != newEffective {
        generation := generation + 1;
        if state == Tracking && !newEffective.HasAnyCapability() {
          state := Stopped;
        }
      }
      match updated {
        case Ok(_) => return Ok(Unit);
        case Err(e) => return Err(ConsentSaveError(e));
      }
    }

    method AcquireTicket(cap: Capability) returns (r: Result<Ticket, AcquisitionError>)
      ensures r == Acquired(Now(), cap)
    {
      if !state.Tracking? {
        return Err(NotTracking(state));
      }
      var effective := EffectivePermissions();
      if !effective.Permits(cap) {
        return Err(CapabilityNotPermitted(cap));
      }
      return Ok(Ticket(generation, cap));
    }

    method ValidateTicket(ticket: Ticket) returns (r: Result<Unit, AcquisitionError>)
      ensures r == match TicketRefusal(Now(), ticket) { case None => Ok(Unit) case Some(e) => Err(e) }
    {
      if !state.Tracking? {
        return Err(NotTracking(state));
      }
      if ticket.generation != generation {
        return Err(GenerationMismatch(ticket.generation, generation));
      }
      var effective := EffectivePermissions();
      if !effective.Permits(ticket.capability) {
        return Err(CapabilityNotPermitted(ticket.capability));
      }
      return Ok(Unit);
    }
  }

  // ---- whole runs ----

  /** The states of a run, each led to by one event. */
  ghost predicate IsRun(ls: seq<Life>, es: seq<Event>) {
    |ls| == |es| + 1 && forall i | 0 <= i < |es| :: ls[i + 1] == Apply(ls[i], es[i])
  }

  /** Another policy reaches a terminated tracker. */
  predicate Unnumbered(l: Life, e: Event) {
    l.state.Terminated? && e.Configure? && l.policy != Some(e.policy)
  }

  /** Every event changes nothing or starts a new generation, with exactly one exception: another policy for
      a terminated tracker, which changes the policy alone. */
  lemma ChangesAreNumbered(l: Life, e: Event)
    ensures Apply(l, e).generation == l.generation || Apply(l, e).generation == l.generation + 1
    ensures Apply(l, e).generation == l.generation && Apply(l, e) != l <==> Unnumbered(l, e)
    ensures Unnumbered(l, e) ==> Apply(l, e) == l.(policy := Some(e.policy))
    ensures l.state.Terminated? ==> Apply(l, e).state.Terminated?
  {
  }

  /** Every different policy is such an exception, so "every change starts a new generation" fails there. */
  lemma PolicyChangesUnnumberedOnceTerminated(l: Life, policy: Permissions)
    requires l.state.Terminated? && l.policy != Some(policy)
    ensures var after := Apply(l, Event.Configure(policy));
            after.generation == l.generation && after.policy != l.policy
  {
  }

  /** The generation never decreases, and Terminated is never left. */
  lemma {:induction false} GenerationsAscend(ls: seq<Life>, es: seq<Event>, i: nat, j: nat)
    requires IsRun(ls, es) && i <= j < |ls|
    ensures ls[i].generation <= ls[j].generation <= ls[i].generation + (j - i)
    ensures ls[i].state.Terminated? ==> ls[j].state.Terminated?
    decreases j
  {
    if i < j {
      GenerationsAscend(ls, es, i, j - 1);
      assert ls[j - 1 + 1] == Apply(ls[j - 1], es[j - 1]);
      ChangesAreNumbered(ls[j - 1], es[j - 1]);
    }
  }

  /** A tracker still in its old generation is the same: in the same state with the same consent all along, and
      unless it was terminated with the same policy, too. */
  lemma {:induction false} SameGenerationSameLife(ls: seq<Life>, es: seq<Event>, i: nat, j: nat, k: nat)
    requires IsRun(ls, es) && i <= k <= j < |ls| && ls[j].generation == ls[i].generation
    ensures ls[k] == ls[i].(policy := ls[k].policy)
    ensures !ls[i].state.Terminated? ==> ls[k] == ls[i]
    decreases k
  {
    if i < k {
      SameGenerationSameLife(ls, es, i, j, k - 1);
      GenerationsAscend(ls, es, i, k);
      GenerationsAscend(ls, es, k, j);
      assert ls[k - 1 + 1] == Apply(ls[k - 1], es[k - 1]);
      ChangesAreNumbered(ls[k - 1], es[k - 1]);
    }
  }

  /** Over any run the generation is unchanged exactly when every event changed nothing or was such an exception. */
  lemma {:induction false} GenerationStandsStill(ls: seq<Life>, es: seq<Event>, i: nat, j: nat)
    requires IsRun(ls, es) && i <= j < |ls|
    ensures ls[j].generation == ls[i].generation
       <==> forall k | i <= k < j :: ls[k + 1] == ls[k] || Unnumbered(ls[k], es[k])
    decreases j
  {
    if i < j {
      GenerationStandsStill(ls, es, i, j - 1);
      GenerationsAscend(ls, es, i, j - 1);
      assert ls[j - 1 + 1] == Apply(ls[j - 1], es[j - 1]);
      ChangesAreNumbered(ls[j - 1], es[j - 1]);
    }
  }

  /** ABA safety: a ticket validates later exactly when the generation is unchanged, and then the tracker was
      tracking all along under the same effective permissions. */
  lemma {:induction false} TicketsOutlastNoChange(ls: seq<Life>, es: seq<Event>, i: nat, j: nat, cap: Capability)
    requires IsRun(ls, es) && i <= j < |ls| && Acquired(ls[i], cap).Ok?
    ensures TicketRefusal(ls[j], Acquired(ls[i], cap).value).None? <==> ls[j].generation == ls[i].generation
    ensures TicketRefusal(ls[j], Acquired(ls[i], cap).value).None? ==>
              forall k | i <= k <= j ::
                ls[k].state.Tracking? && ls[k].Effective() == ls[i].Effective() && ls[k].consent == ls[i].consent
  {
    if ls[j].generation == ls[i].generation {
      forall k | i <= k <= j
        ensures ls[k] == ls[i]
      {
        SameGenerationSameLife(ls, es, i, j, k);
      }
    }
  }

  /** Tracking has a policy, a granted consent and something the two agree on. */
  ghost predicate TracksWithConsent(l: Life) {
    l.state.Tracking? ==>
      && l.policy.Some? && l.consent.current.Granted?
      && exists cap :: l.policy.value.Permits(cap) && l.consent.current.permissions.Permits(cap)
  }

  lemma TracksSomething(l: Life)
    ensures TracksWithConsent(l) <==> (l.state.Tracking? ==> l.Effective().HasAnyCapability())
  {
    if l.policy.Some? && l.consent.current.Granted? {
      IntersectIsGreatestLowerBound(l.consent.current.permissions, l.policy.value, ALL_DISABLED);
    }
  }

  /** One event keeps that, and enters tracking only if it is a start. */
  lemma StepTracksWithConsent(l: Life, e: Event)
    requires TracksWithConsent(l)
    ensures TracksWithConsent(Apply(l, e))
    ensures Apply(l, e).state.Tracking? && !l.state.Tracking? ==> e.Start?
  {
    TracksSomething(l);
    TracksSomething(Apply(l, e));
  }

  lemma StepStaysWithinRecord(l: Life, e: Event)
    requires WithinRecord(l.consent)
    ensures WithinRecord(Apply(l, e).consent)
  {
    if e.UpdateConsent? {
      MemoryNeverExceedsRecord(l.consent, [Choose(e.next, e.saved)], e.next);
      OneChoice(l.consent, e.next, e.saved);
    }
  }

  lemma AcquiredIsGranted(l: Life, cap: Capability)
    requires Acquired(l, cap).Ok? && WithinRecord(l.consent)
    ensures l.policy.Some? && l.policy.value.Permits(cap) && l.consent.current.Allowed().Permits(cap)
    ensures l.consent.durable.Some? ==> l.consent.durable.value.Allowed().Permits(cap)
  {
    if l.policy.Some? && l.consent.current.Granted? {
      IntersectIsGreatestLowerBound(l.consent.current.permissions, l.policy.value, ALL_DISABLED);
    }
  }

  /** Over any run from a new tracker, failed saves included: tracking only with consent, entered only by an
      explicit start; and whatever may be acquired, the policy, the user and the record on disk all grant. */
  lemma {:induction false} TrackingIsConsented(ls: seq<Life>, es: seq<Event>, j: nat, cap: Capability)
    requires IsRun(ls, es) && j < |ls| && ls[0].state.Unconfigured? && WithinRecord(ls[0].consent)
    ensures TracksWithConsent(ls[j]) && WithinRecord(ls[j].consent)
    ensures ls[j].state.Tracking? && j > 0 && !ls[j - 1].state.Tracking? ==> es[j - 1].Start?
    ensures Acquired(ls[j], cap).Ok? ==>
              && ls[j].policy.Some? && ls[j].policy.value.Permits(cap) && ls[j].consent.current.Allowed().Permits(cap)
              && (ls[j].consent.durable.Some? ==> ls[j].consent.durable.value.Allowed().Permits(cap))
  {
    if j > 0 {
      TrackingIsConsented(ls, es, j - 1, cap);
      assert ls[j - 1 + 1] == Apply(ls[j - 1], es[j - 1]);
      StepTracksWithConsent(ls[j - 1], es[j - 1]);
      StepStaysWithinRecord(ls[j - 1], es[j - 1]);
    }
    if Acquired(ls[j], cap).Ok? {
      AcquiredIsGranted(ls[j], cap);
    }
  }

  /** Over any run from a new tracker, failed saves included: each capability that may be acquired has its own
      field set in the record on disk. */
  lemma {:induction false} AcquiredIsRecorded(ls: seq<Life>, es: seq<Event>, j: nat)
    requires IsRun(ls, es) && j < |ls| && ls[0].state.Unconfigured? && WithinRecord(ls[0].consent)
    requires ls[j].consent.durable.Some?
    ensures var record := ls[j].consent.durable.value;
            && (Acquired(ls[j], ScreenCapture).Ok? ==> record.Granted? && record.permissions.screenshot)
            && (Acquired(ls[j], KeyboardCount).Ok? ==> record.Granted? && record.permissions.keyboard)
            && (Acquired(ls[j], MouseCount).Ok? ==> record.Granted? && record.permissions.mouse)
            && (Acquired(ls[j], ActiveWindow).Ok? ==> record.Granted? && record.permissions.activeWindow)
            && (Acquired(ls[j], RunningPrograms).Ok? ==> record.Granted? && record.permissions.runningPrograms)
            && (Acquired(ls[j], Webcam).Ok? ==> record.Granted? && record.permissions.webcam)
  {
    TrackingIsConsented(ls, es, j, ScreenCapture);
    TrackingIsConsented(ls, es, j, KeyboardCount);
    TrackingIsConsented(ls, es, j, MouseCount);
    TrackingIsConsented(ls, es, j, ActiveWindow);
    TrackingIsConsented(ls, es, j, RunningPrograms);
    TrackingIsConsented(ls, es, j, Webcam);
  }

  lemma OneChoice(s: ConsentState, next: LocalConsent, saved: bool)
    ensures AfterAll(s, [Choose(next, saved)]) == Updated(s, next, saved)
  {
    assert [Choose(next, saved)][..0] == [];
  }

  /** A choice that newly allows a capability under a policy was saved. */
  lemma WiderIsSaved(s: ConsentState, next: LocalConsent, saved: bool, policy: Permissions, cap: Capability)
    requires s.durable.Some?
    requires Updated(s, next, saved).current.Effective(policy).Permits(cap) && !s.current.Effective(policy).Permits(cap)
    ensures saved && next.Granted? && next.permissions.Permits(cap) && Updated(s, next, saved).current != s.current
  {
    if !NoMoreThan(Updated(s, next, saved).current.Allowed(), s.current.Allowed()) {
      WidensOnlyOnceSaved(s, next, saved);
    }
  }

  /** Consent only narrows as it is updated while tracking, unless the choice was saved. */
  lemma TrackingWidensOnlyOnceSaved(l: Life, next: LocalConsent, saved: bool, cap: Capability)
    requires l.consent.durable.Some? && l.policy.Some? && l.state.Tracking?
    requires var after := Apply(l, Event.UpdateConsent(next, saved));
             after.Effective().Permits(cap) && !l.Effective().Permits(cap)
    ensures saved && next.Granted? && next.permissions.Permits(cap) && l.generation < Apply(l, Event.UpdateConsent(next, saved)).generation
  {
    WiderIsSaved(l.consent, next, saved, l.policy.value, cap);
  }
}
