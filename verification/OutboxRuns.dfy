/** Whole runs: the worker queues activities, enforces limits, purges and parks scopes while uploads are under
    way, between any two of their steps, and a crash may end all of them at any moment. */
module OutboxRuns {
  import opened Wrappers
  import opened Utf8
  import opened QueueRows
  import opened Limits
  import opened OutboxStore
  import opened SyncPass
  import opened SyncCoordinator

  /** One upload: its row was peeked at, its captures were loaded, or the transport has answered. */
  datatype Flight =
    | Peeked(entry: Entry)
    | Ready(entry: Entry, resent: bool)
    | Told(entry: Entry, outcome: Outcome, resent: bool)

  /** The world and the uploads under way. */
  datatype Site = Site(world: World, flights: map<nat, Flight>)

  datatype Cause =
    | ByPass(scope: Scope)                                        // an effect of an undisturbed pass
    | ByFlight(f: nat)                                            // a step of one upload
    | ByEnqueue
    | ByLimits(limits: QueueLimits, now: int)
    | ByPurgeParked(days: nat, now: int)
    | ByPurgeForeign(current: Option<Text>, days: nat, now: int)
    | ByPurge(account: Text, target: PurgeTarget)
    | ByParkScope(scope: Scope, now: int, reason: Text)
    | ByCrash

  // ---- the worker's steps ----

  /** A new row under the next id and a free identity. */
  ghost predicate Inserts(rows: Rows, nextId: int, rows': Rows) {
    && nextId in rows'
    && var r := rows'[nextId];
       && r.id == nextId && (forall id :: !Target(rows, r.scope, r.cid, id))
       && rows' == rows[nextId := r]
  }

  ghost predicate EnqueueEffect(w: World, w': World) {
    w'.nextId == w.nextId + 1 && w'.ledger == w.ledger && Inserts(w.rows, w.nextId, w'.rows)
  }

  /** The rows a limit or a purge drops: past the limits' own rule, or those the purge names. */
  predicate Drops(cause: Cause, rows: Rows, id: int)
    requires id in rows
  {
    match cause
    case ByLimits(limits, now) => PendingAt(rows, id) && !Survives(rows, limits, now, id)
    case ByPurgeParked(days, now) => LongParked(days, now, rows[id])
    case ByPurgeForeign(current, days, now) => LongForeign(current, days, now, rows[id])
    case ByPurge(account, target) => Purged(account, target, rows[id])
    case _ => false
  }

  function AfterPurge(cause: Cause, rows: Rows): Rows {
    map id | id in rows && !Drops(cause, rows, id) :: rows[id]
  }

  // ---- the steps of an upload ----

  /** The captures as the store has them now; none if the row is gone. */
  function Loaded(rows: Rows, e: Entry): Entry {
    if e.format.V1? then e
    else e.(captures := if e.id in rows && rows[e.id].scope == e.scope then InKindOrder(rows[e.id].captures) else [])
  }

  /** Row `id` is the pending row an answer to `e` is about: the store looks it up by scope and activity id. */
  ghost predicate PendingTarget(rows: Rows, e: Entry, id: int) {
    Target(rows, e.scope, e.cid, id) && rows[id].state.Pending?
  }

  /** An upload ends: its answer is carried out on the row stored under its activity id, or nothing is done. */
  ghost predicate Lands(w: World, w': World, fl: Flight) {
    || w' == w
    || (fl.Told? && w' == w.(rows := w'.rows) && exists id :: CarriedOut(w.rows, w'.rows, fl, id))
  }

  ghost predicate CarriedOut(rows: Rows, rows': Rows, fl: Flight, id: int)
    requires fl.Told?
  {
    match IntentOf(fl.outcome, fl.entry.cid, fl.resent)
    case Remove => Target(rows, fl.entry.scope, fl.entry.cid, id) && rows' == rows - {id}
    case ParkFor(reason, _) =>
      PendingTarget(rows, fl.entry, id) && exists now :: rows' == rows[id := ParkedRow(rows[id], now, reason)]
    case Record(reason, _) => PendingTarget(rows, fl.entry, id) && rows' == rows[id := FailedRow(rows[id], reason)]
    case _ => false
  }

  /** An upload goes on: captures loaded, answered, or stripped and to be sent again (parked, if there was nothing to strip). */
  ghost predicate GoesOn(w: World, w': World, fl: Flight, fl': Flight) {
    match fl
    case Peeked(e) => w' == w && fl' == Ready(Loaded(w.rows, e), false)
    case Ready(e, resent) =>
      && w' == w.(ledger := w'.ledger) && RecordedAtMost(w.ledger, w'.ledger, e)
      && fl'.Told? && fl' == Told(e, fl'.outcome, resent)
      && (fl'.outcome == Accepted(e.cid) ==> KeyOf(e) in w'.ledger)
    case Told(e, outcome, resent) =>
      && w' == w.(rows := w'.rows) && outcome.StripCaptures? && !resent
      && exists id ::
           && PendingTarget(w.rows, e, id) && w'.rows == w.rows[id := ShedRow(w.rows[id])]
           && fl' == if w.rows[id].captureBytes > 0
                     then Ready(e.(captures := Cleared(e.captures), captureBytes := 0), true)
                     else Told(e, Park(outcome.reason), true)
  }

  ghost predicate FlightStep(s: Site, s': Site, f: nat) {
    && s'.flights - {f} == s.flights - {f}
    && if f !in s.flights then
         && s'.world == s.world && f in s'.flights && s'.flights[f].Peeked?
         && var e := s'.flights[f].entry;
            e.id in s.world.rows && s.world.rows[e.id].state.Pending? && e == EntryOf(s.world.rows[e.id])
       else if f in s'.flights then GoesOn(s.world, s'.world, s.flights[f], s'.flights[f])
       else Lands(s.world, s'.world, s.flights[f])
  }

  ghost predicate Step(cause: Cause, s: Site, s': Site) {
    match cause
    case ByFlight(f) => FlightStep(s, s', f)
    case ByCrash => s' == s.(flights := map[])
    case _ => s'.flights == s.flights && WorldStep(cause, s.world, s'.world)
  }

  ghost predicate WorldStep(cause: Cause, w: World, w': World) {
    match cause
    case ByPass(scope) => PassEffect(scope, w, w')
    case ByEnqueue => EnqueueEffect(w, w')
    case ByLimits(limits, now) => w' == w.(rows := Enforced(w.rows, w.nextId, limits, now))
    case ByParkScope(scope, now, reason) => w' == w.(rows := ParkAll(w.rows, scope, now, reason))
    case _ => w' == w.(rows := AfterPurge(cause, w.rows))
  }

  ghost predicate Sound(w: World) {
    && 1 <= w.nextId && Keyed(w.rows) && UniqueIdentities(w.rows)
    && forall id | id in w.rows :: 1 <= id < w.nextId
  }

  /** `e` is an entry for row `r`: what identifies it and what the tag covers never change. */
  ghost predicate EntryIs(r: Row, e: Entry) {
    e.id == r.id && e.scope == r.scope && e.cid == r.cid && e.payload == r.payload && e.signature == r.signature && e.format == r.format
  }

  /** An upload is of a row that was once there, any other row under its activity id is newer, and it is accepted
      only if the ledger has it. */
  ghost predicate FlightOk(w: World, fl: Flight) {
    && 1 <= fl.entry.id < w.nextId
    && (fl.entry.id in w.rows ==> EntryIs(w.rows[fl.entry.id], fl.entry))
    && (forall id | Target(w.rows, fl.entry.scope, fl.entry.cid, id) :: fl.entry.id <= id)
    && (fl.Told? && fl.outcome == Accepted(fl.entry.cid) ==> KeyOf(fl.entry) in w.ledger)
  }

  ghost predicate SiteOk(s: Site) {
    Sound(s.world) && forall f | f in s.flights :: FlightOk(s.world, s.flights[f])
  }

  /** The sites of a run, and what led from each to the next. */
  ghost predicate IsRun(ss: seq<Site>, causes: seq<Cause>) {
    && |ss| == |causes| + 1 && SiteOk(ss[0])
    && forall i | 0 <= i < |causes| :: StepAt(ss, causes, i)
  }

  ghost predicate StepAt(ss: seq<Site>, causes: seq<Cause>, i: nat)
    requires |ss| == |causes| + 1 && i < |causes|
  {
    Step(causes[i], ss[i], ss[i + 1])
  }

  // ---- what every step keeps ----

  /** What never changes from `w` on: the ledger's content, and of the rows there then everything but their progress. */
  ghost predicate Kept(w: World, w': World) {
    && w.nextId <= w'.nextId
    && (forall k | k in w.ledger :: k in w'.ledger && w'.ledger[k] == w.ledger[k])
    && (forall id | id in w'.rows && id < w.nextId :: id in w.rows && RowEvolves(w.rows[id], w'.rows[id]))
  }

  lemma PassEffectKeeps(scope: Scope, w: World, w': World)
    requires PassEffect(scope, w, w')
    ensures Kept(w, w') && Evolves(w.rows, w'.rows)
  {
    if ChangeOf(scope, w, w') {
      var id :| QueuedAt(w.rows, scope, id) && Changes(w.rows, w'.rows, id);
    }
  }

  lemma ParkAllEvolves(rows: Rows, scope: Scope, now: int, reason: Text)
    ensures Evolves(rows, ParkAll(rows, scope, now, reason))
  {
  }

  lemma WorldStepKeeps(cause: Cause, w: World, w': World)
    requires WorldStep(cause, w, w')
    ensures Kept(w, w')
    ensures cause.ByEnqueue? || (Evolves(w.rows, w'.rows) && w'.nextId == w.nextId)
  {
    match cause
    case ByPass(scope) => PassEffectKeeps(scope, w, w');
    case ByLimits(limits, now) => EnforcedKeepsRows(w.rows, w.nextId, limits, now);
    case ByParkScope(scope, now, reason) => ParkAllEvolves(w.rows, scope, now, reason);
    case _ =>
  }

  /** Of all rows only `id` changed: it left, or evolved. */
  ghost predicate OnlyRow(rows: Rows, rows': Rows, id: int) {
    && id in rows
    && (|| rows' == rows - {id}
        || (id in rows' && RowEvolves(rows[id], rows'[id]) && rows' == rows[id := rows'[id]]))
  }

  lemma CarriedOutChangesOne(rows: Rows, rows': Rows, fl: Flight, id: int)
    requires fl.Told? && CarriedOut(rows, rows', fl, id)
    ensures OnlyRow(rows, rows', id) && Target(rows, fl.entry.scope, fl.entry.cid, id)
    ensures id !in rows' ==> fl.outcome == Accepted(fl.entry.cid)
  {
    match IntentOf(fl.outcome, fl.entry.cid, fl.resent)
    case ParkFor(reason, _) =>
      var now :| rows' == rows[id := ParkedRow(rows[id], now, reason)];
    case _ =>
  }

  lemma ShedChangesOne(rows: Rows, rows': Rows, id: int)
    requires id in rows && rows[id].state.Pending? && rows' == rows[id := ShedRow(rows[id])]
    ensures OnlyRow(rows, rows', id) && id in rows'
  {
  }

  /** The row an upload's step changed, if it changed one. */
  lemma FlightChangesOne(s: Site, s': Site, f: nat) returns (id: int)
    requires FlightStep(s, s', f) && s'.world.rows != s.world.rows
    ensures f in s.flights && s.flights[f].Told?
    ensures var e := s.flights[f].entry;
            OnlyRow(s.world.rows, s'.world.rows, id) && Target(s.world.rows, e.scope, e.cid, id)
    ensures id !in s'.world.rows ==> s.flights[f].outcome == Accepted(s.flights[f].entry.cid) && f !in s'.flights
  {
    var fl := s.flights[f];
    var rows, rows' := s.world.rows, s'.world.rows;
    if f in s'.flights {
      id :| PendingTarget(rows, fl.entry, id) && rows' == rows[id := ShedRow(rows[id])];
      ShedChangesOne(rows, rows', id);
    } else {
      id :| CarriedOut(rows, rows', fl, id);
      CarriedOutChangesOne(rows, rows', fl, id);
    }
  }

  lemma FlightLedger(s: Site, s': Site, f: nat)
    requires FlightStep(s, s', f)
    ensures s'.world.nextId == s.world.nextId
    ensures s'.world.ledger != s.world.ledger ==>
              && f in s.flights && s.flights[f].Ready? && f in s'.flights && s'.world.rows == s.world.rows
              && KeyOf(s.flights[f].entry) !in s.world.ledger
              && s'.world.ledger == s.world.ledger[KeyOf(s.flights[f].entry) := ItemOf(s.flights[f].entry)]
  {
  }

  lemma FlightKeeps(s: Site, s': Site, f: nat)
    requires FlightStep(s, s', f)
    ensures Kept(s.world, s'.world) && Evolves(s.world.rows, s'.world.rows)
  {
    FlightLedger(s, s', f);
    if s'.world.rows != s.world.rows {
      var id := FlightChangesOne(s, s', f);
    }
  }

  lemma StepKeeps(cause: Cause, s: Site, s': Site)
    requires Step(cause, s, s')
    ensures cause.ByEnqueue? || (Evolves(s.world.rows, s'.world.rows) && s'.world.nextId == s.world.nextId)
    ensures Kept(s.world, s'.world)
  {
    match cause
    case ByFlight(f) => FlightKeeps(s, s', f);
    case ByCrash =>
    case _ => WorldStepKeeps(cause, s.world, s'.world);
  }

  lemma EvolvesKeepsSound(w: World, w': World)
    requires Sound(w) && w'.nextId == w.nextId && Evolves(w.rows, w'.rows)
    ensures Sound(w')
  {
    forall scope, cid, i, j | Target(w'.rows, scope, cid, i) && Target(w'.rows, scope, cid, j)
      ensures i == j
    {
      assert Target(w.rows, scope, cid, i) && Target(w.rows, scope, cid, j);
    }
  }

  lemma EnqueueKeepsSound(w: World, w': World)
    requires Sound(w) && EnqueueEffect(w, w')
    ensures Sound(w')
  {
    var r := w'.rows[w.nextId];
    forall scope, cid, i, j | Target(w'.rows, scope, cid, i) && Target(w'.rows, scope, cid, j)
      ensures i == j
    {
      assert i != r.id ==> Target(w.rows, scope, cid, i);
      assert j != r.id ==> Target(w.rows, scope, cid, j);
    }
  }

  lemma KeptTransitive(a: World, b: World, c: World)
    requires Kept(a, b) && Kept(b, c)
    ensures Kept(a, c)
  {
    forall id | id in c.rows && id < a.nextId
      ensures id in a.rows && RowEvolves(a.rows[id], c.rows[id])
    {
      RowEvolvesTransitive(a.rows[id], b.rows[id], c.rows[id]);
    }
  }

  /** An upload under way stays one as the world moves on. */
  lemma FlightStaysOk(w: World, w': World, fl: Flight)
    requires FlightOk(w, fl) && Kept(w, w')
    ensures FlightOk(w', fl)
  {
    forall id | Target(w'.rows, fl.entry.scope, fl.entry.cid, id)
      ensures fl.entry.id <= id
    {
      assert id < w.nextId ==> Target(w.rows, fl.entry.scope, fl.entry.cid, id);
    }
  }

  /** And so does the upload that took a step. */
  lemma SteppedFlightOk(s: Site, s': Site, f: nat)
    requires SiteOk(s) && FlightStep(s, s', f) && f in s'.flights
    ensures FlightOk(s'.world, s'.flights[f])
  {
    FlightKeeps(s, s', f);
    if f in s.flights {
      assert FlightOk(s.world, s.flights[f]);
      FlightStaysOk(s.world, s'.world, s.flights[f]);
    } else {
      PeekedOnlyRow(s.world.rows, s'.flights[f].entry);
    }
  }

  lemma PeekedOnlyRow(rows: Rows, e: Entry)
    requires UniqueIdentities(rows) && Keyed(rows) && e.id in rows && e == EntryOf(rows[e.id])
    ensures forall id | Target(rows, e.scope, e.cid, id) :: id == e.id
  {
    forall id | Target(rows, e.scope, e.cid, id)
      ensures id == e.id
    {
      UniqueTarget(rows, e.scope, e.cid, id, e.id);
    }
  }

  lemma StepKeepsOk(cause: Cause, s: Site, s': Site)
    requires Step(cause, s, s') && SiteOk(s)
    ensures SiteOk(s')
  {
    StepKeeps(cause, s, s');
    if cause.ByEnqueue? {
      EnqueueKeepsSound(s.world, s'.world);
    } else {
      EvolvesKeepsSound(s.world, s'.world);
    }
    forall f | f in s'.flights
      ensures FlightOk(s'.world, s'.flights[f])
    {
      if cause.ByFlight? && cause.f == f {
        SteppedFlightOk(s, s', f);
      } else {
        OtherFlight(cause, s, s', f);
        FlightStaysOk(s.world, s'.world, s.flights[f]);
      }
    }
  }

  lemma OtherFlight(cause: Cause, s: Site, s': Site, f: nat)
    requires Step(cause, s, s') && f in s'.flights && cause != ByFlight(f)
    ensures f in s.flights && s'.flights[f] == s.flights[f]
  {
    if cause.ByFlight? {
      assert f in s'.flights - {cause.f} && f in s.flights - {cause.f};
      assert (s'.flights - {cause.f})[f] == (s.flights - {cause.f})[f];
    }
  }

  /** Over any run: identities stay unique and ids are never handed out twice, the ledger's content for an
      activity never changes, and a row that is there keeps its identity, payload and signature. */
  lemma {:induction false} RunKeeps(ss: seq<Site>, causes: seq<Cause>, i: nat, j: nat)
    requires IsRun(ss, causes) && i <= j < |ss|
    ensures SiteOk(ss[j]) && Kept(ss[i].world, ss[j].world)
    decreases j
  {
    if j > 0 {
      RunKeeps(ss, causes, if i < j then i else j - 1, j - 1);
      assert StepAt(ss, causes, j - 1);
      StepKeepsOk(causes[j - 1], ss[j - 1], ss[j]);
      if i < j {
        StepKeeps(causes[j - 1], ss[j - 1], ss[j]);
        KeptTransitive(ss[i].world, ss[j - 1].world, ss[j].world);
      }
    }
  }

  // ---- which row an answer is about ----

  /** The store carries out an answer on the row it finds under the activity id. That is the row that was sent,
      with what was sent, exactly if that row is still there; otherwise it is a row queued since. */
  lemma {:induction false} AnswerMeetsSentRow(ss: seq<Site>, causes: seq<Cause>, j: nat, f: nat, id: int)
    requires IsRun(ss, causes) && j < |ss| && f in ss[j].flights
    requires var e := ss[j].flights[f].entry; Target(ss[j].world.rows, e.scope, e.cid, id)
    ensures var (rows, e) := (ss[j].world.rows, ss[j].flights[f].entry);
            && (id == e.id <==> e.id in rows)
            && (e.id in rows ==> EntryIs(rows[id], e))
            && (e.id !in rows ==> id > e.id)
  {
    RunKeeps(ss, causes, j, j);
    var (rows, e) := (ss[j].world.rows, ss[j].flights[f].entry);
    assert FlightOk(ss[j].world, ss[j].flights[f]);
    if e.id in rows {
      UniqueTarget(rows, e.scope, e.cid, id, e.id);
    }
  }

  // ---- the calls are such steps ----

  ghost predicate RunTo(ss: seq<Site>, causes: seq<Cause>, from: Site, to: Site) {
    IsRun(ss, causes) && ss[0] == from && ss[|ss| - 1] == to
  }

  lemma OneMore(ss: seq<Site>, causes: seq<Cause>, from: Site, s: Site, cause: Cause, s': Site)
    requires RunTo(ss, causes, from, s) && Step(cause, s, s')
    ensures RunTo(ss + [s'], causes + [cause], from, s')
  {
    var (longer, why) := (ss + [s'], causes + [cause]);
    forall i | 0 <= i < |why|
      ensures StepAt(longer, why, i)
    {
      if i < |causes| {
        assert StepAt(ss, causes, i);
      }
    }
  }

  /** An undisturbed pass, cut after any of its effects, is a piece of a run. */
  lemma {:induction false} PassIsRun(ss: seq<Site>, causes: seq<Cause>, from: Site, flights: map<nat, Flight>, scope: Scope, trace: seq<World>,
                                     w: World, to: World, n: nat) returns (ss': seq<Site>, causes': seq<Cause>)
    requires RunTo(ss, causes, from, Site(w, flights)) && PassTrace(scope, trace, w, to) && n < |trace|
    ensures RunTo(ss', causes', from, Site(trace[n], flights))
    ensures |causes'| == |causes| + n && ss <= ss' && causes <= causes'
    ensures forall k | 0 <= k <= n :: ss'[|causes| + k] == Site(trace[k], flights)
  {
    if n == 0 {
      ss', causes' := ss, causes;
    } else {
      ss', causes' := PassIsRun(ss, causes, from, flights, scope, trace, w, to, n - 1);
      assert PassEffect(scope, trace[n - 1], trace[n - 1 + 1]);
      OneMore(ss', causes', from, Site(trace[n - 1], flights), ByPass(scope), Site(trace[n], flights));
      ss', causes' := ss' + [Site(trace[n], flights)], causes' + [ByPass(scope)];
    }
  }
}
