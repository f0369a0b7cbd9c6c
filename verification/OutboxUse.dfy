/** Any use of the outbox, the pass and the transport is a run. */
module OutboxUse {
  import opened Wrappers
  import opened Utf8
  import opened QueueRows
  import opened Enqueueing
  import opened Limits
  import opened OutboxStore
  import opened SyncPass
  import opened SyncCoordinator
  import opened OutboxRuns

  ghost function SiteOf(outbox: Outbox, transport: Transport, flights: map<nat, Flight>): Site
    reads outbox, transport
  {
    Site(World(outbox.rows, outbox.nextId, transport.ledger), flights)
  }

  /** Start an upload of a queued row. */
  method TakeOff(outbox: Outbox, transport: Transport, flights: map<nat, Flight>, f: nat, scope: Scope) returns (flights': map<nat, Flight>)
    requires outbox.Valid() && f !in flights
    ensures flights' == flights || FlightStep(SiteOf(outbox, transport, flights), SiteOf(outbox, transport, flights'), f)
  {
    var limit: nat := *;
    var peeked := outbox.PeekReady(scope, limit);
    if peeked.Err? || peeked.value == [] {
      return flights;
    }
    var k: nat := *;
    k := k % |peeked.value|;
    flights' := flights[f := Peeked(peeked.value[k])];
    outbox.RowsKeyed();
    PendingFromMembers(outbox.rows, scope, 1, outbox.nextId);
    assert outbox.Queue(scope)[k] in outbox.Queue(scope);
    assert flights' - {f} == flights - {f};
  }

  /** Load the captures of the row an upload is of. */
  method Load(outbox: Outbox, transport: Transport, flights: map<nat, Flight>, f: nat) returns (flights': map<nat, Flight>)
    requires outbox.Valid() && f in flights && flights[f].Peeked?
    ensures FlightStep(SiteOf(outbox, transport, flights), SiteOf(outbox, transport, flights'), f)
  {
    var e := flights[f].entry;
    if e.format.V2? {
      var captures := outbox.LoadCaptures(e.scope, e.id);
      if captures.Err? {
        flights' := flights - {f};
        return;
      }
      e := e.(captures := captures.value);
    }
    flights' := flights[f := Ready(e, false)];
    assert flights' - {f} == flights - {f};
  }

  /** Send it. */
  method Send(outbox: Outbox, transport: Transport, flights: map<nat, Flight>, f: nat) returns (flights': map<nat, Flight>)
    requires f in flights && flights[f].Ready?
    modifies transport
    ensures FlightStep(old(SiteOf(outbox, transport, flights)), SiteOf(outbox, transport, flights'), f)
  {
    var outcome := transport.Deliver(flights[f].entry);
    flights' := flights[f := Told(flights[f].entry, outcome, flights[f].resent)];
    assert flights' - {f} == flights - {f};
  }

  lemma RemovalCarriedOut(rows: Rows, rows': Rows, fl: Flight)
    requires fl.Told? && IntentOf(fl.outcome, fl.entry.cid, fl.resent).Remove?
    requires exists id :: Target(rows, fl.entry.scope, fl.entry.cid, id) && rows' == rows - {id}
    ensures exists id :: CarriedOut(rows, rows', fl, id)
  {
    var id :| Target(rows, fl.entry.scope, fl.entry.cid, id) && rows' == rows - {id};
    assert CarriedOut(rows, rows', fl, id);
  }

  lemma ParkingCarriedOut(rows: Rows, rows': Rows, fl: Flight, now: int)
    requires fl.Told? && IntentOf(fl.outcome, fl.entry.cid, fl.resent).ParkFor?
    requires var reason := IntentOf(fl.outcome, fl.entry.cid, fl.resent).reason;
             exists id :: PendingTarget(rows, fl.entry, id) && rows' == rows[id := ParkedRow(rows[id], now, reason)]
    ensures exists id :: CarriedOut(rows, rows', fl, id)
  {
    var reason := IntentOf(fl.outcome, fl.entry.cid, fl.resent).reason;
    var id :| PendingTarget(rows, fl.entry, id) && rows' == rows[id := ParkedRow(rows[id], now, reason)];
    assert CarriedOut(rows, rows', fl, id);
  }

  lemma AttemptCarriedOut(rows: Rows, rows': Rows, fl: Flight)
    requires fl.Told? && IntentOf(fl.outcome, fl.entry.cid, fl.resent).Record?
    requires var reason := IntentOf(fl.outcome, fl.entry.cid, fl.resent).reason;
             exists id :: PendingTarget(rows, fl.entry, id) && rows' == rows[id := FailedRow(rows[id], reason)]
    ensures exists id :: CarriedOut(rows, rows', fl, id)
  {
    var reason := IntentOf(fl.outcome, fl.entry.cid, fl.resent).reason;
    var id :| PendingTarget(rows, fl.entry, id) && rows' == rows[id := FailedRow(rows[id], reason)];
    assert CarriedOut(rows, rows', fl, id);
  }

  /** Carry out its answer, with one call of the store. */
  method Conclude(outbox: Outbox, transport: Transport, flights: map<nat, Flight>, f: nat, now: int) returns (flights': map<nat, Flight>)
    requires outbox.Valid() && f in flights && flights[f].Told?
    modifies outbox
    ensures outbox.Valid()
    ensures FlightStep(old(SiteOf(outbox, transport, flights)), SiteOf(outbox, transport, flights'), f)
  {
    var Told(e, outcome, resent) := flights[f];
    ghost var (rows, fl) := (outbox.rows, flights[f]);
    flights' := flights - {f};
    match IntentOf(outcome, e.cid, resent) {
      case Remove =>
        var acked := outbox.AckDelivered(e.scope, e.cid);
        if acked.Ok? {
          RemovalCarriedOut(rows, outbox.rows, fl);
        }
      case ParkFor(reason, _) =>
        BoundedReasonsAreKept(outcome.reason);
        var parked := outbox.Park(e.scope, e.cid, reason, now);
        if parked.Ok? {
          ParkingCarriedOut(rows, outbox.rows, fl, now);
        }
      case Record(reason, _) =>
        var marked := outbox.MarkAttemptFailed(e.scope, e.cid, reason);
        if marked.Ok? {
          AttemptCarriedOut(rows, outbox.rows, fl);
        }
      case Keep(_, _) =>
      case StripAndResend(_) =>
        flights' := Strip(outbox, transport, flights, f);
    }
  }

  /** Strip its row and send it again, or park it if there was nothing to strip. */
  method Strip(outbox: Outbox, transport: Transport, flights: map<nat, Flight>, f: nat) returns (flights': map<nat, Flight>)
    requires outbox.Valid() && f in flights && flights[f].Told? && flights[f].outcome.StripCaptures? && !flights[f].resent
    modifies outbox
    ensures outbox.Valid()
    ensures FlightStep(old(SiteOf(outbox, transport, flights)), SiteOf(outbox, transport, flights'), f)
  {
    var e := flights[f].entry;
    var stripped := outbox.StripCaptures(e.scope, e.cid);
    if stripped.Err? {
      flights' := flights - {f};
    } else if stripped.value {
      flights' := flights[f := Ready(e.(captures := Cleared(e.captures), captureBytes := 0), true)];
    } else {
      flights' := flights[f := Told(e, Park(flights[f].outcome.reason), true)];
    }
    assert flights' - {f} == flights - {f};
  }

  /** One call of an upload. */
  method AnyFlight(outbox: Outbox, transport: Transport, flights: map<nat, Flight>, f: nat, scope: Scope, now: int) returns (flights': map<nat, Flight>)
    requires outbox.Valid()
    modifies outbox, transport
    ensures outbox.Valid()
    ensures var (s, s') := (old(SiteOf(outbox, transport, flights)), SiteOf(outbox, transport, flights'));
            s' == s || FlightStep(s, s', f)
  {
    if f !in flights {
      flights' := TakeOff(outbox, transport, flights, f, scope);
    } else {
      match flights[f] {
        case Peeked(_) => flights' := Load(outbox, transport, flights, f);
        case Ready(_, _) => flights' := Send(outbox, transport, flights, f);
        case Told(_, _, _) => flights' := Conclude(outbox, transport, flights, f, now);
      }
    }
  }

  /** One call of the worker: `cause` says which, unless the call failed or had nothing to do. */
  method AnyWork(outbox: Outbox, scope: Scope, now: int) returns (cause: Option<Cause>)
    requires outbox.Valid()
    modifies outbox
    ensures outbox.Valid()
    ensures cause.None? ==> outbox.rows == old(outbox.rows) && outbox.nextId == old(outbox.nextId)
    ensures cause.Some? ==>
              && !cause.value.ByFlight? && !cause.value.ByCrash?
              && forall ledger: Ledger ::
                   WorldStep(cause.value, World(old(outbox.rows), old(outbox.nextId), ledger), World(outbox.rows, outbox.nextId, ledger))
  {
    if {
      case true => cause := AnyEnqueue(outbox, scope, now);
      case true => cause := AnyPurge(outbox, scope, now);
      case true =>
        var limits: QueueLimits := *;
        var r := outbox.EnforceLimits(limits, now);
        cause := if r.Ok? then Some(ByLimits(limits, now)) else None;
      case true =>
        var reason: Text := *;
        var r := outbox.ParkScope(scope, reason, now);
        cause := if r.Ok? then Some(ByParkScope(scope, now, Truncated(reason, MAX_PARKED_REASON_BYTES))) else None;
    }
  }

  method AnyEnqueue(outbox: Outbox, scope: Scope, now: int) returns (cause: Option<Cause>)
    requires outbox.Valid()
    modifies outbox
    ensures outbox.Valid()
    ensures cause.None? ==> outbox.rows == old(outbox.rows) && outbox.nextId == old(outbox.nextId)
    ensures cause.Some? ==>
              && cause.value.ByEnqueue?
              && forall ledger: Ledger ::
                   WorldStep(cause.value, World(old(outbox.rows), old(outbox.nextId), ledger), World(outbox.rows, outbox.nextId, ledger))
  {
    var inserted: bool;
    if * {
      var envelope: Envelope := *;
      inserted := QueueEnvelope(outbox, scope, envelope, now);
    } else {
      var pending: PendingActivity := *;
      var key: Bytes := *;
      inserted := QueueActivity(outbox, scope, pending, key, now);
    }
    cause := if inserted then Some(ByEnqueue) else None;
  }

  method QueueEnvelope(outbox: Outbox, scope: Scope, envelope: Envelope, now: int) returns (inserted: bool)
    requires outbox.Valid()
    modifies outbox
    ensures outbox.Valid()
    ensures !inserted ==> outbox.rows == old(outbox.rows) && outbox.nextId == old(outbox.nextId)
    ensures inserted ==> outbox.nextId == old(outbox.nextId) + 1 && Inserts(old(outbox.rows), old(outbox.nextId), outbox.rows)
  {
    var r := outbox.Enqueue(scope, envelope, now);
    inserted := r.Ok? && r.value.Inserted?;
  }

  method QueueActivity(outbox: Outbox, scope: Scope, pending: PendingActivity, key: Bytes, now: int) returns (inserted: bool)
    requires outbox.Valid()
    modifies outbox
    ensures outbox.Valid()
    ensures !inserted ==> outbox.rows == old(outbox.rows) && outbox.nextId == old(outbox.nextId)
    ensures inserted ==> outbox.nextId == old(outbox.nextId) + 1 && Inserts(old(outbox.rows), old(outbox.nextId), outbox.rows)
  {
    var r := outbox.EnqueueActivity(scope, pending, key, now);
    inserted := r.Ok? && r.value.Inserted?;
  }

  method AnyPurge(outbox: Outbox, scope: Scope, now: int) returns (cause: Option<Cause>)
    requires outbox.Valid()
    modifies outbox
    ensures outbox.Valid()
    ensures cause.None? ==> outbox.rows == old(outbox.rows) && outbox.nextId == old(outbox.nextId)
    ensures cause.Some? ==>
              && (cause.value.ByPurge? || cause.value.ByPurgeParked? || cause.value.ByPurgeForeign?)
              && forall ledger: Ledger ::
                   WorldStep(cause.value, World(old(outbox.rows), old(outbox.nextId), ledger), World(outbox.rows, outbox.nextId, ledger))
  {
    ghost var rows := outbox.rows;
    var days: nat := *;
    var r: Result<nat, OutboxError>;
    var why: Cause;
    if {
      case true =>
        r := outbox.PurgeParkedOlderThan(days, now);
        why := ByPurgeParked(days, now);
      case true =>
        var current: Option<Text> := *;
        r := outbox.PurgeForeignPendingOlderThan(current, days, now);
        why := ByPurgeForeign(outbox.Normalized(current), days, now);
      case true =>
        var target: PurgeTarget := *;
        r := outbox.Purge(scope.account, target);
        why := ByPurge(outbox.normal(scope.account), target);
    }
    cause := if r.Ok? then Some(why) else None;
    if r.Ok? {
      WithoutDropped(why, rows, outbox.rows);
    }
  }

  lemma WithoutDropped(cause: Cause, rows: Rows, left: Rows)
    requires forall id :: id in left <==> id in rows && !Drops(cause, rows, id)
    requires forall id | id in left :: left[id] == rows[id]
    ensures left == AfterPurge(cause, rows)
  {
    var kept := AfterPurge(cause, rows);
    forall id
      ensures id in left <==> id in kept
    {
      assert id in left <==> id in rows && !Drops(cause, rows, id);
    }
  }

  /** Any number of calls in any order, each of them one transaction or one delivery, any number of uploads under
      way at once, crashes and undisturbed passes among them: what the store and the server go through is a run.
      `calls` is arbitrary, so this holds after every single call. */
  method AnyUse(outbox: Outbox, transport: Transport, calls: nat)
      returns (flights: map<nat, Flight>, ghost ss: seq<Site>, ghost causes: seq<Cause>)
    requires outbox.Valid()
    modifies outbox, transport
    ensures outbox.Valid()
    ensures RunTo(ss, causes, old(SiteOf(outbox, transport, map[])), SiteOf(outbox, transport, flights))
  {
    flights := map[];
    ghost var from := SiteOf(outbox, transport, flights);
    ss, causes := [from], [];
    SiteStart(outbox, transport);
    for call := 0 to calls
      invariant outbox.Valid()
      invariant RunTo(ss, causes, from, SiteOf(outbox, transport, flights))
    {
      ghost var before := SiteOf(outbox, transport, flights);
      var scope: Scope := *;
      var now: int := *;
      ghost var step: Option<Cause> := None;
      if {
        case true =>
          var f: nat := *;
          flights := AnyFlight(outbox, transport, flights, f, scope, now);
          step := if SiteOf(outbox, transport, flights) == before then None else Some(ByFlight(f));
        case true =>
          step := AnyWork(outbox, scope, now);
        case true =>
          flights := map[];
          step := Some(ByCrash);
        case true =>
          var config: Config := *;
          var coordinator := new SyncPassCoordinator(outbox, config);
          var result;
          ghost var trace;
          result, trace := coordinator.RunPass(scope, transport);
          ss, causes := PassIsRun(ss, causes, from, flights, scope, trace, before.world, SiteOf(outbox, transport, flights).world, |trace| - 1);
      }
      if step.Some? {
        OneMore(ss, causes, from, before, step.value, SiteOf(outbox, transport, flights));
        ss, causes := ss + [SiteOf(outbox, transport, flights)], causes + [step.value];
      }
    }
  }

  lemma SiteStart(outbox: Outbox, transport: Transport)
    requires outbox.Valid()
    ensures SiteOk(SiteOf(outbox, transport, map[]))
  {
    ValidRowsKeyed(outbox.crypto, outbox.keys, outbox.rows, outbox.nextId);
  }
}
