/** The sync-pass coordinator: the loops of `deliver_row` and `run_pass`. */
module SyncCoordinator {
  import opened Wrappers
  import opened Utf8
  import opened QueueRows
  import opened Limits
  import opened OutboxStore
  import opened SyncPass
  import opened PassAnswers
  import opened PassProgress


  /** Only row `r` of the store changed, and it evolved. */
  ghost predicate OneChange(rows: Rows, rows': Rows, r: Row) {
    r.id in rows' && RowEvolves(r, rows'[r.id]) && rows' == rows[r.id := rows'[r.id]]
  }

  /** Row `r` was left alone, changed in place, or deleted after the ledger had it. */
  ghost predicate OneEffect(rows: Rows, rows': Rows, r: Row, ledger: Ledger) {
    rows' == rows || OneChange(rows, rows', r) || (RowKey(r) in ledger && rows' == rows - {r.id})
  }

  lemma OneEffectIsPassEffect(scope: Scope, rows: Rows, rows': Rows, nextId: int, r: Row, ledger: Ledger)
    requires QueuedAt(rows, scope, r.id) && rows[r.id] == r && OneEffect(rows, rows', r, ledger)
    ensures PassEffect(scope, World(rows, nextId, ledger), World(rows', nextId, ledger))
    ensures rows' - {r.id} == rows - {r.id}
  {
    var w, w' := World(rows, nextId, ledger), World(rows', nextId, ledger);
    if rows' == rows {
    } else if OneChange(rows, rows', r) {
      ChangeEffect(scope, World(rows, nextId, ledger), World(rows', nextId, ledger), r, rows'[r.id]);
    }
  }

  /** Row `r` was not sent yet, or sent (`first`) and stripped; `r1` is the row as it is now. */
  ghost predicate SoFarSent(r: Row, r1: Row, first: Option<Delivery>, before: Report, now: Report) {
    match first
    case None => r1 == r && now == before
    case Some(d) =>
      && d.entry == Sent(r) && d.outcome.StripCaptures? && r.captureBytes > 0 && r1 == ShedRow(r)
      && now == before.(stripped := before.stripped + [r.cid])
  }

  ghost function WithFirst(first: Option<Delivery>): seq<Delivery> {
    match first case None => [] case Some(d) => [d]
  }

  /** A row's turn ends with its last delivery, the second one if its captures were stripped. */
  lemma TakenUpAtLast(r: Row, r1: Row, rows: Rows, rows': Rows, first: Option<Delivery>, last: Delivery,
                      before: Report, now: Report, after: Report, step: RowStep)
    requires SoFarSent(r, r1, first, before, now) && last.entry == Sent(r1) && rows' - {r.id} == rows - {r.id}
    requires Concluded(r1, rows', IntentOf(last.outcome, r.cid, first.Some?), now, after, step)
    ensures TakenUp(r, rows, rows', WithFirst(first) + [last], before, after, step)
  {
    var g := WithFirst(first) + [last];
    assert g[|g| - 1] == last && |g| == if first.Some? then 2 else 1;
  }

  /** What was logged since `a` is what was logged up to `b` and what was logged since. */
  lemma Suffixes(a: seq<Delivery>, b: seq<Delivery>, c: seq<Delivery>)
    requires a <= b <= c
    ensures c[|a|..] == b[|a|..] + c[|b|..]
  {
  }

  lemma LogExtends(log: seq<Delivery>, g: seq<Delivery>, d: Delivery)
    ensures log + g + [d] == log + (g + [d])
  {
  }

  /** How a pass began: its scope, the world, the store's counter and keys, the queue and the log. */
  datatype Run = Run(scope: Scope, start: World, nextId: int, keys: map<int, Bytes>, p: seq<Row>, log0: seq<Delivery>)

  /** After the turn of row `run.p[n]` the pass goes on or has ended; `rows`, `ledger` and `log` are from before. */
  lemma TurnOver(run: Run, config: Config, n: nat, before: Report, rows: Rows, ledger: Ledger, log: seq<Delivery>,
                 rows': Rows, ledger': Ledger, log': seq<Delivery>, step: RowStep, report: Report)
    requires run.log0 <= log <= log' && Keyed(rows) && n < config.maxAttempts && n < |run.p|
    requires SoFar(run.scope, run.start.rows, run.nextId, rows, run.p, n, log[|run.log0|..], ledger, before)
    requires TakenUp(run.p[n], rows, rows', log'[|log|..], before.(attempted := n + 1), report, step)
    requires ledger.Keys <= ledger'.Keys && (run.p[n].id !in rows' ==> RowKey(run.p[n]) in ledger')
    ensures step.Continue? ==>
              && report.attempted == n + 1
              && SoFar(run.scope, run.start.rows, run.nextId, rows', run.p, report.attempted, log'[|run.log0|..], ledger', report)
    ensures step.Stop? ==>
              Done(run.scope, run.start.rows, run.nextId, rows', run.p, log'[|run.log0|..], ledger', config, report)
  {
    Suffixes(run.log0, log, log');
    AfterTurn(run.scope, run.start.rows, run.nextId, rows, run.p, n, log[|run.log0|..], ledger, config, before,
              rows', log'[|log|..], log'[|run.log0|..], ledger', report, step);
  }

  class SyncPassCoordinator {
    const outbox: Outbox
    const config: Config

    constructor (outbox: Outbox, config: Config)
      ensures this.outbox == outbox && this.config == config
    {
      this.outbox := outbox;
      this.config := config;
    }

    ghost function WorldNow(transport: Transport): World
      reads outbox, transport
    {
      World(outbox.rows, outbox.nextId, transport.ledger)
    }

    /** `r` is the queued row `entry` speaks of. */
    ghost predicate Queued(scope: Scope, entry: Entry, r: Row)
      reads outbox
    {
      && outbox.Valid() && ValidScope(scope)
      && QueuedAt(outbox.rows, scope, r.id) && outbox.rows[r.id] == r
      && entry.id == r.id && entry.cid == r.cid
    }

    /** Delete the accepted row and list it; stop if that fails. */
    method AckRow(scope: Scope, entry: Entry, before: Report, ghost r: Row)
      returns (step: RowStep, report: Report)
      requires Queued(scope, entry, r)
      modifies outbox
      ensures outbox.Valid() && outbox.nextId == old(outbox.nextId) && outbox.keys == old(outbox.keys)
      ensures || (&& step.Continue? && outbox.rows == old(outbox.rows) - {r.id}
                  && report == before.(persistedAcknowledged := before.persistedAcknowledged + [r.cid]))
              || (&& step.Stop? && outbox.rows == old(outbox.rows)
                  && report == before.(stopReason := Some(AcknowledgementPersistenceFailed(r.cid, StoreFault))))
    {
      report := before;
      outbox.ValidRowAt(r.id);
      assert Target(outbox.rows, scope, entry.cid, r.id);
      var acked := outbox.AckDelivered(scope, entry.cid);
      match acked {
        case Ok(_) =>
          report := report.(persistedAcknowledged := report.persistedAcknowledged + [entry.cid]);
          return Continue, report;
        case Err(e) =>
          report := report.(stopReason := Some(AcknowledgementPersistenceFailed(entry.cid, e)));
          return Stop, report;
      }
    }

    /** Record a failed attempt and list it: the pass stops with `recorded`, or says it could not be saved. */
    method RecordAttempt(scope: Scope, entry: Entry, reason: Text, before: Report, recorded: StopReason, ghost r: Row)
      returns (stop: StopReason, report: Report)
      requires Queued(scope, entry, r) && |reason| <= MAX_REPORT_DIAGNOSTIC_BYTES
      modifies outbox
      ensures outbox.Valid() && outbox.nextId == old(outbox.nextId) && outbox.keys == old(outbox.keys)
      ensures OneChange(old(outbox.rows), outbox.rows, r)
      ensures || (&& stop == recorded && r.id in outbox.rows && outbox.rows[r.id] == FailedRow(r, reason)
                  && report == before.(transientFailures := before.transientFailures + [ActivityFailure(r.cid, reason)]))
              || (&& stop == RetryMetadataPersistenceFailed(r.cid, reason, StoreFault)
                  && outbox.rows == old(outbox.rows) && report == before)
    {
      report := before;
      outbox.ValidRowAt(r.id);
      assert Target(outbox.rows, scope, entry.cid, r.id);
      var marked := outbox.MarkAttemptFailed(scope, entry.cid, reason);
      match marked {
        case Ok(_) =>
          report := report.(transientFailures := report.transientFailures + [ActivityFailure(entry.cid, reason)]);
          return recorded, report;
        case Err(e) =>
          return RetryMetadataPersistenceFailed(entry.cid, reason, e), report;
      }
    }

    /** Park the row, list it and go on; stop if parking it fails. */
    method ParkRow(scope: Scope, entry: Entry, reason: Text, before: Report, ghost r: Row)
      returns (step: RowStep, report: Report)
      requires Queued(scope, entry, r) && |reason| <= MAX_REPORT_DIAGNOSTIC_BYTES
      modifies outbox
      ensures outbox.Valid() && outbox.nextId == old(outbox.nextId) && outbox.keys == old(outbox.keys)
      ensures OneChange(old(outbox.rows), outbox.rows, r)
      ensures ParkConcluded(r, outbox.rows, reason, None, before, report, step)
    {
      report := before;
      outbox.ValidRowAt(r.id);
      assert Target(outbox.rows, scope, entry.cid, r.id);
      var now: int := *;
      var parked := outbox.Park(scope, entry.cid, reason, now);
      match parked {
        case Ok(_) =>
          assert outbox.rows[r.id] == ParkedRow(r, now, reason);
          report := report.(parked := report.parked + [ActivityFailure(entry.cid, reason)]);
          return Continue, report;
        case Err(e) =>
          report := report.(stopReason := Some(ParkPersistenceFailed(entry.cid, reason, e)));
          return Stop, report;
      }
    }

    /** A revoked device: park the row, and block the scope if that worked. */
    method ParkAndBlock(scope: Scope, entry: Entry, reason: Text, before: Report, ghost r: Row) returns (report: Report)
      requires Queued(scope, entry, r) && |reason| <= MAX_REPORT_DIAGNOSTIC_BYTES
      modifies outbox
      ensures outbox.Valid() && outbox.nextId == old(outbox.nextId) && outbox.keys == old(outbox.keys)
      ensures OneChange(old(outbox.rows), outbox.rows, r)
      ensures ParkConcluded(r, outbox.rows, reason, Some(Revoked), before, report, Stop)
    {
      var step;
      step, report := ParkRow(scope, entry, reason, before, r);
      if step.Stop? {
        return report;
      }
      report := report.(stopReason := Some(ScopeBlocked(entry.cid, reason, Revoked)));
    }

    /** The outcomes that keep the row queued and stop the pass. */
    method StopOn(scope: Scope, entry: Entry, outcome: Outcome, before: Report, ghost r: Row) returns (report: Report)
      requires Queued(scope, entry, r)
      requires !outcome.Accepted? && !outcome.Park? && !outcome.StripCaptures? && !outcome.DeviceRevoked?
      modifies outbox
      ensures outbox.Valid() && outbox.nextId == old(outbox.nextId) && outbox.keys == old(outbox.keys)
      ensures OneChange(old(outbox.rows), outbox.rows, r)
      ensures Concluded(r, outbox.rows, IntentOf(outcome, r.cid, false), before, report, Stop)
    {
      report := before;
      match outcome {
        case TransientFailure(reason) =>
          var bounded := Truncate(reason, MAX_REPORT_DIAGNOSTIC_BYTES);
          var stop;
          stop, report := RecordAttempt(scope, entry, bounded, report, StoppedTransient(entry.cid, bounded), r);
          report := report.(stopReason := Some(stop));
        case RetryLater(reason, kind, retryAfter) =>
          var bounded := Truncate(reason, MAX_REPORT_DIAGNOSTIC_BYTES);
          var stop;
          stop, report := RecordAttempt(scope, entry, bounded, report, StoppedRetryLater(entry.cid, bounded, kind, retryAfter), r);
          report := report.(stopReason := Some(stop));
        case AuthRequired(reason) =>
          var bounded := Truncate(reason, MAX_REPORT_DIAGNOSTIC_BYTES);
          report := report.(stopReason := Some(StoppedAuthRequired(entry.cid, bounded)));
        case Rejected(reason) =>
          var bounded := Truncate(reason, MAX_REPORT_DIAGNOSTIC_BYTES);
          report := report.(definitiveRejections := report.definitiveRejections + [ActivityFailure(entry.cid, bounded)]);
          report := report.(stopReason := Some(DefinitiveRejection(entry.cid, bounded)));
        case WorkspaceAccessLost(reason) =>
          var bounded := Truncate(reason, MAX_REPORT_DIAGNOSTIC_BYTES);
          report := report.(stopReason := Some(ScopeBlocked(entry.cid, bounded, AccessLost)));
      }
    }

    /** An acknowledgement: of this row, which is then deleted, or of another id. */
    method OnAccepted(scope: Scope, entry: Entry, cid: Text, before: Report, ghost ledger: Ledger, ghost r: Row)
      returns (step: RowStep, report: Report)
      requires Queued(scope, entry, r)
      requires cid == entry.cid ==> RowKey(r) in ledger
      modifies outbox
      ensures outbox.Valid() && outbox.nextId == old(outbox.nextId) && outbox.keys == old(outbox.keys)
      ensures OneEffect(old(outbox.rows), outbox.rows, r, ledger)
      ensures Concluded(r, outbox.rows, IntentOf(Accepted(cid), r.cid, false), before, report, step)
    {
      report := before;
      if cid != entry.cid {
        var received := Truncate(cid, MAX_RECEIVED_ID_BYTES);
        report := report.(stopReason := Some(MismatchedAcknowledgement(entry.cid, received)));
        return Stop, report;
      }
      report := report.(transportAccepted := report.transportAccepted + [entry.cid]);
      step, report := AckRow(scope, entry, report, r);
    }

    /** Act on one outcome of delivering `entry`: carry out what it asks for with at most one change of
        the store, and end the row's turn, or strip the row and ask for a second delivery. */
    method ActOn(scope: Scope, entry: Entry, outcome: Outcome, resent: bool, before: Report, ghost ledger: Ledger, ghost r: Row)
      returns (turn: Option<RowStep>, report: Report)
      requires Queued(scope, entry, r)
      requires outcome == Accepted(entry.cid) ==> RowKey(r) in ledger
      modifies outbox
      ensures outbox.Valid() && outbox.nextId == old(outbox.nextId) && outbox.keys == old(outbox.keys)
      ensures OneEffect(old(outbox.rows), outbox.rows, r, ledger)
      ensures turn.Some? ==> Concluded(r, outbox.rows, IntentOf(outcome, r.cid, resent), before, report, turn.value)
      ensures turn.Some? ==> TurnFollowed(r, outbox.rows, [Delivery(entry, outcome)], before, report, turn.value)
      ensures turn.None? ==>
                && outcome.StripCaptures? && !resent && r.captureBytes > 0
                && outbox.rows == old(outbox.rows)[r.id := ShedRow(r)]
                && report == before.(stripped := before.stripped + [r.cid])
    {
      report := before;
      match outcome {
        case Accepted(cid) =>
          var step;
          step, report := OnAccepted(scope, entry, cid, report, ledger, r);
          turn := Some(step);
        case StripCaptures(reason) =>
          var bounded := Truncate(reason, MAX_REPORT_DIAGNOSTIC_BYTES);
          turn, report := StripOrPark(scope, entry, bounded, resent, report, r);
        case _ =>
          var step;
          step, report := ParkOrStop(scope, entry, outcome, before, r);
          turn := Some(step);
      }
      if turn.Some? {
        ConclusionIsFollowed(r, outbox.rows, Delivery(entry, outcome), resent, before, report, turn.value);
      }
    }

    /** The outcomes that park the row, and those that keep it and stop. */
    method ParkOrStop(scope: Scope, entry: Entry, outcome: Outcome, before: Report, ghost r: Row)
      returns (step: RowStep, report: Report)
      requires Queued(scope, entry, r) && !outcome.Accepted? && !outcome.StripCaptures?
      modifies outbox
      ensures outbox.Valid() && outbox.nextId == old(outbox.nextId) && outbox.keys == old(outbox.keys)
      ensures OneChange(old(outbox.rows), outbox.rows, r)
      ensures Concluded(r, outbox.rows, IntentOf(outcome, r.cid, false), before, report, step)
    {
      if outcome.Park? {
        var bounded := Truncate(outcome.reason, MAX_REPORT_DIAGNOSTIC_BYTES);
        step, report := ParkRow(scope, entry, bounded, before, r);
      } else if outcome.DeviceRevoked? {
        var bounded := Truncate(outcome.reason, MAX_REPORT_DIAGNOSTIC_BYTES);
        report := ParkAndBlock(scope, entry, bounded, before, r);
        step := Stop;
      } else {
        report := StopOn(scope, entry, outcome, before, r);
        step := Stop;
      }
    }

    /** The captures were refused: strip them once; a row resent already, or without any, is parked. */
    method StripOrPark(scope: Scope, entry: Entry, reason: Text, resent: bool, before: Report, ghost r: Row)
      returns (turn: Option<RowStep>, report: Report)
      requires Queued(scope, entry, r) && |reason| <= MAX_REPORT_DIAGNOSTIC_BYTES
      modifies outbox
      ensures outbox.Valid() && outbox.nextId == old(outbox.nextId) && outbox.keys == old(outbox.keys)
      ensures OneChange(old(outbox.rows), outbox.rows, r)
      ensures turn.Some? ==>
                || (resent && ParkConcluded(r, outbox.rows, reason, None, before, report, turn.value))
                || (!resent && r.captureBytes == 0 && ParkConcluded(r, outbox.rows, reason, None, before, report, turn.value))
                || (&& !resent && outbox.rows == old(outbox.rows) && turn.value.Stop?
                    && report == before.(stopReason := Some(StoreError(StoreFault))))
      ensures turn.None? ==>
                && !resent && r.captureBytes > 0
                && outbox.rows == old(outbox.rows)[r.id := ShedRow(r)]
                && report == before.(stripped := before.stripped + [r.cid])
    {
      report := before;
      outbox.ValidRowAt(r.id);
      assert Target(outbox.rows, scope, entry.cid, r.id);
      var step;
      if resent {
        step, report := ParkRow(scope, entry, reason, report, r);
        return Some(step), report;
      }
      var stripped := outbox.StripCaptures(scope, entry.cid);
      match stripped {
        case Ok(changed) =>
          if changed {
            report := report.(stripped := report.stripped + [entry.cid]);
            ShedRowIsValid(outbox.crypto, outbox.keys[r.id], r);
            return None, report;
          }
          NothingToShed(r);
          assert outbox.rows == old(outbox.rows);
          step, report := ParkRow(scope, entry, reason, report, r);
          return Some(step), report;
        case Err(e) =>
          report := report.(stopReason := Some(StoreError(e)));
          return Some(Stop), report;
      }
    }

    /** One delivery of `entry` and what it leads to: two atomic effects at most. */
    method Attempt(scope: Scope, entry: Entry, resent: bool, transport: Transport, before: Report, ghost r: Row,
                   ghost from: World, ghost soFar: seq<World>)
      returns (turn: Option<RowStep>, report: Report, outcome: Outcome, ghost trace: seq<World>)
      requires Queued(scope, entry, r) && entry == Sent(r)
      requires PassTrace(scope, soFar, from, WorldNow(transport))
      modifies outbox, transport
      ensures outbox.Valid() && outbox.nextId == old(outbox.nextId) && outbox.keys == old(outbox.keys)
      ensures transport.log == old(transport.log) + [Delivery(entry, outcome)]
      ensures outbox.rows - {r.id} == old(outbox.rows) - {r.id}
      ensures turn.Some? ==> Concluded(r, outbox.rows, IntentOf(outcome, r.cid, resent), before, report, turn.value)
      ensures turn.None? ==>
                && outcome.StripCaptures? && !resent && r.captureBytes > 0
                && outbox.rows == old(outbox.rows)[r.id := ShedRow(r)]
                && report == before.(stripped := before.stripped + [r.cid])
      ensures r.id !in outbox.rows ==> RowKey(r) in transport.ledger
      ensures old(transport.ledger).Keys <= transport.ledger.Keys
      ensures PassTrace(scope, trace, from, WorldNow(transport))
    {
      ghost var start := WorldNow(transport);
      outcome := transport.Deliver(entry);
      ghost var delivered := WorldNow(transport);
      DeliveryEffect(scope, start, delivered, r);
      turn, report := ActOn(scope, entry, outcome, resent, before, transport.ledger, r);
      OneEffectIsPassEffect(scope, delivered.rows, outbox.rows, outbox.nextId, r, transport.ledger);
      ghost var more := [start, delivered, WorldNow(transport)];
      TraceJoin(scope, soFar, more, from, start, WorldNow(transport));
      trace := Joined(soFar, more);
    }

    /** The entry with its captures, which every v2 row's tag covers even when their bytes are gone. */
    method LoadEntry(scope: Scope, peeked: Entry, ghost r: Row) returns (loaded: Result<Entry, OutboxError>)
      requires Queued(scope, peeked, r) && peeked == EntryOf(r)
      ensures loaded.Ok? ==> loaded.value == Sent(r)
      ensures loaded.Err? ==> r.format.V2?
    {
      var entry := peeked;
      if entry.format.V2? {
        var captures := outbox.LoadCaptures(scope, entry.id);
        if captures.Err? {
          return Err(captures.error);
        }
        entry := entry.(captures := captures.value);
      }
      return Ok(entry);
    }

    /** Deliver a loaded row and act on the outcome, redelivering once after a capture strip. */
    method DeliverLoaded(scope: Scope, loaded: Entry, transport: Transport, before: Report, ghost r: Row)
      returns (step: RowStep, report: Report, ghost g: seq<Delivery>, ghost trace: seq<World>)
      requires Queued(scope, loaded, r) && loaded == Sent(r) && (r.format.V1? ==> r.captures == map[])
      modifies outbox, transport
      ensures outbox.Valid() && outbox.nextId == old(outbox.nextId) && outbox.keys == old(outbox.keys)
      ensures transport.log == old(transport.log) + g && g != []
      ensures TakenUp(r, old(outbox.rows), outbox.rows, g, before, report, step)
      ensures TurnFollowed(r, outbox.rows, g, before, report, step)
      ensures PassTrace(scope, trace, old(WorldNow(transport)), WorldNow(transport))
      ensures r.id !in outbox.rows ==> RowKey(r) in transport.ledger
      ensures old(transport.ledger).Keys <= transport.ledger.Keys
    {
      report := before;
      var entry := loaded;
      ghost var (rows, log, start, r1) := (outbox.rows, transport.log, WorldNow(transport), r);
      ghost var first: Option<Delivery> := None;
      trace := [start];
      var strippedOnce := false;
      while true
        invariant Queued(scope, entry, r1) && outbox.nextId == old(outbox.nextId) && outbox.keys == old(outbox.keys)
        invariant transport.log == log + WithFirst(first) && start.ledger.Keys <= transport.ledger.Keys
        invariant outbox.rows - {r.id} == rows - {r.id}
        invariant strippedOnce == first.Some? && entry == Sent(r1) && SoFarSent(r, r1, first, before, report)
        invariant PassTrace(scope, trace, start, WorldNow(transport))
        decreases !strippedOnce
      {
        var turn, outcome;
        ghost var now := report;
        turn, report, outcome, trace := Attempt(scope, entry, strippedOnce, transport, report, r1, start, trace);
        ghost var last := Delivery(entry, outcome);
        if turn.Some? {
          TakenUpAtLast(r, r1, rows, outbox.rows, first, last, before, now, report, turn.value);
          g := WithFirst(first) + [last];
          LogExtends(log, WithFirst(first), last);
          TurnIsFollowed(r, rows, outbox.rows, g, before, report, turn.value);
          return turn.value, report, g, trace;
        }
        first := Some(last);
        ClearedIsSentShed(r);
        entry := entry.(captures := Cleared(entry.captures), captureBytes := 0);
        r1 := ShedRow(r);
        strippedOnce := true;
      }
    }

    /** One row's turn: load its captures, deliver it and act on the outcome. */
    method DeliverRow(scope: Scope, peeked: Entry, transport: Transport, before: Report, ghost r: Row)
      returns (step: RowStep, report: Report, ghost trace: seq<World>)
      requires Queued(scope, peeked, r) && peeked == EntryOf(r)
      modifies outbox, transport
      ensures outbox.Valid() && outbox.nextId == old(outbox.nextId) && outbox.keys == old(outbox.keys)
      ensures old(transport.log) <= transport.log
      ensures TakenUp(r, old(outbox.rows), outbox.rows, transport.log[|old(transport.log)|..], before, report, step)
      ensures TurnFollowed(r, outbox.rows, transport.log[|old(transport.log)|..], before, report, step)
      ensures PassTrace(scope, trace, old(WorldNow(transport)), WorldNow(transport))
      ensures r.id !in outbox.rows ==> RowKey(r) in transport.ledger
      ensures old(transport.ledger).Keys <= transport.ledger.Keys
    {
      report := before;
      trace := [WorldNow(transport)];
      ghost var log := transport.log;
      outbox.ValidRowAt(r.id);
      var loaded := LoadEntry(scope, peeked, r);
      if loaded.Err? {
        report := report.(stopReason := Some(StoreError(loaded.error)));
        return Stop, report, trace;
      }
      ghost var g;
      step, report, g, trace := DeliverLoaded(scope, loaded.value, transport, before, r);
      assert transport.log[|log|..] == g;
    }

    /** What every step of the pass `run` keeps. */
    ghost predicate Steady(run: Run, transport: Transport, trace: seq<World>)
      reads outbox, transport
    {
      && outbox.Valid() && outbox.nextId == run.nextId && outbox.keys == run.keys
      && ValidScope(run.scope) && config.Valid()
      && run.log0 <= transport.log
      && PassTrace(run.scope, trace, run.start, WorldNow(transport))
    }

    /** The pass `run` is between two rows. */
    ghost predicate Underway(run: Run, transport: Transport, report: Report, trace: seq<World>)
      reads outbox, transport
    {
      && Steady(run, transport, trace) && report.attempted <= config.maxAttempts
      && SoFar(run.scope, run.start.rows, run.nextId, outbox.rows, run.p, report.attempted,
               transport.log[|run.log0|..], transport.ledger, report)
    }

    /** The pass `run` has ended with `report`. */
    ghost predicate Finished(run: Run, transport: Transport, report: Report, trace: seq<World>)
      reads outbox, transport
    {
      && Steady(run, transport, trace)
      && Done(run.scope, run.start.rows, run.nextId, outbox.rows, run.p,
              transport.log[|run.log0|..], transport.ledger, config, report)
    }

    /** Between two rows the pass may end without taking up another. */
    lemma EndHere(run: Run, transport: Transport, report: Report, trace: seq<World>, final: Report)
      requires Underway(run, transport, report, trace)
      requires || (final == report.(drained := true) && outbox.Queue(run.scope) == [])
               || (&& final == report.(stopReason := final.stopReason) && final.stopReason.Some?
                   && var stop := final.stopReason.value;
                      || stop.StoreError?
                      || (stop.DeadlineReached? && config.deadline.Some?)
                      || (stop == MaxAttemptsReached(config.maxAttempts) && report.attempted == config.maxAttempts
                          && outbox.Queue(run.scope) != []))
      ensures Finished(run, transport, final, trace)
    {
      FinishStep(run.scope, run.start.rows, run.nextId, outbox.rows, run.p, report.attempted,
                 transport.log[|run.log0|..], transport.ledger, config, report, final);
    }

    /** Deliver a queued row within the pass `run`. */
    method DeliverNext(entry: Entry, transport: Transport, before: Report, ghost r: Row, ghost run: Run, ghost trace: seq<World>)
      returns (step: RowStep, report: Report, ghost longer: seq<World>)
      requires Steady(run, transport, trace) && before.scope == run.scope
      requires Queued(run.scope, entry, r) && entry == EntryOf(r)
      modifies outbox, transport
      ensures Steady(run, transport, longer)
      ensures old(transport.log) <= transport.log
      ensures TakenUp(r, old(outbox.rows), outbox.rows, transport.log[|old(transport.log)|..], before, report, step)
      ensures r.id !in outbox.rows ==> RowKey(r) in transport.ledger
      ensures old(transport.ledger).Keys <= transport.ledger.Keys
    {
      ghost var mid := WorldNow(transport);
      ghost var more;
      step, report, more := DeliverRow(before.scope, entry, transport, before, r);
      TraceJoin(run.scope, trace, more, run.start, mid, WorldNow(transport));
      longer := Joined(trace, more);
    }

    /** The row about to be taken up is queued. */
    lemma NextQueued(run: Run, transport: Transport, before: Report, trace: seq<World>)
      requires Underway(run, transport, before, trace) && before.attempted < |run.p|
      ensures var r := run.p[before.attempted]; Queued(run.scope, EntryOf(r), r) && Keyed(outbox.rows) && before.scope == run.scope
    {
      outbox.RowsKeyed();
      NextRow(run.scope, run.start.rows, run.nextId, outbox.rows, run.p, before.attempted,
              transport.log[|run.log0|..], transport.ledger, before);
    }

    /** Take up the next row: count it and deliver it. */
    method TakeUp(entry: Entry, transport: Transport, before: Report, ghost run: Run, ghost trace: seq<World>)
      returns (step: RowStep, report: Report, ghost longer: seq<World>)
      requires Underway(run, transport, before, trace) && before.attempted < config.maxAttempts
      requires before.attempted < |run.p| && entry == EntryOf(run.p[before.attempted])
      modifies outbox, transport
      ensures step.Continue? ==> Underway(run, transport, report, longer) && report.attempted == before.attempted + 1
      ensures step.Stop? ==> Finished(run, transport, report, longer)
    {
      ghost var r, rows, ledger, log := run.p[before.attempted], outbox.rows, transport.ledger, transport.log;
      NextQueued(run, transport, before, trace);
      step, report, longer := DeliverNext(entry, transport, before.(attempted := before.attempted + 1), r, run, trace);
      TurnOver(run, config, before.attempted, before, rows, ledger, log,
               outbox.rows, transport.ledger, transport.log, step, report);
    }

    /** The rows of one batch, until one of them stops the pass or the deadline passes. */
    method TakeBatch(batch: seq<Entry>, transport: Transport, before: Report, ghost run: Run, ghost soFar: seq<World>)
      returns (step: RowStep, report: Report, ghost trace: seq<World>)
      requires Underway(run, transport, before, soFar)
      requires before.attempted + |batch| <= Min(config.maxAttempts, |run.p|)
      requires forall i | 0 <= i < |batch| :: batch[i] == EntryOf(run.p[before.attempted + i])
      modifies outbox, transport
      ensures step.Continue? ==> Underway(run, transport, report, trace) && report.attempted == before.attempted + |batch|
      ensures step.Stop? ==> Finished(run, transport, report, trace)
    {
      report, trace := before, soFar;
      for k := 0 to |batch|
        invariant Underway(run, transport, report, trace)
        invariant report.attempted == before.attempted + k
      {
        if config.deadline.Some? {
          var now: int := *;
          if now >= config.deadline.value {
            EndHere(run, transport, report, trace, report.(stopReason := Some(DeadlineReached)));
            return Stop, report.(stopReason := Some(DeadlineReached)), trace;
          }
        }
        step, report, trace := TakeUp(batch[k], transport, report, run, trace);
        if step.Stop? {
          return Stop, report, trace;
        }
      }
      return Continue, report, trace;
    }

    /** The pass ran out of attempts: is the queue drained? */
    method ConcludeAtLimit(before: Report, transport: Transport, ghost run: Run, ghost trace: seq<World>) returns (report: Report)
      requires Underway(run, transport, before, trace) && before.attempted >= config.maxAttempts
      ensures Finished(run, transport, report, trace)
    {
      report := before;
      var pending := outbox.PendingCount(before.scope);
      match pending {
        case Ok(count) =>
          if count == 0 {
            report := report.(drained := true);
          } else if report.attempted >= config.maxAttempts {
            report := report.(stopReason := Some(MaxAttemptsReached(config.maxAttempts)));
          }
        case Err(e) =>
          report := report.(stopReason := Some(StoreError(e)));
      }
      EndHere(run, transport, before, trace, report);
    }

    /** The rows not yet taken up are the queue. */
    lemma QueueAhead(run: Run, transport: Transport, report: Report, trace: seq<World>)
      requires Underway(run, transport, report, trace)
      ensures report.attempted <= |run.p| && outbox.Queue(run.scope) == run.p[report.attempted..] && report.scope == run.scope
    {
    }

    /** Read the next rows of the queue, as many as one batch and the attempts left allow. */
    method ReadBatch(scope: Scope, attempted: nat, ghost p: seq<Row>) returns (peeked: Result<seq<Entry>, OutboxError>)
      requires outbox.Valid() && config.Valid() && ValidScope(scope) && attempted < config.maxAttempts
      requires attempted <= |p| && outbox.Queue(scope) == p[attempted..]
      ensures peeked.Err? ==> peeked.error == StoreFault
      ensures peeked.Ok? ==>
                && attempted + |peeked.value| <= Min(config.maxAttempts, |p|)
                && (forall i | 0 <= i < |peeked.value| :: peeked.value[i] == EntryOf(p[attempted + i]))
                && (peeked.value == [] ==> outbox.Queue(scope) == [])
    {
      var remaining := config.maxAttempts - attempted;
      var readLimit := Min(remaining, config.batchLimit);
      peeked := outbox.PeekReady(scope, readLimit);
    }

    /** Read a batch and take it up; the pass ends if the queue is empty or cannot be read, without a report
        (`unread`) if that was the first read. */
    method TakeTurn(before: Report, transport: Transport, ghost run: Run, ghost soFar: seq<World>)
      returns (step: RowStep, report: Report, unread: Option<OutboxError>, ghost trace: seq<World>)
      requires Underway(run, transport, before, soFar) && before.attempted < config.maxAttempts
      modifies outbox, transport
      ensures unread.Some? ==>
                && unread.value == StoreFault && before.attempted == 0 && trace == soFar && Underway(run, transport, before, soFar)
                && WorldNow(transport) == old(WorldNow(transport)) && transport.log == old(transport.log)
      ensures unread.None? && step.Stop? ==> Finished(run, transport, report, trace)
      ensures unread.None? && step.Continue? ==> Underway(run, transport, report, trace) && report.attempted > before.attempted
    {
      report, trace, unread := before, soFar, None;
      QueueAhead(run, transport, before, soFar);
      var peeked := ReadBatch(before.scope, before.attempted, run.p);
      if peeked.Ok? && peeked.value != [] {
        step, report, trace := TakeBatch(peeked.value, transport, report, run, trace);
        return;
      }
      if peeked.Err? && report.attempted == 0 {
        return Stop, report, Some(peeked.error), trace;
      }
      if peeked.Err? {
        report := report.(stopReason := Some(StoreError(peeked.error)));
      } else {
        report := report.(drained := true);
      }
      EndHere(run, transport, before, trace, report);
      step := Stop;
    }

    /** One pass over the scope's queue. */
    method RunPass(scope: Scope, transport: Transport)
      returns (result: Result<Report, SyncError>, ghost trace: seq<World>)
      requires outbox.Valid()
      modifies outbox, transport
      ensures outbox.Valid() && outbox.nextId == old(outbox.nextId) && outbox.keys == old(outbox.keys)
      ensures old(transport.log) <= transport.log
      ensures result.Ok? ==>
                && ValidScope(scope) && config.Valid()
                && Done(scope, old(outbox.rows), old(outbox.nextId), outbox.rows, old(outbox.Queue(scope)),
                        transport.log[|old(transport.log)|..], transport.ledger, config, result.value)
      ensures result.Err? ==>
                && WorldNow(transport) == old(WorldNow(transport)) && transport.log == old(transport.log)
                && result.error == if !ValidScope(scope) then InvalidSyncScope
                                   else if !config.Valid() then InvalidConfig
                                   else OutboxFailed(StoreFault)
      ensures result == Err(InvalidConfig) <==> ValidScope(scope) && !(1 <= config.maxAttempts <= 200 && 1 <= config.batchLimit <= 100)
      ensures PassTrace(scope, trace, old(WorldNow(transport)), WorldNow(transport))
    {
      ghost var run := Run(scope, WorldNow(transport), outbox.nextId, outbox.keys, outbox.Queue(scope), transport.log);
      trace := [run.start];
      if !ValidScope(scope) {
        return Err(InvalidSyncScope), trace;
      }
      if !config.Valid() {
        return Err(InvalidConfig), trace;
      }
      var report := Report(scope, 0, [], [], [], [], [], [], None, false);
      outbox.RowsKeyed();
      SoFarStart(scope, outbox.rows, outbox.nextId, transport.ledger);
      assert transport.log[|run.log0|..] == [];

      while report.attempted < config.maxAttempts
        invariant Underway(run, transport, report, trace)
        invariant report.attempted == 0 ==> WorldNow(transport) == run.start && transport.log == run.log0
      {
        var step, unread;
        step, report, unread, trace := TakeTurn(report, transport, run, trace);
        if unread.Some? {
          return Err(OutboxFailed(unread.value)), trace;
        }
        if step.Stop? {
          return Ok(report), trace;
        }
      }
      report := ConcludeAtLimit(report, transport, run, trace);
      return Ok(report), trace;
    }
  }

  /** `for capture in &mut entry.captures { capture.jpeg.clear() }` */
  function Cleared(captures: seq<StoredCapture>): (cleared: seq<StoredCapture>)
    ensures |cleared| == |captures|
    ensures forall i | 0 <= i < |captures| :: cleared[i] == captures[i].(jpeg := [])
  {
    if captures == [] then [] else [captures[0].(jpeg := [])] + Cleared(captures[1..])
  }

  /** Clearing what was sent gives the stripped row as it is sent. */
  lemma ClearedIsSentShed(r: Row)
    requires r.format.V1? ==> r.captures == map[]
    ensures Sent(r).(captures := Cleared(Sent(r).captures), captureBytes := 0) == Sent(ShedRow(r))
  {
    var cleared := Cleared(InKindOrder(r.captures));
    var shed := InKindOrder(Shed(r.captures));
    assert |cleared| == |shed|;
    assert cleared == shed;
  }

  /** Without image bytes there is nothing to shed. */
  lemma NothingToShed(r: Row)
    requires ByteSum(r.captures) == 0 && r.captureBytes == 0
    ensures ShedRow(r) == r
  {
    forall k | k in r.captures
      ensures r.captures[k].jpeg == []
    {
      assert k == Screen || k == Thumb;
      assert JpegLen(r.captures, k) == 0;
    }
    assert Shed(r.captures) == r.captures;
  }
}
