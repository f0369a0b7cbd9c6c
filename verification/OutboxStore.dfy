/** The durable outbox. Each call is one transaction: it takes effect as a whole, or reports an error
    and changes nothing. A database fault may happen at any call. */
module OutboxStore {
  import opened Wrappers
  import opened Utf8
  import opened Signing
  import opened QueueRows
  import opened Enqueueing
  import opened Limits

  datatype PurgeTarget = PurgePending | PurgeParked | PurgeAll

  /** A queued row as handed to the delivery: captures are loaded separately. */
  datatype Entry = Entry(
    id: int,
    scope: Scope,
    cid: Text,
    format: RowFormat,
    retryCount: nat,
    payload: Text,
    signature: Option<Text>,
    captureBytes: int,
    captures: seq<StoredCapture>)

  function EntryOf(r: Row): Entry {
    Entry(r.id, r.scope, r.cid, r.format, r.retryCount, r.payload, r.signature, r.captureBytes, [])
  }

  /** `e` says what row `r` says, field by field; captures are loaded separately. */
  ghost predicate EntryFor(e: Entry, r: Row) {
    && e.id == r.id && e.scope == r.scope && e.cid == r.cid && e.format == r.format && e.retryCount == r.retryCount
    && e.payload == r.payload && e.signature == r.signature && e.captureBytes == r.captureBytes && e.captures == []
  }

  /** ORDER BY kind: screen before thumb. */
  function InKindOrder(m: Captures): seq<StoredCapture> {
    (if Screen in m then [m[Screen]] else []) + (if Thumb in m then [m[Thumb]] else [])
  }

  /** Everything but the deleted and updated rows is as it was; updated rows evolve. */
  ghost predicate Evolves(rows: Rows, rows': Rows) {
    forall id | id in rows' :: id in rows && RowEvolves(rows[id], rows'[id])
  }

  function ParkedRow(r: Row, now: int, reason: Text): Row {
    r.(state := Parked(now, reason), captures := map[], captureBytes := 0)
  }

  function FailedRow(r: Row, message: Text): Row {
    r.(retryCount := r.retryCount + 1, lastError := Some(message))
  }

  /** What changes in a row that is parked, tried in vain or stripped, and nothing else does. */
  lemma RowChangesByField(r: Row, now: int, text: Text, k: CaptureKind)
    ensures var parked := ParkedRow(r, now, text);
            parked.state == Parked(now, text) && parked.captures == map[] && parked.captureBytes == 0
            && parked == r.(state := parked.state, captures := parked.captures, captureBytes := parked.captureBytes)
    ensures var failed := FailedRow(r, text);
            failed.retryCount == r.retryCount + 1 && failed.lastError == Some(text)
            && failed == r.(retryCount := failed.retryCount, lastError := failed.lastError)
    ensures var shed := ShedRow(r);
            && shed.captureBytes == 0 && shed == r.(captures := shed.captures, captureBytes := 0)
            && shed.captures.Keys == r.captures.Keys && (k in r.captures ==> shed.captures[k] == r.captures[k].(jpeg := []))
  {
  }

  /** `ParkedRow(r, _, reason)`, whenever it was parked. */
  ghost predicate IsParkedAs(r: Row, r': Row, reason: Text) {
    r'.state.Parked? && r' == ParkedRow(r, r'.state.at, reason)
  }

  function ParkAll(rows: Rows, scope: Scope, now: int, reason: Text): Rows {
    map id | id in rows :: if IsPending(rows[id], scope) then ParkedRow(rows[id], now, reason) else rows[id]
  }

  lemma ParkedRowIsValid(c: Crypto, key: Bytes, r: Row, now: int, reason: Text)
    requires ValidRow(c, key, r) && r.state.Pending?
    ensures ValidRow(c, key, ParkedRow(r, now, reason)) && RowEvolves(r, ParkedRow(r, now, reason))
  {
  }

  lemma ParkAllIsValid(c: Crypto, keys: map<int, Bytes>, rows: Rows, nextId: int, scope: Scope, now: int, reason: Text)
    requires ValidRows(c, keys, rows, nextId)
    ensures ValidRows(c, keys, ParkAll(rows, scope, now, reason), nextId)
    ensures Evolves(rows, ParkAll(rows, scope, now, reason))
  {
    var out := ParkAll(rows, scope, now, reason);
    forall id | id in out
      ensures id in keys && ValidRow(c, keys[id], out[id]) && RowEvolves(rows[id], out[id])
    {
      assert ValidAt(c, keys, rows, nextId, id);
      if IsPending(rows[id], scope) {
        ParkedRowIsValid(c, keys[id], rows[id], now, reason);
      }
    }
    ChangeKeepsValid(c, keys, rows, out, nextId);
  }

  /** `left` is `rows` without exactly the rows that are `gone`. */
  ghost predicate Remaining(rows: Rows, left: Rows, gone: Row -> bool) {
    && (forall id :: id in left <==> id in rows && !gone(rows[id]))
    && (forall id | id in left :: left[id] == rows[id])
  }

  class Outbox {
    const crypto: Crypto
    const limits: OutboxLimits
    /** Trimming and lower-casing an account id, as the text library does it. */
    const normal: Text -> Text
    var rows: Rows
    var nextId: int
    /** The device key each row was queued under (none for v1 rows). */
    ghost var keys: map<int, Bytes>

    ghost predicate Valid()
      reads this
    {
      Lawful(crypto) && limits.Valid() && ValidRows(crypto, keys, rows, nextId)
    }

    lemma ValidRowAt(id: int)
      requires Valid() && id in rows
      ensures 1 <= id < nextId && rows[id].id == id && id in keys && ValidRow(crypto, keys[id], rows[id])
    {
      assert ValidAt(crypto, keys, rows, nextId, id);
    }

    lemma RowsKeyed()
      requires Valid()
      ensures Keyed(rows)
    {
      ValidRowsKeyed(crypto, keys, rows, nextId);
    }

    constructor (crypto: Crypto, limits: OutboxLimits, normal: Text -> Text)
      requires Lawful(crypto) && limits.Valid()
      ensures Valid() && rows == map[] && nextId == 1
      ensures this.crypto == crypto && this.limits == limits && this.normal == normal
    {
      this.crypto := crypto;
      this.limits := limits;
      this.normal := normal;
      rows := map[];
      nextId := 1;
      keys := map[];
    }

    // ---- enqueueing ----

    /** Queue a v1 envelope. */
    method Enqueue(scope: Scope, envelope: Envelope, now: int) returns (r: Result<EnqueueResult, OutboxError>)
      requires Valid()
      modifies this
      ensures Valid()
      ensures r.Err? ==> rows == old(rows) && nextId == old(nextId) && keys == old(keys)
      ensures r.Err? ==>
                || r.error == StoreFault
                || EnvelopeRefused(limits, old(rows), old(nextId), scope, envelope, r.error)
      ensures r.Ok? ==> ValidScope(scope) && envelope.Refusal().None? && |envelope.json| <= limits.maxPayloadBytes
      ensures r.Ok? && r.value.Idempotent? ==>
                && rows == old(rows) && nextId == old(nextId) && keys == old(keys)
                && Target(rows, scope, envelope.cid, r.value.id) && rows[r.value.id].payload == envelope.json
      ensures r.Ok? && r.value.Inserted? ==>
                && r.value.id == old(nextId) && nextId == old(nextId) + 1
                && (forall id :: !Target(old(rows), scope, envelope.cid, id))
                && |old(rows)| < limits.maxRecords
                && PayloadTotal(old(rows), old(nextId)) + |envelope.json| <= limits.maxTotalPayloadBytes
                && r.value.id in rows && QueuedEnvelope(rows[r.value.id], r.value.id, scope, envelope, now)
                && rows == old(rows)[old(nextId) := rows[r.value.id]]
                && keys == old(keys)[old(nextId) := []]
    {
      if !ValidScope(scope) {
        return Err(InvalidScope);
      }
      var refusal := envelope.Refusal();
      if refusal.Some? {
        return Err(refusal.value);
      }
      if |envelope.json| > limits.maxPayloadBytes {
        return Err(PayloadTooLarge(|envelope.json|, limits.maxPayloadBytes));
      }
      if * {
        return Err(StoreFault);
      }
      if id :| id in rows && Target(rows, scope, envelope.cid, id) {
        if rows[id].payload == envelope.json {
          return Ok(Idempotent(id));
        }
        return Err(ConflictingIdentity(envelope.cid));
      }
      if |rows| >= limits.maxRecords {
        return Err(QueueFull(|rows|, limits.maxRecords));
      }
      var total := TotalPayloadBytes();
      if total + |envelope.json| > limits.maxTotalPayloadBytes {
        return Err(QuotaExceeded(total, |envelope.json|, limits.maxTotalPayloadBytes));
      }
      var row := envelope.ToRow(nextId, scope, now);
      var id := Insert(row, []);
      return Ok(Inserted(id));
    }

    /** INSERT: the next id is used up, whatever happens to the row later. */
    method Insert(row: Row, ghost key: Bytes) returns (id: int)
      requires Valid() && row.id == nextId && ValidRow(crypto, key, row)
      requires forall k :: !Target(rows, row.scope, row.cid, k)
      modifies this
      ensures Valid() && id == old(nextId) && nextId == id + 1
      ensures rows == old(rows)[id := row] && keys == old(keys)[id := key]
    {
      InsertKeepsValid(crypto, keys, rows, nextId, key, row);
      id := nextId;
      rows := rows[id := row];
      keys := keys[id := key];
      nextId := id + 1;
    }

    /** SUM(payload_bytes) */
    method TotalPayloadBytes() returns (total: nat)
      requires Valid()
      ensures total == PayloadTotal(rows, nextId)
    {
      total := 0;
      for id := 1 to nextId
        invariant total == PayloadTotal(rows, id)
      {
        if id in rows {
          total := total + |rows[id].payload|;
        }
      }
    }

    /** Queue a finished block (v2) with its captures, signed with the device key. */
    method EnqueueActivity(scope: Scope, pending: PendingActivity, signingKey: Bytes, now: int)
      returns (r: Result<EnqueueResult, OutboxError>)
      requires Valid()
      modifies this
      ensures Valid()
      ensures r.Err? ==> rows == old(rows) && nextId == old(nextId) && keys == old(keys)
      ensures r.Err? ==>
                || r.error == StoreFault
                || ActivityRefused(crypto, old(rows), scope, pending, signingKey, r.error)
      ensures r.Ok? ==> ValidScope(scope) && signingKey != [] && pending.Refusal().None?
      ensures r.Ok? && r.value.Idempotent? ==>
                && rows == old(rows) && nextId == old(nextId) && keys == old(keys)
                && Target(rows, scope, pending.cid, r.value.id)
                && SameActivity(crypto, rows[r.value.id], pending, signingKey)
      ensures r.Ok? && r.value.Inserted? ==>
                && r.value.id == old(nextId) && nextId == old(nextId) + 1
                && (forall id :: !Target(old(rows), scope, pending.cid, id))
                && r.value.id in rows && QueuedAs(crypto, signingKey, rows[r.value.id], r.value.id, scope, pending, now)
                && rows[r.value.id] == pending.ToRow(crypto, signingKey, old(nextId), scope, now)
                && rows == old(rows)[old(nextId) := rows[r.value.id]]
                && keys == old(keys)[old(nextId) := signingKey]
    {
      if !ValidScope(scope) {
        return Err(InvalidScope);
      }
      if signingKey == [] {
        return Err(InvalidEnvelope);
      }
      var refusal := pending.Refusal();
      if refusal.Some? {
        return Err(refusal.value);
      }
      var digests := ComputePendingDigests(crypto, pending.captures);
      var signature := SignV2(crypto, signingKey, pending.payload, digests);
      var captureBytes := JpegTotal(pending.captures);
      if * {
        return Err(StoreFault);
      }
      if id :| id in rows && Target(rows, scope, pending.cid, id) {
        if rows[id].payload == pending.payload && rows[id].signature == Some(signature) {
          return Ok(Idempotent(id));
        }
        return Err(ConflictingIdentity(pending.cid));
      }
      var captures := InsertedCaptures(crypto, pending.captures);
      var row := Row(nextId, scope, pending.cid, Some(pending.projectId), pending.startedAt, pending.endedAt,
                     pending.payload, now, 0, None, Pending, captureBytes, V2, Some(signature), captures);
      assert row == pending.ToRow(crypto, signingKey, nextId, scope, now);
      ActivityRowIsValid(crypto, signingKey, pending, nextId, scope, now);
      ActivityRowFields(crypto, signingKey, pending, nextId, scope, now);
      var id := Insert(row, signingKey);
      return Ok(Inserted(id));
    }

    // ---- reading ----

    /** The scope's queue, oldest first. */
    ghost function Queue(scope: Scope): seq<Row>
      reads this
    {
      PendingFrom(rows, scope, 1, nextId)
    }

    /** SELECT ... WHERE state = 0 AND id >= lo ORDER BY id LIMIT limit */
    method SelectPending(scope: Scope, limit: nat) returns (selected: seq<Row>)
      requires 1 <= nextId
      ensures selected == Queue(scope)[..Min(limit, |Queue(scope)|)]
    {
      selected := [];
      var id := 1;
      while id < nextId && |selected| < limit
        invariant 1 <= id <= nextId
        invariant |selected| <= limit
        invariant Queue(scope) == selected + PendingFrom(rows, scope, id, nextId)
      {
        if id in rows && IsPending(rows[id], scope) {
          selected := selected + [rows[id]];
        }
        id := id + 1;
      }
      assert selected == Queue(scope)[..|selected|];
    }

    /** The oldest pending rows of the scope, at most `limit` (at least one, at most a page). */
    method PeekReady(scope: Scope, limit: nat) returns (r: Result<seq<Entry>, OutboxError>)
      requires Valid()
      ensures r.Ok? ==>
                && ValidScope(scope)
                && |r.value| == Min(Min(Max(limit, 1), limits.maxPageLimit), |Queue(scope)|)
                && forall i | 0 <= i < |r.value| :: r.value[i] == EntryOf(Queue(scope)[i])
      ensures r.Ok? ==> forall i | 0 <= i < |r.value| :: EntryFor(r.value[i], Queue(scope)[i])
      ensures r.Err? ==> r.error == if ValidScope(scope) then StoreFault else InvalidScope
    {
      if !ValidScope(scope) {
        return Err(InvalidScope);
      }
      var clamped := Min(Max(limit, 1), limits.maxPageLimit);
      if * {
        return Err(StoreFault);
      }
      var selected := SelectPending(scope, clamped);
      var entries := [];
      for i := 0 to |selected|
        invariant |entries| == i
        invariant forall k | 0 <= k < i :: entries[k] == EntryOf(selected[k])
      {
        if * {
          return Err(StoreFault); // a row that cannot be decoded
        }
        entries := entries + [EntryOf(selected[i])];
      }
      return Ok(entries);
    }

    /** The captures of row `id` of the scope, screen first, shed ones included. */
    method LoadCaptures(scope: Scope, id: int) returns (r: Result<seq<StoredCapture>, OutboxError>)
      requires Valid()
      ensures r.Ok? ==> r.value == if id in rows && rows[id].scope == scope then InKindOrder(rows[id].captures) else []
      ensures r.Ok? && id in rows && rows[id].scope == scope ==>
                var m := rows[id].captures;
                r.value == (if Screen in m then [m[Screen]] else []) + (if Thumb in m then [m[Thumb]] else [])
      ensures r.Err? ==> r.error == if ValidScope(scope) then StoreFault else InvalidScope
    {
      if !ValidScope(scope) {
        return Err(InvalidScope);
      }
      if * {
        return Err(StoreFault);
      }
      if id in rows && rows[id].scope == scope {
        return Ok(InKindOrder(rows[id].captures));
      }
      return Ok([]);
    }

    /** How many rows of the scope are pending. */
    method PendingCount(scope: Scope) returns (r: Result<nat, OutboxError>)
      requires Valid()
      ensures r.Ok? ==> r.value == |Queue(scope)|
      ensures r.Err? ==> r.error == if ValidScope(scope) then StoreFault else InvalidScope
    {
      if !ValidScope(scope) {
        return Err(InvalidScope);
      }
      if * {
        return Err(StoreFault);
      }
      var count := 0;
      for id := 1 to nextId
        invariant count + |PendingFrom(rows, scope, id, nextId)| == |Queue(scope)|
      {
        if id in rows && IsPending(rows[id], scope) {
          count := count + 1;
        }
      }
      return Ok(count);
    }

    // ---- what the sync pass writes ----

    /** Remove the delivered row, with its captures. */
    method AckDelivered(scope: Scope, cid: Text) returns (r: Result<Unit, OutboxError>)
      requires Valid()
      modifies this
      ensures Valid() && nextId == old(nextId) && keys == old(keys)
      ensures r.Err? ==> rows == old(rows)
      ensures r.Err? ==> r.error == StoreFault || Refuses(old(rows), scope, cid, false, r.error)
      ensures r.Ok? ==> exists id :: Target(old(rows), scope, cid, id) && rows == old(rows) - {id}
    {
      if !ValidScope(scope) {
        return Err(InvalidScope);
      }
      if !ValidIdentity(cid) {
        return Err(InvalidEnvelope);
      }
      if * {
        return Err(StoreFault);
      }
      if id :| id in rows && Target(rows, scope, cid, id) {
        RemoveKeepsValid(crypto, keys, rows, nextId, {id});
        rows := rows - {id};
        return Ok(Unit);
      }
      return Err(RecordNotFound(cid));
    }

    /** Why a call naming a row refuses it: its arguments, or there is no such (pending) row. */
    ghost predicate Refuses(rows: Rows, scope: Scope, cid: Text, pendingOnly: bool, error: OutboxError) {
      if !ValidScope(scope) then error == InvalidScope
      else if !ValidIdentity(cid) then error == InvalidEnvelope
      else error == RecordNotFound(cid)
           && forall id | Target(rows, scope, cid, id) :: pendingOnly && rows[id].state.Parked?
    }

    /** Count a failed attempt of a pending row and keep its message, which must be short. */
    method MarkAttemptFailed(scope: Scope, cid: Text, message: Text) returns (r: Result<Unit, OutboxError>)
      requires Valid()
      modifies this
      ensures Valid() && nextId == old(nextId) && keys == old(keys)
      ensures r.Err? ==> rows == old(rows)
      ensures r.Err? ==>
                || r.error == StoreFault
                || Refuses(old(rows), scope, cid, true, r.error)
                || (|message| > MAX_ERROR_MESSAGE_BYTES
                    && r.error == DiagnosticMessageTooLarge(|message|, MAX_ERROR_MESSAGE_BYTES))
      ensures r.Ok? ==>
                && |message| <= MAX_ERROR_MESSAGE_BYTES
                && exists id ::
                     && Target(old(rows), scope, cid, id) && old(rows)[id].state.Pending?
                     && rows == old(rows)[id := FailedRow(old(rows)[id], message)]
    {
      if !ValidScope(scope) {
        return Err(InvalidScope);
      }
      if !ValidIdentity(cid) {
        return Err(InvalidEnvelope);
      }
      if |message| > MAX_ERROR_MESSAGE_BYTES {
        return Err(DiagnosticMessageTooLarge(|message|, MAX_ERROR_MESSAGE_BYTES));
      }
      if * {
        return Err(StoreFault);
      }
      if id :| id in rows && Target(rows, scope, cid, id) && rows[id].state.Pending? {
        ValidRowAt(id);
        UpdateKeepsValid(crypto, keys, rows, nextId, id, FailedRow(rows[id], message));
        rows := rows[id := FailedRow(rows[id], message)];
        return Ok(Unit);
      }
      return Err(RecordNotFound(cid));
    }

    /** Park a pending row: kept with its reason, without captures, never delivered again. */
    method Park(scope: Scope, cid: Text, reason: Text, now: int) returns (r: Result<Unit, OutboxError>)
      requires Valid()
      modifies this
      ensures Valid() && nextId == old(nextId) && keys == old(keys)
      ensures r.Err? ==> rows == old(rows)
      ensures r.Err? ==> r.error == StoreFault || Refuses(old(rows), scope, cid, true, r.error)
      ensures r.Ok? ==>
                exists id ::
                  && Target(old(rows), scope, cid, id) && old(rows)[id].state.Pending?
                  && rows == old(rows)[id := old(rows)[id].(
                       state := Parked(now, Truncated(reason, 1024)), captures := map[], captureBytes := 0)]
    {
      if !ValidScope(scope) {
        return Err(InvalidScope);
      }
      if !ValidIdentity(cid) {
        return Err(InvalidEnvelope);
      }
      var short := Truncate(reason, MAX_PARKED_REASON_BYTES);
      if * {
        return Err(StoreFault);
      }
      if id :| id in rows && Target(rows, scope, cid, id) && rows[id].state.Pending? {
        ValidRowAt(id);
        ParkedRowIsValid(crypto, keys[id], rows[id], now, short);
        UpdateKeepsValid(crypto, keys, rows, nextId, id, ParkedRow(rows[id], now, short));
        rows := rows[id := ParkedRow(rows[id], now, short)];
        return Ok(Unit);
      }
      return Err(RecordNotFound(cid));
    }

    /** Remove the image bytes of a pending row, keeping the digests; `false` if it had none. */
    method StripCaptures(scope: Scope, cid: Text) returns (r: Result<bool, OutboxError>)
      requires Valid()
      modifies this
      ensures Valid() && nextId == old(nextId) && keys == old(keys)
      ensures r.Err? ==> rows == old(rows)
      ensures r.Err? ==> r.error == StoreFault || Refuses(old(rows), scope, cid, true, r.error)
      ensures r.Ok? ==>
                exists id ::
                  && Target(old(rows), scope, cid, id) && old(rows)[id].state.Pending?
                  && r.value == (old(rows)[id].captureBytes > 0)
                  && rows == old(rows)[id := old(rows)[id].(
                       captures := map k | k in old(rows)[id].captures :: old(rows)[id].captures[k].(jpeg := []), captureBytes := 0)]
    {
      if !ValidScope(scope) {
        return Err(InvalidScope);
      }
      if !ValidIdentity(cid) {
        return Err(InvalidEnvelope);
      }
      if * {
        return Err(StoreFault);
      }
      if id :| id in rows && Target(rows, scope, cid, id) && rows[id].state.Pending? {
        ValidRowAt(id);
        ShedRowIsValid(crypto, keys[id], rows[id]);
        UpdateKeepsValid(crypto, keys, rows, nextId, id, ShedRow(rows[id]));
        var changed := StripEntry(id);
        return Ok(changed);
      }
      return Err(RecordNotFound(cid));
    }

    /** Empty the captures of row `id`; whether any bytes were removed. */
    method StripEntry(id: int) returns (changed: bool)
      requires id in rows && rows[id].captureBytes == ByteSum(rows[id].captures)
      modifies this`rows
      ensures rows == old(rows)[id := ShedRow(old(rows)[id])]
      ensures changed == (old(rows)[id].captureBytes > 0)
    {
      changed := HasBytes(rows[id].captures);
      HasBytesIffCounted(rows[id].captures);
      rows := rows[id := ShedRow(rows[id])];
    }

    /** Park every pending row of the scope (a revoked device). */
    method ParkScope(scope: Scope, reason: Text, now: int) returns (r: Result<nat, OutboxError>)
      requires Valid()
      modifies this
      ensures Valid() && nextId == old(nextId) && keys == old(keys) && Evolves(old(rows), rows)
      ensures r.Err? ==> rows == old(rows) && r.error == if ValidScope(scope) then StoreFault else InvalidScope
      ensures r.Ok? ==>
                && rows == ParkAll(old(rows), scope, now, Truncated(reason, MAX_PARKED_REASON_BYTES))
                && rows.Keys == old(rows).Keys
                && (forall id | id in rows ::
                      rows[id] == if old(rows)[id].state.Pending? && old(rows)[id].scope == scope
                                  then old(rows)[id].(state := Parked(now, Truncated(reason, 1024)), captures := map[], captureBytes := 0)
                                  else old(rows)[id])
                && r.value == |set id | id in old(rows) && IsPending(old(rows)[id], scope)|
    {
      if !ValidScope(scope) {
        return Err(InvalidScope);
      }
      var short := Truncate(reason, MAX_PARKED_REASON_BYTES);
      if * {
        return Err(StoreFault);
      }
      var parked := set id | id in rows && IsPending(rows[id], scope);
      ParkAllIsValid(crypto, keys, rows, nextId, scope, now, short);
      rows := ParkAll(rows, scope, now, short);
      return Ok(|parked|);
    }

    // ---- limits and purges ----

    /** Apply the queue limits as of `now`: shed captures, then drop pending rows. */
    method EnforceLimits(queueLimits: QueueLimits, now: int) returns (r: Result<LimitReport, OutboxError>)
      requires Valid()
      modifies this
      ensures Valid() && nextId == old(nextId) && keys == old(keys) && Evolves(old(rows), rows)
      ensures r.Err? ==> rows == old(rows) && r.error == StoreFault
      ensures r.Ok? ==>
                && rows == Enforced(old(rows), nextId, queueLimits, now)
                && r.value == EnforcedReport(old(rows), nextId, queueLimits, now)
    {
      if * {
        return Err(StoreFault);
      }
      ghost var before := rows;
      ValidIsWellFormed(crypto, keys, rows, nextId);
      var shed := SweepShedIds(rows, nextId, queueLimits, now);
      var stripped := 0;
      for i := 0 to |shed|
        invariant nextId == old(nextId) && keys == old(keys)
        invariant rows == ShedAll(before, shed[..i])
        invariant stripped == i
      {
        assert shed[i] in shed;
        assert ValidAt(crypto, keys, before, nextId, shed[i]);
        assert before[shed[i]] == rows[shed[i]];
        var changed := StripEntry(shed[i]);
        if changed {
          stripped := stripped + 1;
        }
        ShedOneMore(before, shed, i);
      }
      assert shed[..|shed|] == shed;
      var aged := set id | id in rows && TooOld(queueLimits, now, rows[id]);
      AgedIsTheRule(before, queueLimits, now, shed);
      rows := rows - aged;
      var overflow := set id | id in rows && PendingAt(rows, id) && Rank(rows, id) > queueLimits.maxPendingRows;
      DropsAreTheRule(before, rows, nextId, queueLimits, now, shed);
      rows := rows - overflow;
      EnforcedKeepsRows(before, nextId, queueLimits, now);
      EnforcedIsValid(crypto, keys, before, nextId, queueLimits, now);
      CardOfDistinct(shed, MustShedIds(before, nextId, queueLimits, now));
      return Ok(LimitReport(stripped, |overflow|, |aged|));
    }

    /** Drop the rows parked more than `days` ago. */
    method PurgeParkedOlderThan(days: nat, now: int) returns (r: Result<nat, OutboxError>)
      requires Valid()
      modifies this
      ensures Valid() && nextId == old(nextId) && keys == old(keys)
      ensures r.Err? ==> rows == old(rows) && r.error == StoreFault
      ensures r.Ok? ==>
                && Remaining(old(rows), rows, (row: Row) => row.state.Parked? && row.state.at < now - days * 86400)
                && r.value == |old(rows)| - |rows|
    {
      if * {
        return Err(StoreFault);
      }
      var gone := set id | id in rows && LongParked(days, now, rows[id]);
      r := Ok(|gone|);
      DeletedCount(rows, gone);
      RemoveKeepsValid(crypto, keys, rows, nextId, gone);
      rows := rows - gone;
    }

    /** Drop other accounts' pending rows queued more than `days` ago (every account's with nobody signed in). */
    method PurgeForeignPendingOlderThan(current: Option<Text>, days: nat, now: int) returns (r: Result<nat, OutboxError>)
      requires Valid()
      modifies this
      ensures Valid() && nextId == old(nextId) && keys == old(keys)
      ensures r.Err? ==> rows == old(rows)
      ensures r.Err? ==>
                || r.error == StoreFault
                || (r.error == InvalidScope && current.Some? && !ValidIdentity(normal(current.value)))
      ensures r.Ok? ==>
                && Remaining(old(rows), rows, (row: Row) =>
                     && row.state.Pending?
                     && (current.None? || row.scope.account != normal(current.value))
                     && row.enqueuedAt < now - days * 86400)
                && r.value == |old(rows)| - |rows|
    {
      var account := Normalized(current);
      if account.Some? && !ValidIdentity(account.value) {
        return Err(InvalidScope);
      }
      if * {
        return Err(StoreFault);
      }
      var gone := set id | id in rows && LongForeign(account, days, now, rows[id]);
      r := Ok(|gone|);
      DeletedCount(rows, gone);
      RemoveKeepsValid(crypto, keys, rows, nextId, gone);
      rows := rows - gone;
    }

    function Normalized(account: Option<Text>): Option<Text> {
      match account
      case Some(a) => Some(normal(a))
      case None => None
    }

    /** Delete an account's rows of one kind. */
    method Purge(accountId: Text, target: PurgeTarget) returns (r: Result<nat, OutboxError>)
      requires Valid()
      modifies this
      ensures Valid() && nextId == old(nextId) && keys == old(keys)
      ensures r.Err? ==> rows == old(rows) && r.error == if ValidIdentity(normal(accountId)) then StoreFault else InvalidScope
      ensures r.Ok? ==>
                && Remaining(old(rows), rows, (row: Row) =>
                     && row.scope.account == normal(accountId)
                     && (target.PurgePending? ==> row.state.Pending?) && (target.PurgeParked? ==> row.state.Parked?))
                && r.value == |old(rows)| - |rows|
    {
      var account := normal(accountId);
      if !ValidIdentity(account) {
        return Err(InvalidScope);
      }
      if * {
        return Err(StoreFault);
      }
      var gone := set id | id in rows && Purged(account, target, rows[id]);
      r := Ok(|gone|);
      DeletedCount(rows, gone);
      RemoveKeepsValid(crypto, keys, rows, nextId, gone);
      rows := rows - gone;
    }
  }

  /** Parked more than `days` ago. */
  predicate LongParked(days: nat, now: int, r: Row) {
    r.state.Parked? && r.state.at < now - days * DAY
  }

  /** Pending, of another account than `current` (of any, with none), and queued more than `days` ago. */
  predicate LongForeign(current: Option<Text>, days: nat, now: int, r: Row) {
    && r.state.Pending?
    && (current.None? || r.scope.account != current.value)
    && r.enqueuedAt < now - days * DAY
  }

  predicate Purged(account: Text, target: PurgeTarget, r: Row) {
    r.scope.account == account && match target
      case PurgeAll => true
      case PurgePending => r.state.Pending?
      case PurgeParked => r.state.Parked?
  }

  lemma DeletedCount(rows: Rows, gone: set<int>)
    requires gone <= rows.Keys
    ensures |gone| == |rows| - |rows - gone|
  {
    assert (rows - gone).Keys == rows.Keys - gone;
    assert |rows.Keys| == |rows| && |(rows - gone).Keys| == |rows - gone|;
  }

  // ---- the steps of EnforceLimits against the rule ----

  /** The store after shedding the captures of the listed rows. */
  ghost function ShedAll(rows: Rows, shed: seq<int>): Rows {
    map id | id in rows :: if id in shed then ShedRow(rows[id]) else rows[id]
  }

  lemma ShedOneMore(rows: Rows, shed: seq<int>, i: nat)
    requires i < |shed| && shed[i] in rows && shed[i] !in shed[..i]
    ensures ShedAll(rows, shed[..i])[shed[i] := ShedRow(rows[shed[i]])] == ShedAll(rows, shed[..i + 1])
  {
    assert shed[..i + 1] == shed[..i] + [shed[i]];
  }

  lemma CardOfDistinct(s: seq<int>, ids: set<int>)
    requires forall i, j | 0 <= i < j < |s| :: s[i] > s[j]
    requires forall id :: id in s <==> id in ids
    ensures |s| == |ids|
  {
    if s == [] {
      assert forall id :: id !in ids;
      assert ids == {};
    } else {
      var init := s[..|s| - 1];
      var last := s[|s| - 1];
      assert s == init + [last];
      assert last !in init;
      CardOfDistinct(init, ids - {last});
    }
  }

  lemma AgedIsTheRule(before: Rows, limits: QueueLimits, now: int, shed: seq<int>)
    ensures (set id | id in ShedAll(before, shed) && TooOld(limits, now, ShedAll(before, shed)[id]))
         == TooOldIds(before, limits, now)
  {
    var shedRows := ShedAll(before, shed);
    assert forall id | id in before :: TooOld(limits, now, shedRows[id]) == TooOld(limits, now, before[id]);
  }

  lemma YoungRows(before: Rows, young: Rows, limits: QueueLimits, now: int, shed: seq<int>, id: int)
    requires young == ShedAll(before, shed) - TooOldIds(before, limits, now)
    ensures NewerOrSame(young, id) == YoungNewerOrSame(before, limits, now, id)
    ensures PendingAt(young, id) <==> PendingAt(before, id) && !TooOld(limits, now, before[id])
  {
  }

  /** Past the newest `maxPendingRows` of the young rows is past the rule's own bound. */
  lemma DropsAreTheRule(before: Rows, young: Rows, nextId: int, limits: QueueLimits, now: int, shed: seq<int>)
    requires forall id :: id in shed <==> id in before && MustShed(before, nextId, limits, now, id)
    requires young == ShedAll(before, shed) - TooOldIds(before, limits, now)
    ensures var overflow := set id | id in young && PendingAt(young, id) && Rank(young, id) > limits.maxPendingRows;
            && overflow == OverflowIds(before, limits, now)
            && young - overflow == Enforced(before, nextId, limits, now)
  {
    forall id
      ensures NewerOrSame(young, id) == YoungNewerOrSame(before, limits, now, id)
      ensures PendingAt(young, id) <==> PendingAt(before, id) && !TooOld(limits, now, before[id])
    {
      YoungRows(before, young, limits, now, shed, id);
    }
    var overflow := set id | id in young && PendingAt(young, id) && Rank(young, id) > limits.maxPendingRows;
    assert overflow == OverflowIds(before, limits, now);
    var out := Enforced(before, nextId, limits, now);
    assert (young - overflow).Keys == out.Keys;
  }
}
