/** What may be queued: the checks of `enqueue` and `enqueue_activity`, and the row each inserts. */
module Enqueueing {
  import opened Wrappers
  import opened Utf8
  import opened Signing
  import opened QueueRows

  datatype EnqueueResult = Inserted(id: int) | Idempotent(id: int)

  /** Bounds on v1 rows (`OutboxLimits`). */
  datatype OutboxLimits = OutboxLimits(maxRecords: nat, maxPayloadBytes: nat, maxTotalPayloadBytes: nat, maxPageLimit: nat) {
    predicate Valid() {
      maxRecords > 0 && maxPayloadBytes > 0 && maxTotalPayloadBytes >= maxPayloadBytes && maxPageLimit > 0
    }
  }

  /** A v1 envelope with the JSON it serializes to. */
  datatype Envelope = Envelope(
    formatVersion: int,
    cid: Text,
    projectId: Option<Text>,
    startedAt: int,
    endedAt: int,
    productivity: Option<nat>,
    platform: Text,
    agentVersion: Text,
    description: Option<Text>,
    payloadSignature: Option<Text>,
    json: Text)
  {
    /** `ActivityEnvelope::validate` */
    function Refusal(): Option<OutboxError> {
      if formatVersion != 1 then Some(UnsupportedFormatVersion(formatVersion))
      else if !ValidIdentity(cid) then Some(InvalidEnvelope)
      else if projectId.Some? && (|projectId.value| > MAX_IDENTITY_BYTES || HasControl(projectId.value)) then Some(InvalidEnvelope)
      else if startedAt > endedAt then Some(InvalidEnvelope)
      else if productivity.Some? && productivity.value > 100 then Some(InvalidEnvelope)
      else if |platform| > 64 || |agentVersion| > 64 then Some(InvalidEnvelope)
      else if description.Some? && |description.value| > 2048 then Some(InvalidEnvelope)
      else if payloadSignature.Some? && (|payloadSignature.value| > 128 || HasControl(payloadSignature.value)) then Some(InvalidEnvelope)
      else None
    }

    function ToRow(id: int, scope: Scope, now: int): Row {
      Row(id, scope, cid, projectId, startedAt, endedAt, json, now, 0, None, Pending, 0, V1, None, map[])
    }
  }

  datatype PendingCapture = PendingCapture(kind: CaptureKind, jpeg: Bytes, capturedAt: int, blurred: bool)

  /** A finished block. What the UUID and JSON libraries say of its ids and payload comes with it:
      `idsWellFormed`, and `payloadVerdict` (`None` when the payload is the row's own JSON object). */
  datatype PendingActivity = PendingActivity(
    cid: Text,
    projectId: Text,
    startedAt: int,
    endedAt: int,
    payload: Text,
    captures: seq<PendingCapture>,
    idsWellFormed: bool,
    payloadVerdict: Option<OutboxError>)
  {
    /** `PendingActivity::validate` */
    function Refusal(): Option<OutboxError> {
      if !ValidIdentity(cid) then Some(InvalidEnvelope)
      else if !idsWellFormed then Some(InvalidEnvelope)
      else if startedAt > endedAt then Some(InvalidEnvelope)
      else if |payload| > MAX_V2_PAYLOAD_BYTES then Some(PayloadTooLarge(|payload|, MAX_V2_PAYLOAD_BYTES))
      else if payloadVerdict.Some? then payloadVerdict
      else CaptureRefusal(captures, 0)
    }

    function ToRow(c: Crypto, key: Bytes, id: int, scope: Scope, now: int): Row {
      Row(id, scope, cid, Some(projectId), startedAt, endedAt, payload, now, 0, None, Pending,
                   JpegTotal(captures), V2, Some(Signature(c, key)), StoredCaptures(c, captures))
    }

    function Signature(c: Crypto, key: Bytes): Text {
      SignV2(c, key, payload, PendingDigests(c, captures))
    }
  }

  /** The first fault among the captures from `i` on. */
  function CaptureRefusal(caps: seq<PendingCapture>, i: nat): Option<OutboxError>
    requires i <= |caps|
    decreases |caps| - i
  {
    if i == |caps| then None
    else if exists j :: 0 <= j < i && caps[j].kind == caps[i].kind then Some(InvalidEnvelope)
    else if caps[i].jpeg == [] then Some(InvalidEnvelope)
    else if |caps[i].jpeg| > caps[i].kind.MaxBytes() then Some(PayloadTooLarge(|caps[i].jpeg|, caps[i].kind.MaxBytes()))
    else CaptureRefusal(caps, i + 1)
  }

  ghost predicate DistinctKinds(caps: seq<PendingCapture>) {
    forall i, j | 0 <= i < j < |caps| :: caps[i].kind != caps[j].kind
  }

  lemma {:induction false} AcceptedCaptures(caps: seq<PendingCapture>, i: nat)
    requires i <= |caps| && CaptureRefusal(caps, i).None?
    ensures forall k | i <= k < |caps| :: caps[k].jpeg != [] && |caps[k].jpeg| <= caps[k].kind.MaxBytes()
    ensures forall j, k | 0 <= j < k < |caps| && i <= k :: caps[j].kind != caps[k].kind
    decreases |caps| - i
  {
    if i < |caps| {
      AcceptedCaptures(caps, i + 1);
    }
  }

  /** Total size of the captures. */
  function JpegTotal(caps: seq<PendingCapture>): nat {
    if caps == [] then 0 else JpegTotal(caps[..|caps| - 1]) + |caps[|caps| - 1].jpeg|
  }

  /** The capture rows inserted with the entry, in order. */
  function StoredCaptures(c: Crypto, caps: seq<PendingCapture>): Captures {
    if caps == [] then map[]
    else
      var cap := caps[|caps| - 1];
      StoredCaptures(c, caps[..|caps| - 1])
      [cap.kind := StoredCapture(cap.kind, cap.jpeg, cap.capturedAt, cap.blurred, c.sha256(cap.jpeg))]
  }

  /** The loop that inserts the capture rows. */
  method InsertedCaptures(c: Crypto, caps: seq<PendingCapture>) returns (captures: Captures)
    ensures captures == StoredCaptures(c, caps)
  {
    captures := map[];
    for i := 0 to |caps|
      invariant captures == StoredCaptures(c, caps[..i])
    {
      assert caps[..i + 1][..i] == caps[..i];
      captures := captures[caps[i].kind :=
        StoredCapture(caps[i].kind, caps[i].jpeg, caps[i].capturedAt, caps[i].blurred, c.sha256(caps[i].jpeg))];
    }
    assert caps[..|caps|] == caps;
  }

  function WithDigest(d: CaptureDigests, kind: CaptureKind, digest: Bytes): CaptureDigests {
    match kind
    case Screen => d.(screen := Some(digest))
    case Thumb => d.(thumb := Some(digest))
  }

  /** The digests of the captures, later ones winning. */
  function PendingDigests(c: Crypto, caps: seq<PendingCapture>): CaptureDigests {
    if caps == [] then CaptureDigests(None, None)
    else
      var cap := caps[|caps| - 1];
      WithDigest(PendingDigests(c, caps[..|caps| - 1]), cap.kind, c.sha256(cap.jpeg))
  }

  /** `PendingActivity::digests`: the loop over the captures. */
  method ComputePendingDigests(c: Crypto, caps: seq<PendingCapture>) returns (digests: CaptureDigests)
    ensures digests == PendingDigests(c, caps)
  {
    digests := CaptureDigests(None, None);
    for i := 0 to |caps|
      invariant digests == PendingDigests(c, caps[..i])
    {
      assert caps[..i + 1][..i] == caps[..i];
      match caps[i].kind {
        case Screen => digests := digests.(screen := Some(c.sha256(caps[i].jpeg)));
        case Thumb => digests := digests.(thumb := Some(c.sha256(caps[i].jpeg)));
      }
    }
    assert caps[..|caps|] == caps;
  }

  /** What was signed is what is stored. */
  lemma {:induction false} StoredDigestsAreSigned(c: Crypto, caps: seq<PendingCapture>)
    ensures DigestsOf(StoredCaptures(c, caps)) == PendingDigests(c, caps)
    ensures Intact(c, StoredCaptures(c, caps))
    ensures forall k | k in StoredCaptures(c, caps) :: exists i :: 0 <= i < |caps| && caps[i].kind == k
  {
    if caps != [] {
      var init := caps[..|caps| - 1];
      StoredDigestsAreSigned(c, init);
      forall k | k in StoredCaptures(c, caps)
        ensures exists i :: 0 <= i < |caps| && caps[i].kind == k
      {
        if k == caps[|caps| - 1].kind {
        } else {
          var i :| 0 <= i < |init| && init[i].kind == k;
          assert caps[i].kind == k;
        }
      }
    }
  }

  /** `capture_bytes` is the size of the stored captures. */
  lemma {:induction false} StoredBytesAreCounted(c: Crypto, caps: seq<PendingCapture>)
    requires DistinctKinds(caps)
    ensures ByteSum(StoredCaptures(c, caps)) == JpegTotal(caps)
  {
    if caps != [] {
      var init := caps[..|caps| - 1];
      StoredBytesAreCounted(c, init);
      StoredDigestsAreSigned(c, init);
      var last := caps[|caps| - 1];
      var stored := StoredCaptures(c, caps);
      assert last.kind !in StoredCaptures(c, init);
      assert stored[last.kind].jpeg == last.jpeg;
      assert forall k | k != last.kind :: JpegLen(stored, k) == JpegLen(StoredCaptures(c, init), k);
    }
  }

  /** An accepted activity makes a valid row. */
  lemma ActivityRowIsValid(c: Crypto, key: Bytes, p: PendingActivity, id: int, scope: Scope, now: int)
    requires ValidScope(scope) && p.Refusal().None?
    ensures ValidRow(c, key, p.ToRow(c, key, id, scope, now))
  {
    AcceptedCaptures(p.captures, 0);
    StoredDigestsAreSigned(c, p.captures);
    StoredBytesAreCounted(c, p.captures);
  }

  /** The captures stored are those queued, each with its image, time, blur and digest. */
  ghost predicate CapturesQueued(c: Crypto, caps: seq<PendingCapture>, m: Captures) {
    && (forall i | 0 <= i < |caps| ::
          && caps[i].kind in m
          && m[caps[i].kind] == StoredCapture(caps[i].kind, caps[i].jpeg, caps[i].capturedAt, caps[i].blurred, c.sha256(caps[i].jpeg)))
    && (forall k | k in m :: exists i :: 0 <= i < |caps| && caps[i].kind == k)
  }

  lemma {:induction false} StoredCapturesAreQueued(c: Crypto, caps: seq<PendingCapture>)
    requires DistinctKinds(caps)
    ensures CapturesQueued(c, caps, StoredCaptures(c, caps))
  {
    StoredDigestsAreSigned(c, caps);
    if caps != [] {
      StoredCapturesAreQueued(c, caps[..|caps| - 1]);
      forall i | 0 <= i < |caps| - 1
        ensures caps[..|caps| - 1][i] == caps[i]
      {
      }
    }
  }

  /** The row a finished block is queued as, field by field. */
  ghost predicate QueuedAs(c: Crypto, key: Bytes, r: Row, id: int, scope: Scope, p: PendingActivity, now: int) {
    && r.id == id && r.scope == scope && r.cid == p.cid && r.projectId == Some(p.projectId)
    && r.startedAt == p.startedAt && r.endedAt == p.endedAt && r.payload == p.payload
    && r.enqueuedAt == now && r.retryCount == 0 && r.lastError == None && r.state == Pending && r.format == V2
    && CapturesQueued(c, p.captures, r.captures) && r.captureBytes == JpegLen(r.captures, Screen) + JpegLen(r.captures, Thumb)
    && r.signature == Some(SignV2(c, key, p.payload, DigestsOf(r.captures)))
  }

  lemma ActivityRowFields(c: Crypto, key: Bytes, p: PendingActivity, id: int, scope: Scope, now: int)
    requires p.Refusal().None?
    ensures QueuedAs(c, key, p.ToRow(c, key, id, scope, now), id, scope, p, now)
  {
    AcceptedCaptures(p.captures, 0);
    StoredCapturesAreQueued(c, p.captures);
    StoredDigestsAreSigned(c, p.captures);
    StoredBytesAreCounted(c, p.captures);
  }

  /** The row a v1 envelope is queued as, field by field. */
  ghost predicate QueuedEnvelope(r: Row, id: int, scope: Scope, e: Envelope, now: int) {
    && r.id == id && r.scope == scope && r.cid == e.cid && r.projectId == e.projectId
    && r.startedAt == e.startedAt && r.endedAt == e.endedAt && r.payload == e.json
    && r.enqueuedAt == now && r.retryCount == 0 && r.lastError == None && r.state == Pending && r.format == V1
    && r.captures == map[] && r.captureBytes == 0 && r.signature == None
  }

  /** Exactly which envelopes are accepted; a foreign format version is named, every other fault is the envelope's. */
  lemma EnvelopesAccepted(e: Envelope)
    ensures e.Refusal().None? <==>
              && e.formatVersion == 1
              && !IsBlank(e.cid) && |e.cid| <= 256 && !HasControl(e.cid)
              && (e.projectId.Some? ==> |e.projectId.value| <= 256 && !HasControl(e.projectId.value))
              && e.startedAt <= e.endedAt
              && (e.productivity.Some? ==> e.productivity.value <= 100)
              && |e.platform| <= 64 && |e.agentVersion| <= 64
              && (e.description.Some? ==> |e.description.value| <= 2048)
              && (e.payloadSignature.Some? ==> |e.payloadSignature.value| <= 128 && !HasControl(e.payloadSignature.value))
    ensures e.Refusal().Some? ==>
              e.Refusal().value == if e.formatVersion != 1 then UnsupportedFormatVersion(e.formatVersion) else InvalidEnvelope
  {
  }

  /** Exactly which finished blocks are accepted, as far as the libraries leave it open. */
  lemma ActivitiesAccepted(p: PendingActivity)
    ensures p.Refusal().None? <==>
              && !IsBlank(p.cid) && |p.cid| <= 256 && !HasControl(p.cid) && p.idsWellFormed
              && p.startedAt <= p.endedAt && |p.payload| <= 524288 && p.payloadVerdict.None?
              && (forall i, j | 0 <= i < j < |p.captures| :: p.captures[i].kind != p.captures[j].kind)
              && (forall i | 0 <= i < |p.captures| ::
                    0 < |p.captures[i].jpeg| <= (if p.captures[i].kind == Screen then 8388608 else 524288))
  {
    if p.Refusal().None? {
      AcceptedCaptures(p.captures, 0);
    } else if CaptureRefusal(p.captures, 0).Some? {
      RefusedCaptures(p.captures, 0);
    }
  }

  /** Captures are refused only for a reason. */
  lemma {:induction false} RefusedCaptures(caps: seq<PendingCapture>, i: nat)
    requires i <= |caps| && CaptureRefusal(caps, i).Some?
    ensures || (exists j, k :: 0 <= j < k < |caps| && caps[j].kind == caps[k].kind)
            || (exists k :: 0 <= k < |caps| && !(0 < |caps[k].jpeg| <= (if caps[k].kind == Screen then 8388608 else 524288)))
    decreases |caps| - i
  {
    if (forall j | 0 <= j < i :: caps[j].kind != caps[i].kind) && 0 < |caps[i].jpeg| <= caps[i].kind.MaxBytes() {
      RefusedCaptures(caps, i + 1);
    }
  }

  /** What `enqueue_activity` must do to a store: refuse, recognise the queued row, or insert. */
  ghost predicate ActivityRefused(c: Crypto, rows: Rows, scope: Scope, p: PendingActivity, key: Bytes, error: OutboxError) {
    if !ValidScope(scope) then error == InvalidScope
    else if key == [] then error == InvalidEnvelope
    else if p.Refusal().Some? then error == p.Refusal().value
    else error == ConflictingIdentity(p.cid)
         && exists id :: Target(rows, scope, p.cid, id) && !SameActivity(c, rows[id], p, key)
  }

  /** The queued row carries this payload and this tag. */
  ghost predicate SameActivity(c: Crypto, r: Row, p: PendingActivity, key: Bytes) {
    r.payload == p.payload && r.signature == Some(p.Signature(c, key))
  }

  /** Sum of the payload sizes of rows with ids in [1, hi). */
  ghost function PayloadTotal(rows: Rows, hi: int): nat
    decreases hi
  {
    if hi <= 1 then 0
    else PayloadTotal(rows, hi - 1) + (if hi - 1 in rows then |rows[hi - 1].payload| else 0)
  }

  /** What `enqueue` must do to a store in its way: refuse, with the error the source reports first. */
  ghost predicate EnvelopeRefused(limits: OutboxLimits, rows: Rows, nextId: int, scope: Scope, e: Envelope, error: OutboxError) {
    if !ValidScope(scope) then error == InvalidScope
    else if e.Refusal().Some? then error == e.Refusal().value
    else if |e.json| > limits.maxPayloadBytes then error == PayloadTooLarge(|e.json|, limits.maxPayloadBytes)
    else if exists id :: Target(rows, scope, e.cid, id) then
      error == ConflictingIdentity(e.cid) && exists id :: Target(rows, scope, e.cid, id) && rows[id].payload != e.json
    else if |rows| >= limits.maxRecords then error == QueueFull(|rows|, limits.maxRecords)
    else
      var total := PayloadTotal(rows, nextId);
      total + |e.json| > limits.maxTotalPayloadBytes && error == QuotaExceeded(total, |e.json|, limits.maxTotalPayloadBytes)
  }

  // ---- what is refused, and why ----

  /** Payload bytes of the listed rows. */
  ghost function PayloadOf(rows: Rows, ids: seq<int>): nat {
    if ids == [] then 0
    else PayloadOf(rows, ids[..|ids| - 1]) + (if ids[|ids| - 1] in rows then |rows[ids[|ids| - 1]].payload| else 0)
  }

  /** The total counted against the quota is that of all rows, pending and parked: `ids` lists each once, in order. */
  lemma {:induction false} TotalIsOfAllRows(rows: Rows, ids: seq<int>, hi: int)
    requires forall i, j | 0 <= i < j < |ids| :: ids[i] < ids[j]
    requires forall k :: k in ids <==> k in rows && k < hi
    requires forall k | k in rows :: 1 <= k
    ensures PayloadTotal(rows, hi) == PayloadOf(rows, ids)
    decreases hi
  {
    if hi <= 1 {
      NothingListed(ids);
    } else if hi - 1 in rows {
      LastListed(ids, hi - 1);
      TotalIsOfAllRows(rows, ids[..|ids| - 1], hi - 1);
    } else {
      TotalIsOfAllRows(rows, ids, hi - 1);
    }
  }

  lemma NothingListed(ids: seq<int>)
    ensures (forall k :: k !in ids) ==> ids == []
  {
    if ids != [] {
      var k := ids[0];
      assert k in ids;
    }
  }

  lemma {:induction false} LastListed(ids: seq<int>, last: int)
    requires forall i, j | 0 <= i < j < |ids| :: ids[i] < ids[j]
    requires last in ids && forall k | k in ids :: k <= last
    ensures ids != [] && ids[|ids| - 1] == last
    ensures forall k :: k in ids[..|ids| - 1] <==> k in ids && k != last
  {
    var i :| 0 <= i < |ids| && ids[i] == last;
    var end := ids[|ids| - 1];
    assert end in ids;
    forall k
      ensures k in ids[..|ids| - 1] <==> k in ids && k != last
    {
      if k in ids && k != last {
        var j :| 0 <= j < |ids| && ids[j] == k;
        assert ids[..|ids| - 1][j] == k;
      }
    }
  }

  /** A v1 envelope is refused exactly if its scope or itself is not acceptable or too large, a row under its
      activity id has another payload, or it is new and the count or the size quota has no room for it. */
  lemma EnvelopeRefusedExactly(limits: OutboxLimits, rows: Rows, nextId: int, scope: Scope, e: Envelope)
    requires UniqueIdentities(rows)
    ensures (exists error :: EnvelopeRefused(limits, rows, nextId, scope, e, error)) <==>
              || !ValidScope(scope) || e.Refusal().Some? || |e.json| > limits.maxPayloadBytes
              || (exists id :: Target(rows, scope, e.cid, id) && rows[id].payload != e.json)
              || (&& (forall id :: !Target(rows, scope, e.cid, id))
                  && (|rows| >= limits.maxRecords || PayloadTotal(rows, nextId) + |e.json| > limits.maxTotalPayloadBytes))
    ensures forall error | EnvelopeRefused(limits, rows, nextId, scope, e, error) ::
              || error == (if ValidScope(scope) then ConflictingIdentity(e.cid) else InvalidScope)
              || (e.Refusal().Some? && error == e.Refusal().value)
              || error == PayloadTooLarge(|e.json|, limits.maxPayloadBytes)
              || (error == QueueFull(|rows|, limits.maxRecords) && |rows| >= limits.maxRecords)
              || error == QuotaExceeded(PayloadTotal(rows, nextId), |e.json|, limits.maxTotalPayloadBytes)
  {
    var error :=
      if !ValidScope(scope) then InvalidScope
      else if e.Refusal().Some? then e.Refusal().value
      else if |e.json| > limits.maxPayloadBytes then PayloadTooLarge(|e.json|, limits.maxPayloadBytes)
      else if exists id :: Target(rows, scope, e.cid, id) then ConflictingIdentity(e.cid)
      else if |rows| >= limits.maxRecords then QueueFull(|rows|, limits.maxRecords)
      else QuotaExceeded(PayloadTotal(rows, nextId), |e.json|, limits.maxTotalPayloadBytes);
    if exists other :: EnvelopeRefused(limits, rows, nextId, scope, e, other) {
      assert EnvelopeRefused(limits, rows, nextId, scope, e, error);
    }
    assert EnvelopeRefused(limits, rows, nextId, scope, e, error) <==>
             || !ValidScope(scope) || e.Refusal().Some? || |e.json| > limits.maxPayloadBytes
             || (exists id :: Target(rows, scope, e.cid, id) && rows[id].payload != e.json)
             || (&& (forall id :: !Target(rows, scope, e.cid, id))
                 && (|rows| >= limits.maxRecords || PayloadTotal(rows, nextId) + |e.json| > limits.maxTotalPayloadBytes));
  }

  /** A finished block is refused exactly if its scope, the key or itself is not acceptable, or a row under its
      activity id has another payload or tag; never for want of room. */
  lemma ActivityRefusedExactly(c: Crypto, rows: Rows, scope: Scope, p: PendingActivity, key: Bytes)
    ensures (exists error :: ActivityRefused(c, rows, scope, p, key, error)) <==>
              || !ValidScope(scope) || key == [] || p.Refusal().Some?
              || (exists id :: && Target(rows, scope, p.cid, id)
                               && (rows[id].payload != p.payload
                                   || rows[id].signature != Some(SignV2(c, key, p.payload, PendingDigests(c, p.captures)))))
  {
    var error :=
      if !ValidScope(scope) then InvalidScope
      else if key == [] then InvalidEnvelope
      else if p.Refusal().Some? then p.Refusal().value
      else ConflictingIdentity(p.cid);
    if exists other :: ActivityRefused(c, rows, scope, p, key, other) {
      assert ActivityRefused(c, rows, scope, p, key, error);
    }
    if id :| Target(rows, scope, p.cid, id)
             && (rows[id].payload != p.payload || rows[id].signature != Some(SignV2(c, key, p.payload, PendingDigests(c, p.captures)))) {
      assert !SameActivity(c, rows[id], p, key);
      assert ActivityRefused(c, rows, scope, p, key, error);
    }
    assert !ValidScope(scope) || key == [] || p.Refusal().Some? ==> ActivityRefused(c, rows, scope, p, key, error);
  }
}
