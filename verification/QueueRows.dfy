/** The rows of the outbox as values: what a row holds, which rows are queued, and how rows may change. */
module QueueRows {
  import opened Wrappers
  import opened Utf8
  import opened Signing

  const MAX_IDENTITY_BYTES := 256
  const MAX_ERROR_MESSAGE_BYTES := 1024
  const MAX_PARKED_REASON_BYTES := 1024
  const MAX_V2_PAYLOAD_BYTES := 512 * 1024
  const MAX_SCREEN_CAPTURE_BYTES := 8 * 1024 * 1024
  const MAX_THUMB_CAPTURE_BYTES := 512 * 1024

  /** The errors of the outbox; everything the database layer itself reports is `StoreFault`. */
  datatype OutboxError =
    | InvalidScope
    | InvalidEnvelope
    | UnsupportedFormatVersion(version: int)
    | PayloadTooLarge(size: nat, max: nat)
    | DiagnosticMessageTooLarge(size: nat, max: nat)
    | QueueFull(count: nat, max: nat)
    | QuotaExceeded(currentBytes: nat, incomingBytes: nat, maxBytes: nat)
    | ConflictingIdentity(cid: Text)
    | RecordNotFound(cid: Text)
    | StoreFault

  datatype Scope = Scope(account: Text, workspace: Text)

  predicate ValidIdentity(t: Text) {
    !IsBlank(t) && |t| <= MAX_IDENTITY_BYTES && !HasControl(t)
  }

  predicate ValidScope(s: Scope) {
    ValidIdentity(s.account) && ValidIdentity(s.workspace)
  }

  datatype CaptureKind = Screen | Thumb {
    function MaxBytes(): nat {
      if Screen? then MAX_SCREEN_CAPTURE_BYTES else MAX_THUMB_CAPTURE_BYTES
    }
  }

  /** A capture as stored: a shed one keeps its digest with no bytes. */
  datatype StoredCapture = StoredCapture(kind: CaptureKind, jpeg: Bytes, capturedAt: int, blurred: bool, sha256: Bytes)

  /** A row's captures; the table's primary key admits one per kind. */
  type Captures = map<CaptureKind, StoredCapture>

  datatype RowState = Pending | Parked(at: int, reason: Text)

  datatype RowFormat = V1 | V2

  datatype Row = Row(
    id: int,
    scope: Scope,
    cid: Text,
    projectId: Option<Text>,
    startedAt: int,
    endedAt: int,
    payload: Text,
    enqueuedAt: int,
    retryCount: nat,
    lastError: Option<Text>,
    state: RowState,
    captureBytes: int,
    format: RowFormat,
    signature: Option<Text>,
    captures: Captures)

  type Rows = map<int, Row>

  // ---- captures ----

  function JpegLen(m: Captures, k: CaptureKind): nat {
    if k in m then |m[k].jpeg| else 0
  }

  /** Image bytes the captures still carry. */
  function ByteSum(m: Captures): nat {
    JpegLen(m, Screen) + JpegLen(m, Thumb)
  }

  predicate HasBytes(m: Captures) {
    exists k :: k in m && m[k].jpeg != []
  }

  lemma HasBytesIffCounted(m: Captures)
    ensures HasBytes(m) <==> ByteSum(m) > 0
  {
    if HasBytes(m) {
      var k :| k in m && m[k].jpeg != [];
      assert JpegLen(m, k) > 0 && (k == Screen || k == Thumb);
    }
  }

  function DigestOf(m: Captures, k: CaptureKind): Option<Bytes> {
    if k in m then Some(m[k].sha256) else None
  }

  /** The digests the row's signature binds. */
  function DigestsOf(m: Captures): CaptureDigests {
    CaptureDigests(DigestOf(m, Screen), DigestOf(m, Thumb))
  }

  /** The same captures without their bytes. */
  function Shed(m: Captures): Captures {
    map k | k in m :: m[k].(jpeg := [])
  }

  /** `after` is `before` with the bytes of some captures gone, and nothing else changed. */
  ghost predicate SomeShed(before: Captures, after: Captures) {
    && after.Keys == before.Keys
    && forall k | k in before :: after[k] == before[k] || after[k] == before[k].(jpeg := [])
  }

  /** Every capture with bytes still has the bytes that were queued. */
  ghost predicate Intact(c: Crypto, m: Captures) {
    forall k | k in m :: m[k].kind == k && (m[k].jpeg == [] || c.sha256(m[k].jpeg) == m[k].sha256)
  }

  lemma ShedKeepsDigests(c: Crypto, m: Captures)
    ensures SomeShed(m, Shed(m)) && DigestsOf(Shed(m)) == DigestsOf(m) && ByteSum(Shed(m)) == 0
    ensures Intact(c, m) ==> Intact(c, Shed(m))
  {
  }

  // ---- rows ----

  predicate IsPending(r: Row, scope: Scope) {
    r.state.Pending? && r.scope == scope
  }

  /** What holds of every stored row; `key` is the device key a v2 row was queued under. */
  ghost predicate ValidRow(c: Crypto, key: Bytes, r: Row) {
    && ValidScope(r.scope) && ValidIdentity(r.cid)
    && r.captureBytes == ByteSum(r.captures)
    && Intact(c, r.captures)
    && (r.state.Parked? ==> r.captures == map[])
    && (r.format.V1? ==> r.captures == map[] && r.signature.None?)
    && (r.format.V2? ==> r.signature.Some?)
    && (r.format.V2? && r.state.Pending? ==>
          r.signature.value == SignV2(c, key, r.payload, DigestsOf(r.captures)))
  }

  /** Row `id` is the one stored under this scope and activity id. */
  predicate Target(rows: Rows, scope: Scope, cid: Text, id: int) {
    id in rows && rows[id].scope == scope && rows[id].cid == cid
  }

  /** UNIQUE(account_id, workspace_id, client_activity_id) */
  ghost predicate UniqueIdentities(rows: Rows) {
    forall scope, cid, i, j | Target(rows, scope, cid, i) && Target(rows, scope, cid, j) :: i == j
  }

  /** The row under `id` is valid and the id was handed out. */
  ghost predicate ValidAt(c: Crypto, keys: map<int, Bytes>, rows: Rows, nextId: int, id: int) {
    id in rows ==>
      && 1 <= id < nextId && rows[id].id == id
      && id in keys
      && ValidRow(c, keys[id], rows[id])
  }

  ghost predicate ValidRows(c: Crypto, keys: map<int, Bytes>, rows: Rows, nextId: int) {
    && 1 <= nextId
    && (forall id {:trigger ValidAt(c, keys, rows, nextId, id)} :: ValidAt(c, keys, rows, nextId, id))
    && UniqueIdentities(rows)
  }

  lemma ValidRowsKeyed(c: Crypto, keys: map<int, Bytes>, rows: Rows, nextId: int)
    requires ValidRows(c, keys, rows, nextId)
    ensures Keyed(rows) && forall id | id in rows :: 1 <= id < nextId
  {
    forall id | id in rows
      ensures rows[id].id == id && 1 <= id < nextId
    {
      assert ValidAt(c, keys, rows, nextId, id);
    }
  }

  lemma UniqueTarget(rows: Rows, scope: Scope, cid: Text, i: int, j: int)
    requires UniqueIdentities(rows) && Target(rows, scope, cid, i) && Target(rows, scope, cid, j)
    ensures i == j
  {
  }

  /** A valid row under a new id and a free identity joins the store. */
  lemma InsertKeepsValid(c: Crypto, keys: map<int, Bytes>, rows: Rows, nextId: int, key: Bytes, r: Row)
    requires ValidRows(c, keys, rows, nextId)
    requires r.id == nextId && ValidRow(c, key, r) && forall id :: !Target(rows, r.scope, r.cid, id)
    ensures ValidRows(c, keys[nextId := key], rows[nextId := r], nextId + 1)
  {
    var rows', keys' := rows[nextId := r], keys[nextId := key];
    forall id {:trigger ValidAt(c, keys', rows', nextId + 1, id)}
      ensures ValidAt(c, keys', rows', nextId + 1, id)
    {
      assert ValidAt(c, keys, rows, nextId, id);
    }
    forall scope, cid, i, j | Target(rows', scope, cid, i) && Target(rows', scope, cid, j)
      ensures i == j
    {
      assert i != nextId ==> Target(rows, scope, cid, i);
      assert j != nextId ==> Target(rows, scope, cid, j);
    }
  }

  /** Rows may leave, and rows may change as long as they stay valid and keep their identity. */
  lemma ChangeKeepsValid(c: Crypto, keys: map<int, Bytes>, rows: Rows, rows': Rows, nextId: int)
    requires ValidRows(c, keys, rows, nextId)
    requires forall id | id in rows' ::
               && id in rows && rows'[id].id == rows[id].id
               && rows'[id].scope == rows[id].scope && rows'[id].cid == rows[id].cid
               && (rows'[id] == rows[id] || (id in keys && ValidRow(c, keys[id], rows'[id])))
    ensures ValidRows(c, keys, rows', nextId)
  {
    forall id {:trigger ValidAt(c, keys, rows', nextId, id)}
      ensures ValidAt(c, keys, rows', nextId, id)
    {
      assert ValidAt(c, keys, rows, nextId, id);
    }
    forall scope, cid, i, j | Target(rows', scope, cid, i) && Target(rows', scope, cid, j)
      ensures i == j
    {
      assert Target(rows, scope, cid, i) && Target(rows, scope, cid, j);
    }
  }

  lemma RemoveKeepsValid(c: Crypto, keys: map<int, Bytes>, rows: Rows, nextId: int, gone: set<int>)
    requires ValidRows(c, keys, rows, nextId)
    ensures ValidRows(c, keys, rows - gone, nextId)
  {
    ChangeKeepsValid(c, keys, rows, rows - gone, nextId);
  }

  lemma UpdateKeepsValid(c: Crypto, keys: map<int, Bytes>, rows: Rows, nextId: int, id: int, r: Row)
    requires ValidRows(c, keys, rows, nextId) && id in rows && id in keys
    requires r.id == rows[id].id && r.scope == rows[id].scope && r.cid == rows[id].cid && ValidRow(c, keys[id], r)
    ensures ValidRows(c, keys, rows[id := r], nextId)
  {
    ChangeKeepsValid(c, keys, rows, rows[id := r], nextId);
  }

  /** What an update may do to a stored row: identity, payload and signature never change. */
  ghost predicate RowEvolves(r: Row, r': Row) {
    && r'.id == r.id && r'.scope == r.scope && r'.cid == r.cid && r'.projectId == r.projectId
    && r'.startedAt == r.startedAt && r'.endedAt == r.endedAt && r'.enqueuedAt == r.enqueuedAt
    && r'.payload == r.payload && r'.format == r.format && r'.signature == r.signature
    && r.retryCount <= r'.retryCount
    && (r.state.Parked? ==> r' == r)
    && (r'.state.Pending? ==> SomeShed(r.captures, r'.captures))
    && (r'.state.Parked? ==> r' == r || r'.captures == map[])
  }

  lemma RowEvolvesTransitive(a: Row, b: Row, c: Row)
    requires RowEvolves(a, b) && RowEvolves(b, c)
    ensures RowEvolves(a, c)
  {
  }

  // ---- the queue of a scope ----

  /** The scope's pending rows with ids in [lo, hi), oldest first. */
  ghost function PendingFrom(rows: Rows, scope: Scope, lo: int, hi: int): (q: seq<Row>)
    decreases hi - lo
  {
    if lo >= hi then []
    else
      (if lo in rows && IsPending(rows[lo], scope) then [rows[lo]] else [])
      + PendingFrom(rows, scope, lo + 1, hi)
  }

  /** ids are what the map says they are */
  ghost predicate Keyed(rows: Rows) {
    forall id | id in rows :: rows[id].id == id
  }

  lemma {:induction false} PendingFromMembers(rows: Rows, scope: Scope, lo: int, hi: int)
    requires Keyed(rows)
    ensures forall r :: r in PendingFrom(rows, scope, lo, hi)
                   <==> lo <= r.id < hi && r.id in rows && rows[r.id] == r && IsPending(r, scope)
    decreases hi - lo
  {
    if lo < hi {
      PendingFromMembers(rows, scope, lo + 1, hi);
    }
  }

  /** ids ascend along the queue */
  ghost predicate Ascending(q: seq<Row>) {
    forall i, j | 0 <= i < j < |q| :: q[i].id < q[j].id
  }

  lemma {:induction false} PendingFromAscending(rows: Rows, scope: Scope, lo: int, hi: int)
    requires Keyed(rows)
    ensures Ascending(PendingFrom(rows, scope, lo, hi))
    decreases hi - lo
  {
    if lo < hi {
      PendingFromAscending(rows, scope, lo + 1, hi);
      PendingFromMembers(rows, scope, lo + 1, hi);
      var rest := PendingFrom(rows, scope, lo + 1, hi);
      assert forall k | 0 <= k < |rest| :: rest[k] in rest;
    }
  }

  /** Only the scope's pending rows matter. */
  lemma {:induction false} PendingFromFrame(rows: Rows, rows': Rows, scope: Scope, lo: int, hi: int)
    requires forall id | lo <= id < hi ::
               (id in rows && IsPending(rows[id], scope)) == (id in rows' && IsPending(rows'[id], scope))
    requires forall id | lo <= id < hi && id in rows && id in rows' && IsPending(rows[id], scope) :: rows'[id] == rows[id]
    ensures PendingFrom(rows, scope, lo, hi) == PendingFrom(rows', scope, lo, hi)
    decreases hi - lo
  {
    if lo < hi {
      PendingFromFrame(rows, rows', scope, lo + 1, hi);
    }
  }

  /** Ids at or above every key add nothing. */
  lemma {:induction false} PendingFromBeyond(rows: Rows, scope: Scope, lo: int, hi: int, hi': int)
    requires hi <= hi' && forall id | id in rows :: id < hi
    ensures PendingFrom(rows, scope, lo, hi') == PendingFrom(rows, scope, lo, hi)
    decreases hi' - lo
  {
    if lo < hi' {
      PendingFromBeyond(rows, scope, lo + 1, hi, hi');
    }
  }

  /** When the oldest queued row leaves the queue and no other row of the scope changes, the rest remains. */
  lemma {:induction false} PendingFromDropFirst(rows: Rows, rows': Rows, scope: Scope, lo: int, hi: int)
    requires Keyed(rows) && PendingFrom(rows, scope, lo, hi) != []
    requires var first := PendingFrom(rows, scope, lo, hi)[0].id;
             && !(first in rows' && IsPending(rows'[first], scope))
             && (forall id | id != first ::
                   && (id in rows <==> id in rows')
                   && (id in rows ==> rows'[id] == rows[id]))
    ensures PendingFrom(rows', scope, lo, hi) == PendingFrom(rows, scope, lo, hi)[1..]
    decreases hi - lo
  {
    if lo in rows && IsPending(rows[lo], scope) {
      PendingFromFrame(rows, rows', scope, lo + 1, hi);
    } else {
      PendingFromDropFirst(rows, rows', scope, lo + 1, hi);
    }
  }
}
