/** One bounded pass over a scope's queue: batches of rows, each delivered (and after a strip delivered
    once more) through a transport that may answer anything, while any local store call may fail. */
module SyncPass {
  import opened Wrappers
  import opened Utf8
  import opened QueueRows
  import opened Limits
  import opened OutboxStore

  const MAX_ALLOWED_ATTEMPTS := 200
  const MAX_ALLOWED_BATCH_LIMIT := 100
  const MAX_REPORT_DIAGNOSTIC_BYTES := 1024
  const MAX_RECEIVED_ID_BYTES := 256

  datatype RetryKind = Transient | Subscription | ClockAhead

  datatype ScopeBlock = AccessLost | Revoked

  datatype Outcome =
    | Accepted(cid: Text)
    | TransientFailure(reason: Text)
    | AuthRequired(reason: Text)
    | Rejected(reason: Text)
    | Park(reason: Text)
    | StripCaptures(reason: Text)
    | RetryLater(reason: Text, kind: RetryKind, retryAfter: Option<nat>)
    | WorkspaceAccessLost(reason: Text)
    | DeviceRevoked(reason: Text)

  datatype ActivityFailure = ActivityFailure(cid: Text, reason: Text)

  /** Why a pass ended early. Errors are carried as such instead of as their display text. */
  datatype StopReason =
    | MaxAttemptsReached(limit: nat)
    | StoppedTransient(cid: Text, reason: Text)
    | StoppedAuthRequired(cid: Text, reason: Text)
    | DefinitiveRejection(cid: Text, reason: Text)
    | MismatchedAcknowledgement(expected: Text, received: Text)
    | AcknowledgementPersistenceFailed(cid: Text, error: OutboxError)
    | RetryMetadataPersistenceFailed(cid: Text, reason: Text, error: OutboxError)
    | StoreError(error: OutboxError)
    | StoppedRetryLater(cid: Text, reason: Text, kind: RetryKind, retryAfter: Option<nat>)
    | ScopeBlocked(cid: Text, reason: Text, block: ScopeBlock)
    | ParkPersistenceFailed(cid: Text, reason: Text, error: OutboxError)
    | DeadlineReached

  datatype Report = Report(
    scope: Scope,
    attempted: nat,
    transportAccepted: seq<Text>,
    persistedAcknowledged: seq<Text>,
    transientFailures: seq<ActivityFailure>,
    definitiveRejections: seq<ActivityFailure>,
    parked: seq<ActivityFailure>,
    stripped: seq<Text>,
    stopReason: Option<StopReason>,
    drained: bool)

  datatype RowStep = Continue | Stop

  datatype SyncError = InvalidSyncScope | InvalidConfig | OutboxFailed(error: OutboxError)

  datatype Config = Config(maxAttempts: nat, batchLimit: nat, deadline: Option<int>) {
    predicate Valid() {
      0 < maxAttempts <= MAX_ALLOWED_ATTEMPTS && 0 < batchLimit <= MAX_ALLOWED_BATCH_LIMIT
    }
  }

  // ---- the transport and the server behind it ----

  datatype Delivery = Delivery(entry: Entry, outcome: Outcome)

  datatype LedgerKey = LedgerKey(scope: Scope, cid: Text)

  /** What the server keeps of an accepted activity. */
  datatype LedgerItem = LedgerItem(payload: Text, signature: Option<Text>, captures: seq<StoredCapture>)

  type Ledger = map<LedgerKey, LedgerItem>

  function KeyOf(e: Entry): LedgerKey {
    LedgerKey(e.scope, e.cid)
  }

  function RowKey(r: Row): LedgerKey {
    LedgerKey(r.scope, r.cid)
  }

  function ItemOf(e: Entry): LedgerItem {
    LedgerItem(e.payload, e.signature, e.captures)
  }

  /** The ledger is idempotent: a delivery is recorded under a new key, or not at all. */
  ghost predicate RecordedAtMost(before: Ledger, after: Ledger, e: Entry) {
    after == before || (KeyOf(e) !in before && after == before[KeyOf(e) := ItemOf(e)])
  }

  /** Any answer at all; the server may also record an activity and its answer be lost. It only
      acknowledges an activity by its own id once the ledger holds it. */
  class Transport {
    var log: seq<Delivery>
    var ledger: Ledger

    constructor ()
      ensures log == [] && ledger == map[]
    {
      log, ledger := [], map[];
    }

    method Deliver(entry: Entry) returns (outcome: Outcome)
      modifies this
      ensures log == old(log) + [Delivery(entry, outcome)]
      ensures RecordedAtMost(old(ledger), ledger, entry)
      ensures outcome == Accepted(entry.cid) ==> KeyOf(entry) in ledger
    {
      outcome := *;
      var recorded: bool := *;
      if (recorded || outcome == Accepted(entry.cid)) && KeyOf(entry) !in ledger {
        ledger := ledger[KeyOf(entry) := ItemOf(entry)];
      }
      log := log + [Delivery(entry, outcome)];
    }
  }

  // ---- what may be observed between two atomic effects ----

  /** Everything that survives a crash: the stored rows with the id counter, and the server's ledger. */
  datatype World = World(rows: Rows, nextId: int, ledger: Ledger)

  /** One atomic effect of a pass over `scope`: the server records a queued row, a queued row changes
      in place (attempt counted, captures shed, parked), or a row the ledger holds is deleted. */
  ghost predicate PassEffect(scope: Scope, w: World, w': World) {
    && w'.nextId == w.nextId
    && (|| w' == w
        || RecordEffect(scope, w, w')
        || ChangeOf(scope, w, w')
        || AckEffect(scope, w, w'))
  }

  ghost predicate RecordEffect(scope: Scope, w: World, w': World) {
    && w'.rows == w.rows
    && exists id :: QueuedAt(w.rows, scope, id) && Records(w.ledger, w'.ledger, w.rows[id])
  }

  ghost predicate ChangeOf(scope: Scope, w: World, w': World) {
    && w'.ledger == w.ledger
    && exists id :: QueuedAt(w.rows, scope, id) && Changes(w.rows, w'.rows, id)
  }

  ghost predicate AckEffect(scope: Scope, w: World, w': World) {
    && w'.ledger == w.ledger
    && exists id :: QueuedAt(w.rows, scope, id) && RowKey(w.rows[id]) in w.ledger && w'.rows == w.rows - {id}
  }

  ghost predicate QueuedAt(rows: Rows, scope: Scope, id: int) {
    id in rows && IsPending(rows[id], scope)
  }

  /** The server records row `r` as it is sent. */
  ghost predicate Records(ledger: Ledger, ledger': Ledger, r: Row) {
    RowKey(r) !in ledger && ledger' == ledger[RowKey(r) := ItemOf(Sent(r))]
  }

  ghost predicate Changes(rows: Rows, rows': Rows, id: int) {
    id in rows && id in rows' && RowEvolves(rows[id], rows'[id]) && rows' == rows[id := rows'[id]]
  }

  /** The worlds a pass goes through from `from` to `to`, one atomic effect at a time. */
  ghost predicate PassTrace(scope: Scope, trace: seq<World>, from: World, to: World) {
    && trace != [] && trace[0] == from && trace[|trace| - 1] == to
    && forall i | 0 <= i < |trace| - 1 :: PassEffect(scope, trace[i], trace[i + 1])
  }

  ghost function Joined(a: seq<World>, b: seq<World>): seq<World>
    requires b != []
  {
    a + b[1..]
  }

  lemma TraceJoin(scope: Scope, a: seq<World>, b: seq<World>, from: World, mid: World, to: World)
    requires PassTrace(scope, a, from, mid) && PassTrace(scope, b, mid, to)
    ensures PassTrace(scope, Joined(a, b), from, to)
  {
    var longer := Joined(a, b);
    forall i | 0 <= i < |longer| - 1
      ensures PassEffect(scope, longer[i], longer[i + 1])
    {
      if i < |a| - 1 {
        assert longer[i] == a[i] && longer[i + 1] == a[i + 1];
      } else {
        assert longer[i] == b[i - |a| + 1] && longer[i + 1] == b[i - |a| + 2];
      }
    }
  }

  /** A delivery of a queued row is one atomic effect. */
  lemma DeliveryEffect(scope: Scope, w: World, w': World, r: Row)
    requires QueuedAt(w.rows, scope, r.id) && w.rows[r.id] == r && w'.rows == w.rows && w'.nextId == w.nextId
    requires RecordedAtMost(w.ledger, w'.ledger, Sent(r))
    ensures PassEffect(scope, w, w')
  {
    if w'.ledger != w.ledger {
      assert Records(w.ledger, w'.ledger, w.rows[r.id]);
    }
  }

  /** So is a change of it in place. */
  lemma ChangeEffect(scope: Scope, w: World, w': World, r: Row, r': Row)
    requires QueuedAt(w.rows, scope, r.id) && w.rows[r.id] == r
    requires w' == w.(rows := w.rows[r.id := r']) && RowEvolves(r, r')
    ensures PassEffect(scope, w, w')
  {
    assert Changes(w.rows, w'.rows, r.id);
  }

  // ---- taking up one row ----

  /** A row as it is sent: a v2 row with its captures, screen first. */
  function Sent(r: Row): Entry {
    EntryOf(r).(captures := if r.format.V2? then InKindOrder(r.captures) else [])
  }

  function Bounded(reason: Text): Text {
    Truncated(reason, MAX_REPORT_DIAGNOSTIC_BYTES)
  }

  /** What the pass keeps of a reason is whole characters, is never refused as an attempt's message, and is
      parked unchanged. */
  lemma BoundedReasonsAreKept(reason: Text)
    ensures |Bounded(reason)| <= MAX_ERROR_MESSAGE_BYTES && Bounded(reason) <= reason
    ensures Truncated(Bounded(reason), MAX_PARKED_REASON_BYTES) == Bounded(reason) == Bounded(Bounded(reason))
    ensures |Bounded(reason)| < |reason| ==> |Bounded(reason)| >= MAX_REPORT_DIAGNOSTIC_BYTES - 3
  {
    if |reason| > MAX_REPORT_DIAGNOSTIC_BYTES {
      TruncatedUsesTheAllowance(reason, MAX_REPORT_DIAGNOSTIC_BYTES);
    }
  }

  /** The deliveries of one row: one, and a second one only after its captures were stripped. */
  ghost predicate Group(r: Row, g: seq<Delivery>) {
    && 1 <= |g| <= 2
    && g[0].entry == Sent(r)
    && (|g| == 2 ==> g[0].outcome.StripCaptures? && r.captureBytes > 0 && g[1].entry == Sent(ShedRow(r)))
  }

  /** What an outcome asks for. */
  datatype Intent =
    | Remove
    | ParkFor(reason: Text, block: Option<ScopeBlock>)
    | Record(reason: Text, stop: StopReason)
    | Keep(rejections: seq<ActivityFailure>, stop: StopReason)
    | StripAndResend(reason: Text)

  function IntentOf(o: Outcome, cid: Text, resent: bool): Intent {
    match o
    case Accepted(received) =>
      if received == cid then Remove
      else Keep([], MismatchedAcknowledgement(cid, Truncated(received, MAX_RECEIVED_ID_BYTES)))
    case TransientFailure(reason) => Record(Bounded(reason), StoppedTransient(cid, Bounded(reason)))
    case RetryLater(reason, kind, retryAfter) =>
      Record(Bounded(reason), StoppedRetryLater(cid, Bounded(reason), kind, retryAfter))
    case AuthRequired(reason) => Keep([], StoppedAuthRequired(cid, Bounded(reason)))
    case Rejected(reason) => Keep([ActivityFailure(cid, Bounded(reason))], DefinitiveRejection(cid, Bounded(reason)))
    case Park(reason) => ParkFor(Bounded(reason), None)
    case StripCaptures(reason) =>
      if resent then ParkFor(Bounded(reason), None) else StripAndResend(Bounded(reason))
    case WorkspaceAccessLost(reason) => Keep([], ScopeBlocked(cid, Bounded(reason), AccessLost))
    case DeviceRevoked(reason) => ParkFor(Bounded(reason), Some(Revoked))
  }

  /** Row `r` was taken up: what was sent, what became of the row, what the report says, and whether
      the pass goes on. `r1` is the row as last sent. Every other row is untouched. */
  ghost predicate TakenUp(r: Row, rows: Rows, rows': Rows, g: seq<Delivery>, before: Report, after: Report, step: RowStep) {
    && rows' - {r.id} == rows - {r.id}
    && if g == [] then
         && r.format.V2? && step.Stop? && rows' == rows
         && exists e :: after == before.(stopReason := Some(StoreError(e)))
       else
         && Group(r, g)
         && var r1 := if |g| == 2 then ShedRow(r) else r;
            var sent := if |g| == 2 then before.(stripped := before.stripped + [r.cid]) else before;
            Concluded(r1, rows', IntentOf(g[|g| - 1].outcome, r.cid, |g| == 2), sent, after, step)
  }

  /** The last outcome's intent was carried out, or carrying it out failed locally and the row stayed. */
  ghost predicate Concluded(r: Row, rows': Rows, intent: Intent, before: Report, after: Report, step: RowStep) {
    var kept := r.id in rows' && rows'[r.id] == r;
    match intent
    case Remove =>
      var accepted := before.(transportAccepted := before.transportAccepted + [r.cid]);
      || (&& r.id !in rows' && step.Continue?
          && after == accepted.(persistedAcknowledged := before.persistedAcknowledged + [r.cid]))
      || (&& kept && step.Stop?
          && exists e :: after == accepted.(stopReason := Some(AcknowledgementPersistenceFailed(r.cid, e))))
    case ParkFor(reason, block) =>
      ParkConcluded(r, rows', reason, block, before, after, step)
    case Record(reason, stop) =>
      && step.Stop?
      && (|| (&& r.id in rows' && rows'[r.id] == FailedRow(r, reason)
              && after == before.(
                   transientFailures := before.transientFailures + [ActivityFailure(r.cid, reason)],
                   stopReason := Some(stop)))
          || (&& kept
              && exists e :: after == before.(stopReason := Some(RetryMetadataPersistenceFailed(r.cid, reason, e)))))
    case Keep(rejections, stop) =>
      && kept && step.Stop?
      && after == before.(definitiveRejections := before.definitiveRejections + rejections, stopReason := Some(stop))
    case StripAndResend(reason) =>
      // the strip failed, or there was nothing to strip: resending cannot make the row any smaller
      || (kept && step.Stop? && exists e :: after == before.(stopReason := Some(StoreError(e))))
      || (r.captureBytes == 0 && ParkConcluded(r, rows', reason, None, before, after, step))
  }

  /** The row is parked for `reason` and listed (and the scope blocked, if asked), or parking it failed. */
  ghost predicate ParkConcluded(r: Row, rows': Rows, reason: Text, block: Option<ScopeBlock>, before: Report, after: Report, step: RowStep) {
    var listed := before.(parked := before.parked + [ActivityFailure(r.cid, reason)]);
    || (&& r.id in rows' && IsParkedAs(r, rows'[r.id], reason)
        && match block
           case None => step.Continue? && after == listed
           case Some(b) => step.Stop? && after == listed.(stopReason := Some(ScopeBlocked(r.cid, reason, b))))
    || (&& r.id in rows' && rows'[r.id] == r && step.Stop?
        && exists e :: after == before.(stopReason := Some(ParkPersistenceFailed(r.cid, reason, e))))
  }
}
