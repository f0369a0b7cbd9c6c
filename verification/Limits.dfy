/** The queue limits: which captures are shed and which pending rows are dropped, as a rule and as a sweep. */
module Limits {
  import opened Wrappers
  import opened Utf8
  import opened Signing
  import opened QueueRows

  const DAY := 86400
  const I64_MAX := 0x7FFF_FFFF_FFFF_FFFF

  datatype QueueLimits = QueueLimits(
    captureMaxRows: nat,
    captureMaxBytes: nat,
    captureMaxAgeDays: nat,
    maxPendingRows: nat,
    maxAgeDays: nat)

  datatype LimitReport = LimitReport(stripped: nat, droppedOverflow: nat, droppedTooOld: nat) {
    function Dropped(): nat {
      droppedOverflow + droppedTooOld
    }
  }

  predicate PendingAt(rows: Rows, id: int) {
    id in rows && rows[id].state.Pending?
  }

  /** Every pending row, whatever its scope. */
  function PendingIds(rows: Rows): set<int> {
    set id | id in rows && PendingAt(rows, id)
  }

  /** The pending rows at least as new as `id`. */
  function NewerOrSame(rows: Rows, id: int): set<int> {
    set j | j in rows && PendingAt(rows, j) && id <= j
  }

  /** ROW_NUMBER() OVER (ORDER BY id DESC) */
  function Rank(rows: Rows, id: int): nat {
    |NewerOrSame(rows, id)|
  }

  function BytesAt(rows: Rows, id: int): int {
    if PendingAt(rows, id) then rows[id].captureBytes else 0
  }

  /** SUM(capture_bytes) over the pending rows with ids in [lo, hi). */
  function SumFrom(rows: Rows, lo: int, hi: int): int
    decreases hi - lo
  {
    if lo >= hi then 0 else BytesAt(rows, lo) + SumFrom(rows, lo + 1, hi)
  }

  function MaxBytes(limits: QueueLimits): nat {
    Min(limits.captureMaxBytes, I64_MAX)
  }

  /** The captures of row `id` are past the newest rows, past the byte budget (its own bytes and
      those of every newer row counted, shed or not), or queued too long ago. */
  predicate MustShed(rows: Rows, nextId: int, limits: QueueLimits, now: int, id: int) {
    && PendingAt(rows, id)
    && rows[id].captureBytes > 0
    && (|| Rank(rows, id) > limits.captureMaxRows
        || SumFrom(rows, id, nextId) > MaxBytes(limits)
        || rows[id].enqueuedAt < now - limits.captureMaxAgeDays * DAY)
  }

  predicate TooOld(limits: QueueLimits, now: int, r: Row) {
    r.state.Pending? && r.startedAt < now - limits.maxAgeDays * DAY
  }

  /** The pending rows at least as new as `id` whose block is not too old. */
  function YoungNewerOrSame(rows: Rows, limits: QueueLimits, now: int, id: int): set<int> {
    set j | j in rows && PendingAt(rows, j) && id <= j && !TooOld(limits, now, rows[j])
  }

  /** Row `id` is pending and among the newest `maxPendingRows` of those not too old. */
  predicate Survives(rows: Rows, limits: QueueLimits, now: int, id: int) {
    && PendingAt(rows, id)
    && !TooOld(limits, now, rows[id])
    && |YoungNewerOrSame(rows, limits, now, id)| <= limits.maxPendingRows
  }

  function ShedRow(r: Row): Row {
    r.(captures := Shed(r.captures), captureBytes := 0)
  }

  /** The store the limits leave: parked rows, and the surviving pending rows with or without captures. */
  function Enforced(rows: Rows, nextId: int, limits: QueueLimits, now: int): Rows {
    map id | id in rows && (PendingAt(rows, id) ==> Survives(rows, limits, now, id)) ::
      if MustShed(rows, nextId, limits, now, id) then ShedRow(rows[id]) else rows[id]
  }

  function MustShedIds(rows: Rows, nextId: int, limits: QueueLimits, now: int): set<int> {
    set id | id in rows && MustShed(rows, nextId, limits, now, id)
  }

  function TooOldIds(rows: Rows, limits: QueueLimits, now: int): set<int> {
    set id | id in rows && TooOld(limits, now, rows[id])
  }

  function OverflowIds(rows: Rows, limits: QueueLimits, now: int): set<int> {
    set id | id in rows && PendingAt(rows, id) && !TooOld(limits, now, rows[id]) && !Survives(rows, limits, now, id)
  }

  function EnforcedReport(rows: Rows, nextId: int, limits: QueueLimits, now: int): LimitReport {
    LimitReport(|MustShedIds(rows, nextId, limits, now)|, |OverflowIds(rows, limits, now)|, |TooOldIds(rows, limits, now)|)
  }

  /** ids lie in [1, nextId) and byte counts are not negative */
  ghost predicate WellFormed(rows: Rows, nextId: int) {
    forall id | id in rows :: 1 <= id < nextId && rows[id].captureBytes >= 0
  }

  // ---- the sweep ----

  lemma NewerStep(rows: Rows, id: int)
    ensures NewerOrSame(rows, id) == NewerOrSame(rows, id + 1) + (if PendingAt(rows, id) then {id} else {})
    ensures Rank(rows, id) == Rank(rows, id + 1) + (if PendingAt(rows, id) then 1 else 0)
  {
  }

  /** The ids with captures to shed from `lo` up, newest first. */
  function ShedFrom(rows: Rows, nextId: int, limits: QueueLimits, now: int, lo: int): seq<int>
    decreases nextId - lo
  {
    if lo >= nextId then []
    else
      ShedFrom(rows, nextId, limits, now, lo + 1)
      + (if MustShed(rows, nextId, limits, now, lo) then [lo] else [])
  }

  lemma {:induction false} ShedFromMembers(rows: Rows, nextId: int, limits: QueueLimits, now: int, lo: int)
    requires lo <= nextId
    ensures var shed := ShedFrom(rows, nextId, limits, now, lo);
            && (forall id :: id in shed <==> lo <= id < nextId && MustShed(rows, nextId, limits, now, id))
            && (forall i, j | 0 <= i < j < |shed| :: shed[i] > shed[j])
    decreases nextId - lo
  {
    if lo < nextId {
      ShedFromMembers(rows, nextId, limits, now, lo + 1);
      var newer := ShedFrom(rows, nextId, limits, now, lo + 1);
      assert forall k | 0 <= k < |newer| :: newer[k] in newer;
    }
  }

  /** One pass over the pending rows, newest first, with a running count and a running byte sum:
      it finds exactly the rows whose captures must go. */
  method SweepShedIds(rows: Rows, nextId: int, limits: QueueLimits, now: int) returns (shed: seq<int>)
    requires WellFormed(rows, nextId) && 1 <= nextId
    ensures forall id :: id in shed <==> id in rows && MustShed(rows, nextId, limits, now, id)
    ensures forall i, j | 0 <= i < j < |shed| :: shed[i] > shed[j]
  {
    shed := [];
    var rank := 0;
    var keptBytes := 0;
    var id := nextId;
    assert NewerOrSame(rows, nextId) == {};
    while id > 1
      invariant 1 <= id <= nextId
      invariant rank == Rank(rows, id)
      invariant keptBytes == SumFrom(rows, id, nextId)
      invariant shed == ShedFrom(rows, nextId, limits, now, id)
    {
      id := id - 1;
      NewerStep(rows, id);
      if id in rows && rows[id].state.Pending? {
        rank := rank + 1;
        keptBytes := keptBytes + rows[id].captureBytes;
        if rows[id].captureBytes > 0
          && (rank > limits.captureMaxRows || keptBytes > MaxBytes(limits)
              || rows[id].enqueuedAt < now - limits.captureMaxAgeDays * DAY)
        {
          shed := shed + [id];
        }
      }
    }
    ShedFromMembers(rows, nextId, limits, now, 1);
  }

  // ---- what the limits guarantee ----

  lemma {:induction false} SumFromMonotone(a: Rows, b: Rows, lo: int, hi: int)
    requires forall id | lo <= id < hi :: BytesAt(a, id) <= BytesAt(b, id)
    ensures SumFrom(a, lo, hi) <= SumFrom(b, lo, hi)
    decreases hi - lo
  {
    if lo < hi {
      SumFromMonotone(a, b, lo + 1, hi);
    }
  }

  /** `out` is what the limits leave of `rows`, seen row by row. */
  ghost predicate Left(rows: Rows, out: Rows, nextId: int, limits: QueueLimits, now: int) {
    && (forall id :: PendingAt(out, id) <==> Survives(rows, limits, now, id))
    && (forall id :: BytesAt(out, id) <= BytesAt(rows, id))
    && (forall id | PendingAt(out, id) && out[id].captureBytes > 0 :: !MustShed(rows, nextId, limits, now, id))
    && (forall id | PendingAt(out, id) :: id in rows && out[id].captureBytes >= 0
          && out[id].startedAt == rows[id].startedAt && out[id].enqueuedAt == rows[id].enqueuedAt)
  }

  lemma EnforcedLeft(rows: Rows, nextId: int, limits: QueueLimits, now: int)
    requires WellFormed(rows, nextId)
    ensures Left(rows, Enforced(rows, nextId, limits, now), nextId, limits, now)
  {
  }

  lemma SubsetCard<T>(a: set<T>, b: set<T>)
    requires a <= b
    ensures |a| <= |b|
  {
    assert b == a + (b - a);
  }

  /** Counted from any id on, the bytes still carried fit the byte budget. */
  lemma {:induction false} BytesBound(rows: Rows, out: Rows, nextId: int, limits: QueueLimits, now: int, lo: int)
    requires Left(rows, out, nextId, limits, now)
    ensures SumFrom(out, lo, nextId) <= MaxBytes(limits)
    decreases nextId - lo
  {
    if lo < nextId {
      BytesBound(rows, out, nextId, limits, now, lo + 1);
      if BytesAt(out, lo) > 0 {
        assert BytesAt(out, lo) <= BytesAt(rows, lo);
        assert !MustShed(rows, nextId, limits, now, lo);
        SumFromMonotone(out, rows, lo, nextId);
      }
    }
  }

  /** The pending rows with ids at least `lo` that still carry capture bytes. */
  ghost function CapturedFrom(rows: Rows, lo: int): set<int> {
    set id | id in rows && BytesAt(rows, id) > 0 && lo <= id
  }

  /** Counted from any id on, the rows still carrying captures fit the row budget. */
  lemma {:induction false} CapturedBound(rows: Rows, out: Rows, nextId: int, limits: QueueLimits, now: int, lo: int)
    requires Left(rows, out, nextId, limits, now) && lo <= nextId && forall id | id in out :: id < nextId
    ensures |CapturedFrom(out, lo)| <= limits.captureMaxRows
    decreases nextId - lo
  {
    if lo == nextId {
      assert CapturedFrom(out, lo) == {};
    } else if BytesAt(out, lo) > 0 {
      assert BytesAt(out, lo) <= BytesAt(rows, lo);
      assert !MustShed(rows, nextId, limits, now, lo);
      forall id | id in CapturedFrom(out, lo)
        ensures id in NewerOrSame(rows, lo)
      {
        assert BytesAt(out, id) <= BytesAt(rows, id);
      }
      SubsetCard(CapturedFrom(out, lo), NewerOrSame(rows, lo));
    } else {
      CapturedBound(rows, out, nextId, limits, now, lo + 1);
      assert CapturedFrom(out, lo) == CapturedFrom(out, lo + 1);
    }
  }

  /** Counted from any id on, the pending rows fit the row limit. */
  lemma {:induction false} PendingBound(rows: Rows, out: Rows, nextId: int, limits: QueueLimits, now: int, lo: int)
    requires Left(rows, out, nextId, limits, now) && lo <= nextId && forall id | id in out :: id < nextId
    ensures |NewerOrSame(out, lo)| <= limits.maxPendingRows
    decreases nextId - lo
  {
    if lo == nextId {
      assert NewerOrSame(out, lo) == {};
    } else if PendingAt(out, lo) {
      assert Survives(rows, limits, now, lo);
      YoungerStay(rows, out, nextId, limits, now, lo);
      SubsetCard(NewerOrSame(out, lo), YoungNewerOrSame(rows, limits, now, lo));
    } else {
      PendingBound(rows, out, nextId, limits, now, lo + 1);
      assert NewerOrSame(out, lo) == NewerOrSame(out, lo + 1);
    }
  }

  lemma YoungerStay(rows: Rows, out: Rows, nextId: int, limits: QueueLimits, now: int, lo: int)
    requires Left(rows, out, nextId, limits, now)
    ensures NewerOrSame(out, lo) <= YoungNewerOrSame(rows, limits, now, lo)
    ensures YoungNewerOrSame(out, limits, now, lo) <= YoungNewerOrSame(rows, limits, now, lo)
    ensures NewerOrSame(out, lo) <= NewerOrSame(rows, lo)
  {
    forall id | id in NewerOrSame(out, lo)
      ensures id in YoungNewerOrSame(rows, limits, now, lo) && id in NewerOrSame(rows, lo)
    {
      assert Survives(rows, limits, now, id);
    }
  }

  /** After enforcement the whole queue is within every bound. */
  lemma EnforcedWithinBounds(rows: Rows, nextId: int, limits: QueueLimits, now: int)
    requires WellFormed(rows, nextId) && 1 <= nextId
    ensures var out := Enforced(rows, nextId, limits, now);
            && SumFrom(out, 1, nextId) <= limits.captureMaxBytes
            && |CapturedFrom(out, 1)| <= limits.captureMaxRows
            && |PendingIds(out)| <= limits.maxPendingRows
  {
    var out := Enforced(rows, nextId, limits, now);
    EnforcedLeft(rows, nextId, limits, now);
    BytesBound(rows, out, nextId, limits, now, 1);
    CapturedBound(rows, out, nextId, limits, now, 1);
    PendingBound(rows, out, nextId, limits, now, 1);
    assert PendingIds(out) == NewerOrSame(out, 1);
  }

  /** Every pending row is kept or counted in exactly one of the two drop counts. */
  lemma EnforcedConserves(rows: Rows, nextId: int, limits: QueueLimits, now: int)
    requires WellFormed(rows, nextId)
    ensures |PendingIds(rows)|
         == |PendingIds(Enforced(rows, nextId, limits, now))| + EnforcedReport(rows, nextId, limits, now).Dropped()
  {
    var out := Enforced(rows, nextId, limits, now);
    EnforcedLeft(rows, nextId, limits, now);
    var aged := TooOldIds(rows, limits, now);
    var over := OverflowIds(rows, limits, now);
    forall id
      ensures id in PendingIds(rows) <==> id in PendingIds(out) || id in aged || id in over
      ensures !(id in PendingIds(out) && (id in aged || id in over)) && !(id in aged && id in over)
    {
      assert PendingAt(out, id) <==> Survives(rows, limits, now, id);
    }
    assert PendingIds(rows) == PendingIds(out) + aged + over;
  }

  /** Parked rows stay as they are; a kept row only loses capture bytes. */
  lemma EnforcedKeepsRows(rows: Rows, nextId: int, limits: QueueLimits, now: int)
    ensures var out := Enforced(rows, nextId, limits, now);
            && (forall id | id in rows && rows[id].state.Parked? :: id in out && out[id] == rows[id])
            && (forall id | id in out :: id in rows && RowEvolves(rows[id], out[id]))
            && (forall id | id in rows && id !in out :: PendingAt(rows, id) && !Survives(rows, limits, now, id))
  {
  }

  /** A shed row is as valid as before: its digests, and so its tag, are untouched. */
  lemma ShedRowIsValid(c: Crypto, key: Bytes, r: Row)
    requires ValidRow(c, key, r)
    ensures ValidRow(c, key, ShedRow(r)) && RowEvolves(r, ShedRow(r))
  {
    ShedKeepsDigests(c, r.captures);
  }

  lemma ValidIsWellFormed(c: Crypto, keys: map<int, Bytes>, rows: Rows, nextId: int)
    requires ValidRows(c, keys, rows, nextId)
    ensures WellFormed(rows, nextId)
  {
    forall id | id in rows
      ensures 1 <= id < nextId && rows[id].captureBytes >= 0
    {
      assert ValidAt(c, keys, rows, nextId, id);
    }
  }

  /** The limits leave a valid store. */
  lemma EnforcedIsValid(c: Crypto, keys: map<int, Bytes>, rows: Rows, nextId: int, limits: QueueLimits, now: int)
    requires ValidRows(c, keys, rows, nextId)
    ensures ValidRows(c, keys, Enforced(rows, nextId, limits, now), nextId)
  {
    var out := Enforced(rows, nextId, limits, now);
    forall id | id in out
      ensures id in keys && ValidRow(c, keys[id], out[id])
    {
      assert ValidAt(c, keys, rows, nextId, id);
      ShedRowIsValid(c, keys[id], rows[id]);
    }
    ChangeKeepsValid(c, keys, rows, out, nextId);
  }

  /** Nothing that was left is shed or dropped by the same limits at the same time. */
  lemma LeftIsSettled(rows: Rows, out: Rows, nextId: int, limits: QueueLimits, now: int, id: int)
    requires Left(rows, out, nextId, limits, now)
    ensures !MustShed(out, nextId, limits, now, id)
    ensures PendingAt(out, id) ==> Survives(out, limits, now, id)
  {
    if PendingAt(out, id) {
      assert Survives(rows, limits, now, id);
      YoungerStay(rows, out, nextId, limits, now, id);
      SubsetCard(YoungNewerOrSame(out, limits, now, id), YoungNewerOrSame(rows, limits, now, id));
      SubsetCard(NewerOrSame(out, id), NewerOrSame(rows, id));
      SumFromMonotone(out, rows, id, nextId);
      assert BytesAt(out, id) <= BytesAt(rows, id);
    }
  }

  /** Enforcing the same limits at the same time again finds nothing to do. */
  lemma EnforcedTwice(rows: Rows, nextId: int, limits: QueueLimits, now: int)
    requires WellFormed(rows, nextId)
    ensures var out := Enforced(rows, nextId, limits, now);
            && Enforced(out, nextId, limits, now) == out
            && EnforcedReport(out, nextId, limits, now) == LimitReport(0, 0, 0)
  {
    var out := Enforced(rows, nextId, limits, now);
    EnforcedLeft(rows, nextId, limits, now);
    forall id
      ensures !MustShed(out, nextId, limits, now, id)
      ensures PendingAt(out, id) ==> Survives(out, limits, now, id)
    {
      LeftIsSettled(rows, out, nextId, limits, now, id);
    }
    assert MustShedIds(out, nextId, limits, now) == {};
    assert TooOldIds(out, limits, now) == {};
    assert OverflowIds(out, limits, now) == {};
  }

  // ---- which rows and captures the limits leave, in numbers ----

  /** Capture bytes of the listed rows. */
  function BytesOf(rows: Rows, ids: seq<int>): int {
    if ids == [] then 0 else (if ids[0] in rows then rows[ids[0]].captureBytes else 0) + BytesOf(rows, ids[1..])
  }

  /** `ids` lists each pending row from `id` on exactly once, oldest first. */
  ghost predicate ListsPendingFrom(rows: Rows, ids: seq<int>, id: int) {
    && (forall i, j | 0 <= i < j < |ids| :: ids[i] < ids[j])
    && (forall k :: k in ids <==> k in rows && rows[k].state.Pending? && id <= k)
  }

  lemma {:induction false} SumIsBytesOf(rows: Rows, ids: seq<int>, lo: int, hi: int)
    requires ListsPendingFrom(rows, ids, lo) && forall id | id in rows :: id < hi
    ensures SumFrom(rows, lo, hi) == BytesOf(rows, ids)
    decreases hi - lo
  {
    if lo >= hi {
      NoneListed(ids);
    } else if lo in rows && rows[lo].state.Pending? {
      FirstListed(rows, ids, lo);
      SumIsBytesOf(rows, ids[1..], lo + 1, hi);
    } else {
      assert ListsPendingFrom(rows, ids, lo + 1);
      SumIsBytesOf(rows, ids, lo + 1, hi);
    }
  }

  lemma NoneListed(ids: seq<int>)
    ensures (forall k :: k !in ids) ==> ids == []
  {
    if ids != [] {
      var k := ids[0];
      assert k in ids;
    }
  }

  lemma {:induction false} FirstListed(rows: Rows, ids: seq<int>, lo: int)
    requires ListsPendingFrom(rows, ids, lo) && lo in rows && rows[lo].state.Pending?
    ensures ids != [] && ids[0] == lo && ListsPendingFrom(rows, ids[1..], lo + 1)
  {
    assert lo in ids;
    var i :| 0 <= i < |ids| && ids[i] == lo;
    assert ids[0] in ids;
    forall k
      ensures k in ids[1..] <==> k in rows && rows[k].state.Pending? && lo + 1 <= k
    {
      assert k in ids[1..] <==> k in ids && k != ids[0] by {
        if k in ids && k != ids[0] {
          var j :| 0 <= j < |ids| && ids[j] == k;
          assert ids[1..][j - 1] == k;
        }
      }
    }
  }

  /** The limits drop a pending row exactly if its block started more than `maxAgeDays` days ago, or as many
      newer pending rows that did not are there as may stay; a parked row is never dropped. */
  lemma DroppedByNumbers(rows: Rows, nextId: int, limits: QueueLimits, now: int, id: int)
    requires id in rows
    ensures id !in Enforced(rows, nextId, limits, now)
       <==> && rows[id].state.Pending?
            && (|| rows[id].startedAt < now - limits.maxAgeDays * 86400
                || |set j | j in rows && rows[j].state.Pending? && id < j && rows[j].startedAt >= now - limits.maxAgeDays * 86400|
                   >= limits.maxPendingRows)
  {
    var newer := set j | j in rows && rows[j].state.Pending? && id < j && rows[j].startedAt >= now - limits.maxAgeDays * 86400;
    if rows[id].state.Pending? && rows[id].startedAt >= now - limits.maxAgeDays * 86400 {
      assert YoungNewerOrSame(rows, limits, now, id) == newer + {id};
      assert |newer + {id}| == |newer| + 1;
    }
  }

  /** In particular a young row among the newest `maxPendingRows` pending ones stays. */
  lemma FreshRowsStay(rows: Rows, nextId: int, limits: QueueLimits, now: int, id: int)
    requires id in rows && rows[id].state.Pending? && rows[id].startedAt >= now - limits.maxAgeDays * 86400
    requires |set j | j in rows && rows[j].state.Pending? && id < j| < limits.maxPendingRows
    ensures id in Enforced(rows, nextId, limits, now)
  {
    DroppedByNumbers(rows, nextId, limits, now, id);
    SubsetCard(set j | j in rows && rows[j].state.Pending? && id < j && rows[j].startedAt >= now - limits.maxAgeDays * 86400,
               set j | j in rows && rows[j].state.Pending? && id < j);
  }

  /** A pending row that stays is left as it is, or loses exactly its image bytes: if it has any, and it is past
      the newest `captureMaxRows` pending rows, or its bytes with all newer ones' exceed the budget, or it was
      queued more than `captureMaxAgeDays` days ago. `ids` lists it and the newer pending rows. */
  lemma KeptByNumbers(rows: Rows, nextId: int, limits: QueueLimits, now: int, id: int, ids: seq<int>)
    requires id in Enforced(rows, nextId, limits, now) && rows[id].state.Pending?
    requires ListsPendingFrom(rows, ids, id) && forall k | k in rows :: k < nextId
    ensures var out := Enforced(rows, nextId, limits, now);
            var sheds := && rows[id].captureBytes > 0
                         && (|| |ids| > limits.captureMaxRows
                             || BytesOf(rows, ids) > Min(limits.captureMaxBytes, 0x7FFF_FFFF_FFFF_FFFF)
                             || rows[id].enqueuedAt < now - limits.captureMaxAgeDays * 86400);
            && (!sheds ==> out[id] == rows[id])
            && (sheds ==>
                  && out[id] == rows[id].(captures := out[id].captures, captureBytes := 0)
                  && out[id].captures.Keys == rows[id].captures.Keys
                  && forall k | k in rows[id].captures :: out[id].captures[k] == rows[id].captures[k].(jpeg := []))
  {
    SumIsBytesOf(rows, ids, id, nextId);
    ListedCount(ids, NewerOrSame(rows, id));
  }

  /** Row `id` has image bytes and is past the newest rows, past the byte budget or past the age for captures. */
  ghost predicate PastCaptureLimits(rows: Rows, nextId: int, limits: QueueLimits, now: int, id: int)
    requires id in rows
  {
    && rows[id].state.Pending? && rows[id].captureBytes > 0
    && (|| |set j | j in rows && rows[j].state.Pending? && id <= j| > limits.captureMaxRows
        || SumFrom(rows, id, nextId) > Min(limits.captureMaxBytes, 0x7FFF_FFFF_FFFF_FFFF)
        || rows[id].enqueuedAt < now - limits.captureMaxAgeDays * 86400)
  }

  lemma MustShedByNumbers(rows: Rows, nextId: int, limits: QueueLimits, now: int, id: int)
    requires id in rows
    ensures MustShed(rows, nextId, limits, now, id) <==> PastCaptureLimits(rows, nextId, limits, now, id)
  {
    assert NewerOrSame(rows, id) == set j | j in rows && rows[j].state.Pending? && id <= j;
  }

  /** What the report counts: pending rows started too long ago, other pending rows dropped, and pending rows
      whose image bytes were removed before any row was dropped. */
  lemma ReportByNumbers(rows: Rows, nextId: int, limits: QueueLimits, now: int)
    ensures var (out, report) := (Enforced(rows, nextId, limits, now), EnforcedReport(rows, nextId, limits, now));
            && report.droppedTooOld
               == |set id | id in rows && rows[id].state.Pending? && rows[id].startedAt < now - limits.maxAgeDays * 86400|
            && report.droppedOverflow
               == |set id | id in rows && rows[id].startedAt >= now - limits.maxAgeDays * 86400 && id !in out|
            && report.stripped == |set id | id in rows && PastCaptureLimits(rows, nextId, limits, now, id)|
  {
    var out := Enforced(rows, nextId, limits, now);
    assert TooOldIds(rows, limits, now)
        == set id | id in rows && rows[id].state.Pending? && rows[id].startedAt < now - limits.maxAgeDays * 86400;
    assert OverflowIds(rows, limits, now)
        == set id | id in rows && rows[id].startedAt >= now - limits.maxAgeDays * 86400 && id !in out;
    forall id | id in rows
      ensures MustShed(rows, nextId, limits, now, id) <==> PastCaptureLimits(rows, nextId, limits, now, id)
    {
      MustShedByNumbers(rows, nextId, limits, now, id);
    }
    assert MustShedIds(rows, nextId, limits, now) == set id | id in rows && PastCaptureLimits(rows, nextId, limits, now, id);
  }

  lemma {:induction false} ListedCount(ids: seq<int>, listed: set<int>)
    requires forall i, j | 0 <= i < j < |ids| :: ids[i] < ids[j]
    requires forall k :: k in ids <==> k in listed
    ensures |ids| == |listed|
  {
    if ids == [] {
      assert forall k :: k !in listed;
      assert listed == {};
    } else {
      var init := ids[..|ids| - 1];
      var last := ids[|ids| - 1];
      assert ids == init + [last];
      assert last !in init;
      ListedCount(init, listed - {last});
    }
  }
}
