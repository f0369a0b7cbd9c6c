/** What a finished pass guarantees, whatever the transport answered and whichever store calls failed. What
    each guarantee rests on is the part of `Done`, the contract of `RunPass`, that it names. */
module PassGuarantees {
  import opened Wrappers
  import opened Utf8
  import opened QueueRows
  import opened OutboxStore
  import opened SyncPass
  import opened PassAnswers
  import opened PassProgress

  // ---- conservation ----

  /** Deleted and listed as acknowledged, once the transport accepted this very row and the ledger had it. */
  ghost predicate WasDelivered(r: Row, rows: Rows, ds: seq<Delivery>, ledger: Ledger, report: Report) {
    && r.id !in rows && r.cid in report.persistedAcknowledged && !ListedParked(r.cid, report)
    && AcceptedIn(ds, r) && RowKey(r) in ledger
  }

  ghost predicate ListedParked(cid: Text, report: Report) {
    exists reason :: ActivityFailure(cid, reason) in report.parked
  }

  /** The last answer asks for the row to be parked for `reason`: as such, for its captures, or with its device revoked. */
  ghost predicate AskedToPark(last: Option<Outcome>, reason: Text) {
    && last.Some? && (last.value.Park? || last.value.StripCaptures? || last.value.DeviceRevoked?)
    && reason == Bounded(last.value.reason)
  }

  /** Parked as it was queued, without its captures, for a reason the transport gave for it, and listed so. */
  ghost predicate WasParked(r: Row, rows: Rows, ds: seq<Delivery>, report: Report) {
    && r.id in rows && IsParkedAs(r, rows[r.id], Why(rows[r.id]))
    && AskedToPark(LastOf(ds, r.id), Why(rows[r.id]))
    && ActivityFailure(r.cid, Why(rows[r.id])) in report.parked && r.cid !in report.persistedAcknowledged
  }

  /** Still pending with the same identity, payload, signature and digests, and in neither list. */
  ghost predicate WaitsOn(r: Row, rows: Rows, report: Report) {
    StillQueued(r, rows) && r.cid !in report.persistedAcknowledged && !ListedParked(r.cid, report)
  }

  lemma {:induction false} AckedMembers(p: seq<Row>, rows: Rows, cid: Text)
    ensures cid in Acked(p, rows) <==> exists i :: 0 <= i < |p| && p[i].cid == cid && p[i].id !in rows
  {
    if p != [] {
      var init := p[..|p| - 1];
      AckedMembers(init, rows, cid);
      if i :| 0 <= i < |p| && p[i].cid == cid && p[i].id !in rows {
        if i < |init| {
          assert init[i].cid == cid && init[i].id !in rows;
        }
      }
      if i :| 0 <= i < |init| && init[i].cid == cid && init[i].id !in rows {
        assert p[i].cid == cid && p[i].id !in rows;
      }
    }
  }

  ghost predicate ListedFor(r: Row, rows: Rows, f: ActivityFailure) {
    r.cid == f.cid && ParkedAt(r, rows) && f.reason == Why(rows[r.id])
  }

  lemma {:induction false} ListedWasParked(p: seq<Row>, rows: Rows, f: ActivityFailure) returns (i: nat)
    requires f in ParkedOf(p, rows)
    ensures i < |p| && ListedFor(p[i], rows, f)
  {
    if f in ParkedOf(p[..|p| - 1], rows) {
      i := ListedWasParked(p[..|p| - 1], rows, f);
    } else {
      i := |p| - 1;
    }
  }

  lemma {:induction false} ParkedIsListed(p: seq<Row>, rows: Rows, f: ActivityFailure, i: nat)
    requires i < |p| && ListedFor(p[i], rows, f)
    ensures f in ParkedOf(p, rows)
  {
    if i < |p| - 1 {
      ParkedIsListed(p[..|p| - 1], rows, f, i);
    }
  }

  lemma {:induction false} ParkedMembers(p: seq<Row>, rows: Rows, f: ActivityFailure)
    ensures f in ParkedOf(p, rows) <==> exists i :: 0 <= i < |p| && ListedFor(p[i], rows, f)
  {
    if f in ParkedOf(p, rows) {
      var i := ListedWasParked(p, rows, f);
    } else if i :| 0 <= i < |p| && ListedFor(p[i], rows, f) {
      ParkedIsListed(p, rows, f, i);
    }
  }

  /** Queued rows of one scope have different activity ids. */
  lemma {:induction false} QueuedOnce(rows: Rows, scope: Scope, nextId: int, r: Row, s: Row)
    requires Keyed(rows) && UniqueIdentities(rows)
    requires r in PendingFrom(rows, scope, 1, nextId) && s in PendingFrom(rows, scope, 1, nextId) && r.cid == s.cid
    ensures r == s
  {
    PendingFromMembers(rows, scope, 1, nextId);
    UniqueTarget(rows, scope, r.cid, r.id, s.id);
  }

  /** The lists speak of exactly the rows they should. */
  lemma {:induction false} ListsMean(p: seq<Row>, n: nat, i: nat, rows: Rows)
    requires n <= |p| && i < |p|
    requires forall j | 0 <= j < |p| && p[j].cid == p[i].cid :: j == i
    ensures p[i].cid in Acked(p[..n], rows) <==> i < n && p[i].id !in rows
    ensures forall reason :: ActivityFailure(p[i].cid, reason) in ParkedOf(p[..n], rows)
                        <==> i < n && ParkedAt(p[i], rows) && reason == Why(rows[p[i].id])
  {
    var q := p[..n];
    AckedMembers(q, rows, p[i].cid);
    assert i < n ==> q[i] == p[i];
    forall reason
      ensures ActivityFailure(p[i].cid, reason) in ParkedOf(q, rows)
         <==> i < n && ParkedAt(p[i], rows) && reason == Why(rows[p[i].id])
    {
      ParkedMembers(q, rows, ActivityFailure(p[i].cid, reason));
    }
  }

  /** Conservation: every row queued at the start was delivered, parked or waits on, and no other row
      was touched. The three exclude each other: the row is gone, parked, or pending. */
  lemma {:induction false} PassConserves(scope: Scope, rows0: Rows, nextId: int, rows: Rows, p: seq<Row>, ds: seq<Delivery>,
                                         ledger: Ledger, report: Report, id: int)
    requires Keyed(rows0) && UniqueIdentities(rows0) && (forall k | k in rows0 :: 1 <= k < nextId)
    requires RowsAccounted(scope, rows0, nextId, rows, p, ds, ledger, report) && ReportTrue(scope, rows, p, report.attempted, ds, report)
    requires AnswersFollowed(p, report.attempted, rows, ds, report)
    ensures if QueuedAt(rows0, scope, id) then
              || WasDelivered(rows0[id], rows, ds, ledger, report)
              || WasParked(rows0[id], rows, ds, report)
              || WaitsOn(rows0[id], rows, report)
            else
              SameAt(rows0, rows, id)
  {
    var n := report.attempted;
    PendingFromMembers(rows0, scope, 1, nextId);
    if !QueuedAt(rows0, scope, id) {
      forall i | 0 <= i < n
        ensures p[i].id != id
      {
        assert p[i] in p;
      }
      assert SameAt(rows0, rows, id);
    } else {
      var r := rows0[id];
      assert r in p;
      var i :| 0 <= i < |p| && p[i] == r;
      OnlyOccurrence(scope, rows0, nextId, p, i);
      ListsMean(p, n, i, rows);
      TakenOrNot(scope, rows0, nextId, rows, p, ds, ledger, report, i);
      if ParkedAt(r, rows) {
        ParkedAsAnswered(p, n, rows, ds, report, i);
      }
    }
  }

  /** A taken row that is parked was asked to be, for that very reason. */
  lemma {:induction false} ParkedAsAnswered(p: seq<Row>, n: nat, rows: Rows, ds: seq<Delivery>, report: Report, i: nat)
    requires i < n <= |p| && AnswersFollowed(p, n, rows, ds, report) && ParkedAt(p[i], rows)
    ensures AskedToPark(LastOf(ds, p[i].id), Why(rows[p[i].id]))
  {
    if i < n - 1 {
      assert AnsweredTo(p[i], rows, ds);
    }
  }

  lemma {:induction false} OnlyOccurrence(scope: Scope, rows0: Rows, nextId: int, p: seq<Row>, i: nat)
    requires Keyed(rows0) && UniqueIdentities(rows0) && p == PendingFrom(rows0, scope, 1, nextId) && i < |p|
    ensures forall j | 0 <= j < |p| && (p[j].cid == p[i].cid || p[j].id == p[i].id) :: j == i
  {
    PendingFromAscending(rows0, scope, 1, nextId);
    forall j | 0 <= j < |p| && p[j].cid == p[i].cid
      ensures j == i
    {
      assert p[i] in p && p[j] in p;
      QueuedOnce(rows0, scope, nextId, p[i], p[j]);
    }
  }

  /** What became of the `i`-th queued row. */
  lemma {:induction false} TakenOrNot(scope: Scope, rows0: Rows, nextId: int, rows: Rows, p: seq<Row>, ds: seq<Delivery>,
                                      ledger: Ledger, report: Report, i: nat)
    requires Keyed(rows0) && RowsAccounted(scope, rows0, nextId, rows, p, ds, ledger, report) && i < |p|
    requires forall j | 0 <= j < |p| && p[j].id == p[i].id :: j == i
    ensures Settled(p[i], rows) || StillQueued(p[i], rows)
    ensures Settled(p[i], rows) ==> i < report.attempted
    ensures p[i].id !in rows ==> AcceptedIn(ds, p[i]) && RowKey(p[i]) in ledger
  {
    var n := report.attempted;
    assert p[i] in p;
    PendingFromMembers(rows0, scope, 1, nextId);
    if i >= n {
      assert !Among(p, n, p[i].id);
      assert SameAt(rows0, rows, p[i].id);
    } else {
      assert p[..n][i] == p[i];
    }
  }

  /** Every taken-up row is accounted for, but for the one whose turn ended the pass and that waits on. */
  lemma {:induction false} PassCounts(scope: Scope, rows0: Rows, nextId: int, rows: Rows, p: seq<Row>, ds: seq<Delivery>,
                                      ledger: Ledger, report: Report)
    requires RowsAccounted(scope, rows0, nextId, rows, p, ds, ledger, report) && ReportTrue(scope, rows, p, report.attempted, ds, report)
    ensures |report.persistedAcknowledged| + |report.parked| <= report.attempted
         <= |report.persistedAcknowledged| + |report.parked| + 1
    ensures report.attempted > |report.persistedAcknowledged| + |report.parked| ==> StillQueued(p[report.attempted - 1], rows)
    ensures report.drained ==> report.attempted == |report.persistedAcknowledged| + |report.parked|
  {
    CountsOf(p, report.attempted, rows);
  }

  lemma {:induction false} CountsOf(p: seq<Row>, n: nat, rows: Rows)
    requires n <= |p| && (forall i | 0 <= i < n - 1 :: Settled(p[i], rows))
    requires n > 0 ==> Settled(p[n - 1], rows) || StillQueued(p[n - 1], rows)
    ensures |Acked(p[..n], rows)| + |ParkedOf(p[..n], rows)| == if n > 0 && StillQueued(p[n - 1], rows) then n - 1 else n
  {
    if n > 0 && StillQueued(p[n - 1], rows) {
      AllButLastSettled(p, n - 1, rows);
    } else {
      AllSettled(p, n, rows);
    }
  }

  lemma {:induction false} AllSettled(p: seq<Row>, n: nat, rows: Rows)
    requires n <= |p| && (forall i | 0 <= i < n - 1 :: Settled(p[i], rows)) && (n > 0 ==> Settled(p[n - 1], rows))
    ensures |Acked(p[..n], rows)| + |ParkedOf(p[..n], rows)| == n
  {
    SettledCount(p[..n], rows);
  }

  lemma {:induction false} AllButLastSettled(p: seq<Row>, n: nat, rows: Rows)
    requires n < |p| && (forall i | 0 <= i < n :: Settled(p[i], rows)) && StillQueued(p[n], rows)
    ensures |Acked(p[..n + 1], rows)| + |ParkedOf(p[..n + 1], rows)| == n
  {
    AllSettled(p, n, rows);
    ListsExtend(p, n, rows);
    assert !ParkedAt(p[n], rows);
  }

  /** A drained pass took up every queued row and left the queue empty; one at its limit did not. */
  lemma {:induction false} DrainedMeansAll(scope: Scope, rows0: Rows, nextId: int, rows: Rows, p: seq<Row>, ds: seq<Delivery>,
                                           ledger: Ledger, config: Config, report: Report)
    requires Keyed(rows0) && Keyed(rows) && (forall id | id in rows :: 1 <= id < nextId)
    requires RowsAccounted(scope, rows0, nextId, rows, p, ds, ledger, report)
    requires ReportTrue(scope, rows, p, report.attempted, ds, report) && EndExplained(scope, nextId, rows, config, report)
    ensures report.drained <==> report.stopReason.None?
    ensures report.drained ==> report.attempted == |p| && forall id :: !QueuedAt(rows, scope, id)
    ensures report.stopReason.Some? && report.stopReason.value.MaxAttemptsReached? ==>
              report.attempted == config.maxAttempts && exists id :: QueuedAt(rows, scope, id)
  {
    EmptyQueue(rows, scope, nextId);
    if report.drained && report.attempted < |p| {
      NextInLine(scope, rows0, nextId, rows, p, report.attempted);
      assert false;
    }
  }

  lemma {:induction false} EmptyQueue(rows: Rows, scope: Scope, nextId: int)
    requires Keyed(rows) && forall id | id in rows :: 1 <= id < nextId
    ensures PendingFrom(rows, scope, 1, nextId) == [] <==> forall id :: !QueuedAt(rows, scope, id)
  {
    var q := PendingFrom(rows, scope, 1, nextId);
    PendingFromMembers(rows, scope, 1, nextId);
    forall id | QueuedAt(rows, scope, id)
      ensures rows[id] in q
    {
    }
    if q != [] {
      assert q[0] in q;
      assert QueuedAt(rows, scope, q[0].id);
    }
  }

  /** The first row not taken up is still queued. */
  lemma {:induction false} NextInLine(scope: Scope, rows0: Rows, nextId: int, rows: Rows, p: seq<Row>, n: nat)
    requires Keyed(rows0) && p == PendingFrom(rows0, scope, 1, nextId) && n < |p| && Untouched(rows0, rows, p, n)
    ensures QueuedAt(rows, scope, p[n].id)
  {
    PendingFromMembers(rows0, scope, 1, nextId);
    PendingFromAscending(rows0, scope, 1, nextId);
    assert p[n] in p;
    assert !Among(p, n, p[n].id);
    assert SameAt(rows0, rows, p[n].id);
  }

  lemma {:induction false} SettledCount(p: seq<Row>, rows: Rows)
    requires forall i | 0 <= i < |p| :: Settled(p[i], rows)
    ensures |Acked(p, rows)| + |ParkedOf(p, rows)| == |p|
  {
    if p != [] {
      assert Settled(p[|p| - 1], rows);
      SettledCount(p[..|p| - 1], rows);
    }
  }

  /** What the transport accepted is what was deleted, but for at most the last one, which is missing
      exactly when its deletion failed; and a row is accepted exactly when it is listed so. */
  lemma {:induction false} AcceptancesReported(scope: Scope, rows0: Rows, nextId: int, rows: Rows, p: seq<Row>, ds: seq<Delivery>,
                                               ledger: Ledger, report: Report, i: nat)
    requires Keyed(rows0) && UniqueIdentities(rows0)
    requires RowsAccounted(scope, rows0, nextId, rows, p, ds, ledger, report)
    requires ReportTrue(scope, rows, p, report.attempted, ds, report) && i < report.attempted
    ensures p[i].cid in report.transportAccepted <==> AcceptedIn(ds, p[i])
    ensures report.persistedAcknowledged <= report.transportAccepted
    ensures |report.transportAccepted| - |report.persistedAcknowledged|
         == if AckFailedIn(report) then 1 else 0
  {
    OnlyOccurrence(scope, rows0, nextId, p, i);
    AcceptancesOf(scope, p, report.attempted, rows, ds, ledger, report, i);
  }

  lemma {:induction false} AcceptancesOf(scope: Scope, p: seq<Row>, n: nat, rows: Rows, ds: seq<Delivery>, ledger: Ledger, report: Report, i: nat)
    requires i < n <= |p| && ReportTrue(scope, rows, p, n, ds, report)
    requires GoneAreDelivered(p[..n], rows, ds, ledger) && KeptAsAnswered(p, n, rows, ds, report.stopReason)
    requires forall j | 0 <= j < |p| && p[j].cid == p[i].cid :: j == i
    ensures p[i].cid in report.transportAccepted <==> AcceptedIn(ds, p[i])
    ensures report.persistedAcknowledged <= report.transportAccepted
    ensures |report.transportAccepted| - |report.persistedAcknowledged| == if AckFailedIn(report) then 1 else 0
  {
    AcceptedMeans(p, n, rows, ds, ledger, report.stopReason, i);
    ListedMeans(scope, p, n, rows, ds, report, i);
    AckedFirst(scope, p, n, rows, ds, report);
  }

  lemma {:induction false} AckedFirst(scope: Scope, p: seq<Row>, n: nat, rows: Rows, ds: seq<Delivery>, report: Report)
    requires n <= |p| && ReportTrue(scope, rows, p, n, ds, report)
    ensures report.persistedAcknowledged <= report.transportAccepted
    ensures |report.transportAccepted| - |report.persistedAcknowledged| == if AckFailedIn(report) then 1 else 0
  {
  }

  lemma {:induction false} AcceptedMeans(p: seq<Row>, n: nat, rows: Rows, ds: seq<Delivery>, ledger: Ledger, stopReason: Option<StopReason>, i: nat)
    requires i < n <= |p| && GoneAreDelivered(p[..n], rows, ds, ledger) && KeptAsAnswered(p, n, rows, ds, stopReason)
    ensures AcceptedIn(ds, p[i])
       <==> || p[i].id !in rows
            || (i == n - 1 && stopReason.Some? && stopReason.value.AcknowledgementPersistenceFailed?)
  {
    assert p[..n][i] == p[i];
    if stopReason.Some? && stopReason.value.AcknowledgementPersistenceFailed? {
      if i < n - 1 {
        assert p[..n - 1][i] == p[i];
        assert Unaccepted(p[i], rows, ds);
      }
    } else {
      assert Unaccepted(p[i], rows, ds);
    }
  }

  lemma {:induction false} ListedMeans(scope: Scope, p: seq<Row>, n: nat, rows: Rows, ds: seq<Delivery>, report: Report, i: nat)
    requires i < n <= |p| && ReportTrue(scope, rows, p, n, ds, report)
    requires forall j | 0 <= j < |p| && p[j].cid == p[i].cid :: j == i
    requires AckFailedIn(report) ==> report.stopReason.value.cid == p[n - 1].cid
    ensures p[i].cid in report.transportAccepted <==> p[i].id !in rows || (i == n - 1 && AckFailedIn(report))
  {
    ListsMean(p, n, i, rows);
  }

  ghost predicate AckFailedIn(report: Report) {
    report.stopReason.Some? && report.stopReason.value.AcknowledgementPersistenceFailed?
  }

  /** Of two rows that are gone the one queued first is listed first. */
  lemma {:induction false} AckedInOrder(p: seq<Row>, rows: Rows, i: nat, j: nat) returns (a: nat, b: nat)
    requires i < j < |p| && p[i].id !in rows && p[j].id !in rows
    ensures a < b < |Acked(p, rows)| && Acked(p, rows)[a] == p[i].cid && Acked(p, rows)[b] == p[j].cid
  {
    var init := p[..|p| - 1];
    if j < |init| {
      a, b := AckedInOrder(init, rows, i, j);
    } else {
      a := AckedAt(init, rows, i);
      b := |Acked(init, rows)|;
    }
  }

  lemma {:induction false} AckedAt(p: seq<Row>, rows: Rows, i: nat) returns (a: nat)
    requires i < |p| && p[i].id !in rows
    ensures a < |Acked(p, rows)| && Acked(p, rows)[a] == p[i].cid
  {
    var init := p[..|p| - 1];
    if i < |init| {
      a := AckedAt(init, rows, i);
    } else {
      a := |Acked(init, rows)|;
    }
  }

  /** Exactly the activities delivered a second time in a row are listed as stripped. */
  lemma {:induction false} StrippedWereResent(ds: seq<Delivery>, cid: Text)
    ensures cid in Resent(ds)
       <==> exists k :: 0 < k < |ds| && ds[k].entry.id == ds[k - 1].entry.id && ds[k].entry.cid == cid
  {
    if |ds| >= 2 {
      var init := ds[..|ds| - 1];
      StrippedWereResent(init, cid);
      if k :| 0 < k < |init| && init[k].entry.id == init[k - 1].entry.id && init[k].entry.cid == cid {
        assert ds[k].entry.id == ds[k - 1].entry.id && ds[k].entry.cid == cid;
      }
      if k :| 0 < k < |ds| && ds[k].entry.id == ds[k - 1].entry.id && ds[k].entry.cid == cid {
        if k < |init| {
          assert init[k].entry.id == init[k - 1].entry.id && init[k].entry.cid == cid;
        }
      }
    }
  }

  // ---- answers ----

  /** Only an acceptance by the row's own id, a refusal of the row or of its captures lets a pass go on; any
      other answer is the last one, and stops it at that row as that answer asks. */
  lemma {:induction false} PassFollowsAnswers(p: seq<Row>, n: nat, rows: Rows, ds: seq<Delivery>, report: Report)
    requires n <= |p| && DeliveredRows(p, n, rows, ds, report) && AnswersFollowed(p, n, rows, ds, report)
    ensures forall k | 0 <= k < |ds| - 1 :: LetsGoOn(ds[k])
    ensures ds != [] && !LetsGoOn(ds[|ds| - 1]) ==>
              && n > 0 && ds[|ds| - 1].entry.id == p[n - 1].id && report.stopReason.Some?
              && StoppedBy(ds[|ds| - 1].outcome, p[n - 1], rows, report.stopReason.value,
                           report.transientFailures, report.definitiveRejections)
  {
    if ds != [] && !LetsGoOn(ds[|ds| - 1]) {
      var taken := if Takes(p[..n], ds) then n else n - 1;
      TakesIds(p[..taken], ds, |ds| - 1);
      var i :| 0 <= i < taken && p[..taken][i].id == ds[|ds| - 1].entry.id && p[..taken][i].cid == ds[|ds| - 1].entry.cid;
      assert LastOf(ds, p[i].id) == Some(ds[|ds| - 1].outcome);
      assert forall j | 0 <= j < n - 1 :: AnsweredTo(p[j], rows, ds);
      assert i == n - 1;
    }
  }

  /** A row the server refused for good, or whose captures it refused again, is parked for that reason, or the
      pass stopped because that failed; one the server accepted by its id is gone, or the pass stopped. */
  lemma {:induction false} RowFollowsLastAnswer(p: seq<Row>, n: nat, rows: Rows, ds: seq<Delivery>, report: Report, i: nat)
    requires i < n <= |p| && AnswersFollowed(p, n, rows, ds, report) && LastOf(ds, p[i].id).Some?
    ensures match LastOf(ds, p[i].id).value
            case Park(reason) => ParkedFor(p[i], rows, Bounded(reason)) || (i == n - 1 && ParkStopped(p[i], rows, report))
            case StripCaptures(reason) =>
              || ParkedFor(p[i], rows, Bounded(reason))
              || (i == n - 1 && (ParkStopped(p[i], rows, report) || (NotCounted(p[i], rows) && report.stopReason.Some? && report.stopReason.value.StoreError?)))
            case Accepted(cid) =>
              cid == p[i].cid ==> p[i].id !in rows || (i == n - 1 && NotCounted(p[i], rows) && AckFailedIn(report))
            case _ => i == n - 1 && report.stopReason.Some?
  {
    if i < n - 1 {
      assert AnsweredTo(p[i], rows, ds);
    }
  }

  ghost predicate ParkStopped(r: Row, rows: Rows, report: Report) {
    NotCounted(r, rows) && report.stopReason.Some? && report.stopReason.value.ParkPersistenceFailed?
  }

  // ---- order ----

  /** `e` is `d` sent again after a strip: the same activity and digests without any image bytes. */
  ghost predicate Redelivers(d: Delivery, e: Delivery) {
    && d.outcome.StripCaptures? && d.entry.captureBytes > 0
    && e.entry == d.entry.(captureBytes := 0, captures := e.entry.captures)
    && |e.entry.captures| == |d.entry.captures|
    && forall i | 0 <= i < |e.entry.captures| :: e.entry.captures[i] == d.entry.captures[i].(jpeg := [])
  }

  /** Rows are delivered in queue order, a row again at most once, right after a strip. */
  ghost predicate InOrder(ds: seq<Delivery>) {
    && (forall k | 0 <= k < |ds| - 1 :: ds[k].entry.id < ds[k + 1].entry.id || Redelivers(ds[k], ds[k + 1]))
    && (forall k | 0 <= k < |ds| - 2 :: ds[k].entry.id < ds[k + 2].entry.id)
  }

  lemma {:induction false} GroupInOrder(r: Row, g: seq<Delivery>)
    requires Group(r, g)
    ensures InOrder(g)
  {
    if |g| == 2 {
      ShedInKindOrder(r.captures);
      assert Redelivers(g[0], g[1]);
    }
  }

  lemma ShedInKindOrder(m: Captures)
    ensures |InKindOrder(Shed(m))| == |InKindOrder(m)|
    ensures forall i | 0 <= i < |InKindOrder(m)| :: InKindOrder(Shed(m))[i] == InKindOrder(m)[i].(jpeg := [])
  {
  }

  lemma {:induction false} InOrderAppend(ds: seq<Delivery>, g: seq<Delivery>)
    requires InOrder(ds) && InOrder(g) && forall i, j | 0 <= i < |ds| && 0 <= j < |g| :: ds[i].entry.id < g[j].entry.id
    ensures InOrder(ds + g)
  {
    var all := ds + g;
    forall k | 0 <= k < |all| - 1
      ensures all[k].entry.id < all[k + 1].entry.id || Redelivers(all[k], all[k + 1])
    {
      if k >= |ds| {
        assert all[k] == g[k - |ds|] && all[k + 1] == g[k - |ds| + 1];
      }
    }
    forall k | 0 <= k < |all| - 2
      ensures all[k].entry.id < all[k + 2].entry.id
    {
      if k >= |ds| {
        assert all[k] == g[k - |ds|] && all[k + 2] == g[k - |ds| + 2];
      }
    }
  }

  lemma {:induction false} EarlierFirst(p: seq<Row>, ds: seq<Delivery>, r: Row, g: seq<Delivery>)
    requires Takes(p, ds) && Group(r, g) && forall i | 0 <= i < |p| :: p[i].id < r.id
    ensures forall i, j | 0 <= i < |ds| && 0 <= j < |g| :: ds[i].entry.id < g[j].entry.id
  {
    GroupIds(r, g);
    forall i | 0 <= i < |ds|
      ensures ds[i].entry.id < r.id
    {
      TakesIds(p, ds, i);
    }
  }

  lemma {:induction false} GroupFollows(p: seq<Row>, ds: seq<Delivery>, r: Row, g: seq<Delivery>)
    requires Takes(p, ds) && InOrder(ds) && Group(r, g) && forall i | 0 <= i < |p| :: p[i].id < r.id
    ensures InOrder(ds + g)
  {
    GroupInOrder(r, g);
    EarlierFirst(p, ds, r, g);
    InOrderAppend(ds, g);
  }

  lemma {:induction false} TakesInOrder(p: seq<Row>, ds: seq<Delivery>)
    requires Takes(p, ds) && Ascending(p)
    ensures InOrder(ds) && |p| <= |ds| <= 2 * |p|
  {
    if p != [] {
      var init, last := p[..|p| - 1], p[|p| - 1];
      var c :| SplitsAt(p, ds, c);
      TakesInOrder(init, ds[..c]);
      GroupFollows(init, ds[..c], last, ds[c..]);
      assert ds == ds[..c] + ds[c..];
    }
  }

  /** Every row taken is first sent as it was queued. */
  lemma {:induction false} TakesSends(p: seq<Row>, ds: seq<Delivery>, i: nat) returns (k: nat)
    requires Takes(p, ds) && i < |p|
    ensures k < |ds| && ds[k].entry == Sent(p[i])
  {
    var init, last := p[..|p| - 1], p[|p| - 1];
    var c :| SplitsAt(p, ds, c);
    if i < |init| {
      k := TakesSends(init, ds[..c], i);
    } else {
      k := c;
    }
  }

  /** The deliveries of the first `n` rows: in order, all of them, nothing else. */
  ghost predicate Sends(p: seq<Row>, n: nat, ds: seq<Delivery>)
    requires n <= |p|
  {
    && InOrder(ds) && n <= |ds| <= 2 * n
    && (forall i | 0 <= i < n :: SentIn(ds, p[i]))
    && (forall k | 0 <= k < |ds| :: Among(p, n, ds[k].entry.id))
  }

  ghost predicate SentIn(ds: seq<Delivery>, r: Row) {
    exists k :: 0 <= k < |ds| && ds[k].entry == Sent(r)
  }

  lemma {:induction false} TakesMeans(p: seq<Row>, n: nat, ds: seq<Delivery>)
    requires n <= |p| && Takes(p[..n], ds) && Ascending(p)
    ensures Sends(p, n, ds)
  {
    TakesInOrder(p[..n], ds);
    forall i | 0 <= i < n
      ensures SentIn(ds, p[i])
    {
      var k := TakesSends(p[..n], ds, i);
      assert ds[k].entry == Sent(p[i]);
    }
    forall k | 0 <= k < |ds|
      ensures Among(p, n, ds[k].entry.id)
    {
      TakesIds(p[..n], ds, k);
      var i :| 0 <= i < n && p[..n][i].id == ds[k].entry.id;
      assert p[i].id == ds[k].entry.id;
    }
  }

  /** Order and termination: a pass sends the first `attempted` queued rows in id order, each once or,
      after a strip, twice; only captures that could not be loaded keep the last one unsent. */
  lemma {:induction false} PassInOrder(scope: Scope, rows0: Rows, nextId: int, rows: Rows, p: seq<Row>, ds: seq<Delivery>,
                                       config: Config, report: Report)
    requires Keyed(rows0) && p == PendingFrom(rows0, scope, 1, nextId) && report.attempted <= |p|
    requires report.attempted <= config.maxAttempts && DeliveredRows(p, report.attempted, rows, ds, report)
    ensures |ds| <= 2 * report.attempted <= 2 * config.maxAttempts
    ensures || Sends(p, report.attempted, ds)
            || (&& report.attempted > 0 && Sends(p, report.attempted - 1, ds)
                && report.stopReason.Some? && report.stopReason.value.StoreError?)
  {
    PendingFromAscending(rows0, scope, 1, nextId);
    if Takes(p[..report.attempted], ds) {
      TakesMeans(p, report.attempted, ds);
    } else {
      TakesMeans(p, report.attempted - 1, ds);
    }
  }
}
