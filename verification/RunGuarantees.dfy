/** What holds over every run: what the server comes to hold of a row, why rows leave, and what a stored row still is. */
module RunGuarantees {
  import opened Wrappers
  import opened Utf8
  import opened Signing
  import opened QueueRows
  import opened Enqueueing
  import opened Limits
  import opened OutboxStore
  import opened SyncPass
  import opened SyncCoordinator
  import opened Delivering
  import opened OutboxRuns

  // ---- what the server holds of a row ----

  /** The activity is new to the server, and no upload of it is under way. */
  ghost predicate NewActivity(s: Site, key: LedgerKey) {
    key !in s.world.ledger && forall f | f in s.flights :: KeyOf(s.flights[f].entry) != key
  }

  /** `captures` are those of row `r` as it is sent, each with its bytes or without. */
  ghost predicate CapturesOf(r: Row, captures: seq<StoredCapture>) {
    var sent := Sent(r).captures;
    && |captures| == |sent|
    && forall i | 0 <= i < |sent| :: captures[i] == sent[i] || captures[i] == sent[i].(jpeg := [])
  }

  /** They are, or the row was parked before they were loaded. `now` is the row as it is now. */
  ghost predicate CapturesOrParked(r: Row, now: Row, captures: seq<StoredCapture>) {
    CapturesOf(r, captures) || (captures == [] && now.state.Parked?)
  }

  /** The server has the row's own payload, tag and captures. */
  ghost predicate HeldAs(r: Row, now: Row, item: LedgerItem) {
    item.payload == r.payload && item.signature == r.signature && CapturesOrParked(r, now, item.captures)
  }

  /** The upload is of row `r` and carries its captures. */
  ghost predicate FlightOf(r: Row, now: Row, fl: Flight) {
    && EntryIs(r, fl.entry)
    && (if fl.Peeked? then fl.entry.captures == [] else CapturesOrParked(r, now, fl.entry.captures))
  }

  /** While row `r` is stored, its activity is under way and in the ledger as this row has it, or not at all. */
  ghost predicate Faithful(r: Row, s: Site) {
    r.id in s.world.rows ==>
      && (forall f | f in s.flights && KeyOf(s.flights[f].entry) == RowKey(r) :: FlightOf(r, s.world.rows[r.id], s.flights[f]))
      && (RowKey(r) in s.world.ledger ==> HeldAs(r, s.world.rows[r.id], s.world.ledger[RowKey(r)]))
  }

  lemma ShedStaysCaptures(r: Row, m: Captures)
    requires SomeShed(r.captures, m) && r.format.V2?
    ensures CapturesOf(r, InKindOrder(m))
  {
  }

  lemma ClearedStaysCaptures(r: Row, now: Row, captures: seq<StoredCapture>)
    requires CapturesOrParked(r, now, captures)
    ensures CapturesOrParked(r, now, Cleared(captures))
  {
  }

  /** A row parked stays parked. */
  lemma StaysParked(r: Row, now: Row, now': Row, captures: seq<StoredCapture>)
    requires CapturesOrParked(r, now, captures) && RowEvolves(now, now')
    ensures CapturesOrParked(r, now', captures)
  {
  }

  /** What is loaded for a row queued as `r`. */
  lemma LoadsCaptures(r: Row, rows: Rows, e: Entry)
    requires r.state.Pending? && EntryIs(r, e) && e.captures == []
    requires r.id in rows && RowEvolves(r, rows[r.id])
    ensures CapturesOrParked(r, rows[r.id], Loaded(rows, e).captures)
  {
    var now := rows[r.id];
    if r.format.V2? && now.state.Pending? {
      ShedStaysCaptures(r, now.captures);
    } else if r.format.V2? {
      assert InKindOrder(now.captures) == [];
    } else {
      assert Sent(r).captures == [];
    }
  }

  /** One step of an upload of row `r`. */
  lemma FlightStaysOf(r: Row, s: Site, s': Site, f: nat)
    requires SiteOk(s) && FlightStep(s, s', f) && f in s'.flights && KeyOf(s'.flights[f].entry) == RowKey(r)
    requires r.state.Pending? && r.id in s.world.rows && RowEvolves(r, s.world.rows[r.id]) && Faithful(r, s)
    requires r.id in s'.world.rows && RowEvolves(s.world.rows[r.id], s'.world.rows[r.id])
    ensures FlightOf(r, s'.world.rows[r.id], s'.flights[f])
  {
    var (now, now') := (s.world.rows[r.id], s'.world.rows[r.id]);
    if f !in s.flights {
      var e := s'.flights[f].entry;
      assert Target(s.world.rows, r.scope, r.cid, e.id) && Target(s.world.rows, r.scope, r.cid, r.id);
    } else {
      var fl := s.flights[f];
      assert FlightOf(r, now, fl);
      match fl
      case Peeked(e) => LoadsCaptures(r, s.world.rows, e);
      case Ready(e, _) => StaysParked(r, now, now', e.captures);
      case Told(e, _, _) =>
        StaysParked(r, now, now', e.captures);
        ClearedStaysCaptures(r, now', e.captures);
    }
  }

  lemma FlightMovesOn(r: Row, now: Row, now': Row, fl: Flight)
    requires FlightOf(r, now, fl) && RowEvolves(now, now')
    ensures FlightOf(r, now', fl)
  {
    if !fl.Peeked? {
      StaysParked(r, now, now', fl.entry.captures);
    }
  }

  /** A queued row recorded as it is sent is held as it was queued. */
  lemma SentIsHeld(r: Row, now: Row)
    requires r.state.Pending? && RowEvolves(r, now) && now.state.Pending?
    ensures HeldAs(r, now, ItemOf(Sent(now)))
  {
    if r.format.V2? {
      ShedStaysCaptures(r, now.captures);
    }
  }

  /** What one step newly records under the key of the stored row `r`. */
  lemma RecordsAsQueued(cause: Cause, r: Row, s: Site, s': Site)
    requires Step(cause, s, s') && SiteOk(s) && r.state.Pending?
    requires r.id in s.world.rows && RowEvolves(r, s.world.rows[r.id]) && Faithful(r, s)
    requires RowKey(r) !in s.world.ledger && RowKey(r) in s'.world.ledger
    ensures s'.world.rows == s.world.rows && HeldAs(r, s.world.rows[r.id], s'.world.ledger[RowKey(r)])
  {
    var now := s.world.rows[r.id];
    if cause.ByFlight? {
      FlightLedger(s, s', cause.f);
      assert FlightOf(r, now, s.flights[cause.f]);
    } else {
      var scope := cause.scope;
      var id :| QueuedAt(s.world.rows, scope, id) && Records(s.world.ledger, s'.world.ledger, s.world.rows[id]);
      UniqueTarget(s.world.rows, r.scope, r.cid, id, r.id);
      SentIsHeld(r, now);
    }
  }

  lemma StepKeepsFaithful(cause: Cause, r: Row, s: Site, s': Site)
    requires Step(cause, s, s') && SiteOk(s) && r.state.Pending? && r.id < s.world.nextId
    requires r.id in s.world.rows ==> RowEvolves(r, s.world.rows[r.id])
    requires Faithful(r, s)
    ensures Faithful(r, s')
  {
    StepKeeps(cause, s, s');
    if r.id in s'.world.rows {
      var (now, now') := (s.world.rows[r.id], s'.world.rows[r.id]);
      forall f | f in s'.flights && KeyOf(s'.flights[f].entry) == RowKey(r)
        ensures FlightOf(r, now', s'.flights[f])
      {
        if cause == ByFlight(f) {
          FlightStaysOf(r, s, s', f);
        } else {
          OtherFlight(cause, s, s', f);
          FlightMovesOn(r, now, now', s.flights[f]);
        }
      }
      if RowKey(r) in s.world.ledger {
        StaysParked(r, now, now', s.world.ledger[RowKey(r)].captures);
      } else if RowKey(r) in s'.world.ledger {
        RecordsAsQueued(cause, r, s, s');
      }
    }
  }

  /** Row `r` was queued before, and the server's view of it is faithful. */
  ghost predicate Since(r: Row, s: Site) {
    SiteOk(s) && r.id < s.world.nextId && (r.id in s.world.rows ==> RowEvolves(r, s.world.rows[r.id])) && Faithful(r, s)
  }

  lemma StepKeepsSince(cause: Cause, r: Row, s: Site, s': Site)
    requires Step(cause, s, s') && Since(r, s) && r.state.Pending?
    ensures Since(r, s')
  {
    StepKeepsOk(cause, s, s');
    StepKeeps(cause, s, s');
    StepKeepsFaithful(cause, r, s, s');
    if r.id in s'.world.rows {
      RowEvolvesTransitive(r, s.world.rows[r.id], s'.world.rows[r.id]);
    }
  }

  lemma {:induction false} StaysFaithful(ss: seq<Site>, causes: seq<Cause>, i: nat, j: nat, r: Row)
    requires IsRun(ss, causes) && i <= j < |ss| && r.state.Pending? && Since(r, ss[i])
    ensures Since(r, ss[j])
    decreases j
  {
    if i < j {
      StaysFaithful(ss, causes, i, j - 1, r);
      assert StepAt(ss, causes, j - 1);
      StepKeepsSince(causes[j - 1], r, ss[j - 1], ss[j]);
    }
  }

  /** A new activity, once queued, is under way and recorded as this row has it or not at all, for as long as
      the row is stored. */
  lemma {:induction false} UploadsAreFaithful(ss: seq<Site>, causes: seq<Cause>, i: nat, j: nat, id: int)
    requires IsRun(ss, causes) && i <= j < |ss| && id in ss[i].world.rows && ss[i].world.rows[id].state.Pending?
    requires NewActivity(ss[i], RowKey(ss[i].world.rows[id]))
    ensures Faithful(ss[i].world.rows[id], ss[j])
  {
    RunKeeps(ss, causes, i, i);
    StaysFaithful(ss, causes, i, j, ss[i].world.rows[id]);
  }

  // ---- no row leaves undelivered, but for a limit or a purge ----

  /** The transport has accepted the activity of row `id`, which the ledger holds, and the row is deleted for it. */
  ghost predicate Acknowledges(cause: Cause, s: Site, id: int)
    requires id in s.world.rows
  {
    && RowKey(s.world.rows[id]) in s.world.ledger
    && (|| cause.ByPass?
        || (&& cause.ByFlight? && cause.f in s.flights && s.flights[cause.f].Told?
            && KeyOf(s.flights[cause.f].entry) == RowKey(s.world.rows[id])
            && s.flights[cause.f].outcome == Accepted(s.world.rows[id].cid)))
  }

  /** Exactly what a limit or purge drops leaves by it; parking a scope, queueing and crashing remove nothing. */
  lemma LeavesFor(cause: Cause, s: Site, s': Site, id: int)
    requires Step(cause, s, s') && SiteOk(s) && id in s.world.rows
    ensures id !in s'.world.rows ==> Drops(cause, s.world.rows, id) || Acknowledges(cause, s, id)
    ensures Drops(cause, s.world.rows, id) ==> id !in s'.world.rows
  {
    match cause
    case ByFlight(f) =>
      if id !in s'.world.rows {
        var k := FlightChangesOne(s, s', f);
        assert FlightOk(s.world, s.flights[f]);
      }
    case ByLimits(limits, now) => EnforcedKeepsRows(s.world.rows, s.world.nextId, limits, now);
    case _ =>
  }

  /** The step at which a row left. */
  lemma {:induction false} LeavesAt(ss: seq<Site>, causes: seq<Cause>, i: nat, j: nat, id: int) returns (k: nat)
    requires IsRun(ss, causes) && i <= j < |ss| && id in ss[i].world.rows && id !in ss[j].world.rows
    ensures i <= k < j && id in ss[k].world.rows && id !in ss[k + 1].world.rows
    decreases j
  {
    if id in ss[j - 1].world.rows {
      k := j - 1;
    } else {
      k := LeavesAt(ss, causes, i, j - 1, id);
    }
  }

  /** Delivery over whole runs: a row that left was too old or past the newest `maxPendingRows` when the limits
      were enforced, or met the purge it was dropped by, or its activity is in the ledger for good; and if the
      activity was new when it was queued, then the ledger has the row's own payload, tag and captures. */
  lemma {:induction false} RowsLeaveDelivered(ss: seq<Site>, causes: seq<Cause>, i: nat, j: nat, id: int) returns (k: nat)
    requires IsRun(ss, causes) && i <= j < |ss| && id in ss[i].world.rows && id !in ss[j].world.rows
    ensures i <= k < j && id in ss[k].world.rows && id !in ss[k + 1].world.rows
    ensures Drops(causes[k], ss[k].world.rows, id) || Acknowledges(causes[k], ss[k], id)
    ensures Acknowledges(causes[k], ss[k], id) ==> RowKey(ss[i].world.rows[id]) in ss[j].world.ledger
    ensures var r := ss[i].world.rows[id];
            Acknowledges(causes[k], ss[k], id) && r.state.Pending? && NewActivity(ss[i], RowKey(r)) ==>
              && HeldAs(r, ss[k].world.rows[id], ss[j].world.ledger[RowKey(r)])
              && (causes[k].ByFlight? ==> ss[k].flights[causes[k].f].entry.id == id)
  {
    k := LeavesAt(ss, causes, i, j, id);
    RunKeeps(ss, causes, i, i);
    RunKeeps(ss, causes, i, k);
    RunKeeps(ss, causes, k, j);
    assert StepAt(ss, causes, k);
    LeavesFor(causes[k], ss[k], ss[k + 1], id);
    var r := ss[i].world.rows[id];
    if r.state.Pending? && NewActivity(ss[i], RowKey(r)) {
      UploadsAreFaithful(ss, causes, i, k, id);
    }
  }

  // ---- what is only true of rows that are still there ----

  /** An upload of row `r` (the only one) is accepted, the row is purged, its activity is queued again as
      `again`, and only then the answer is carried out. */
  ghost function LateSites(r: Row, again: Row): seq<Site> {
    var (e, rows, ledger) := (Sent(r), map[1 := r], map[RowKey(r) := ItemOf(Sent(r))]);
    var told := map[0 := Told(e, Accepted(r.cid), false)];
    [Site(World(rows, 2, map[]), map[]),
     Site(World(rows, 2, map[]), map[0 := Peeked(EntryOf(r))]),
     Site(World(rows, 2, map[]), map[0 := Ready(e, false)]),
     Site(World(rows, 2, ledger), told),
     Site(World(map[], 2, ledger), told),
     Site(World(map[2 := again], 3, ledger), told),
     Site(World(map[], 3, ledger), map[])]
  }

  function LateCauses(r: Row): seq<Cause> {
    [ByFlight(0), ByFlight(0), ByFlight(0), ByPurge(r.scope.account, PurgePending), ByEnqueue, ByFlight(0)]
  }

  lemma LateUpload(r: Row, again: Row)
    requires r.id == 1 && r.state.Pending?
    ensures forall k | 0 <= k < 3 :: Step(LateCauses(r)[k], LateSites(r, again)[k], LateSites(r, again)[k + 1])
  {
    var ss := LateSites(r, again);
    assert Loaded(map[1 := r], EntryOf(r)) == Sent(r);
    assert FlightStep(ss[0], ss[1], 0);
    assert FlightStep(ss[1], ss[2], 0);
    assert FlightStep(ss[2], ss[3], 0);
  }

  lemma LateAnswer(r: Row, again: Row)
    requires r.id == 1 && again.id == 2 && r.state.Pending? && again.state.Pending?
    requires again.scope == r.scope && again.cid == r.cid
    ensures forall k | 3 <= k < 6 :: Step(LateCauses(r)[k], LateSites(r, again)[k], LateSites(r, again)[k + 1])
  {
    var ss := LateSites(r, again);
    assert AfterPurge(LateCauses(r)[3], map[1 := r]) == map[];
    assert CarriedOut(map[2 := again], map[], ss[5].flights[0], 2);
    assert FlightStep(ss[5], ss[6], 0);
  }

  /** So an upload's late answer deletes a row that was never sent, whatever its payload: "every deleted row was
      delivered" needs the upload's own row to be there, exactly as `AnswerMeetsSentRow` says. */
  lemma LateAnswerDeletesUnsentRow(r: Row, again: Row)
    requires r.id == 1 && again.id == 2 && r.state.Pending? && again.state.Pending?
    requires again.scope == r.scope && again.cid == r.cid && again.payload != r.payload
    ensures IsRun(LateSites(r, again), LateCauses(r))
    ensures var ss := LateSites(r, again);
            && ss[5].world.rows == map[2 := again] && ss[6].world.rows == map[]
            && ss[6].world.ledger[RowKey(again)].payload != again.payload
            && ss[5].flights[0].entry.id !in ss[5].world.rows
  {
    LateUpload(r, again);
    LateAnswer(r, again);
    OneRowIsSound(r);
  }

  lemma OneRowIsSound(r: Row)
    requires r.id == 1
    ensures Sound(World(map[1 := r], 2, map[]))
  {
  }

  /** A queued v2 row verifies under the key it was queued under as long as it is queued. */
  lemma {:induction false} StillVerifies(c: Crypto, key: Bytes, ss: seq<Site>, causes: seq<Cause>, i: nat, j: nat, id: int)
    requires Lawful(c) && IsRun(ss, causes) && i <= j < |ss| && id in ss[i].world.rows && id in ss[j].world.rows
    requires ValidRow(c, key, ss[i].world.rows[id]) && ss[i].world.rows[id].format.V2? && ss[j].world.rows[id].state.Pending?
    ensures Verifies(c, key, Sent(ss[j].world.rows[id]))
  {
    RunKeeps(ss, causes, i, i);
    RunKeeps(ss, causes, i, j);
    EvolvedVerifies(c, key, ss[i].world.rows[id], ss[j].world.rows[id]);
  }

  lemma EvolvedVerifies(c: Crypto, key: Bytes, r: Row, r': Row)
    requires Lawful(c) && ValidRow(c, key, r) && r.format.V2? && RowEvolves(r, r') && r'.state.Pending?
    ensures Verifies(c, key, Sent(r'))
  {
    assert DigestsOf(r'.captures) == DigestsOf(r.captures);
    LoadedDigestsAreStored(c, r'.captures);
    VerifiesOwnSignature(c, key, r.payload, DigestsOf(r.captures), r.payload, DigestsOf(r.captures));
  }

  /** So does every upload of it that is about to be sent, whatever the worker did meanwhile: delivery parks no
      untampered row for integrity while it is queued. */
  lemma {:induction false} UploadStillVerifies(c: Crypto, key: Bytes, ss: seq<Site>, causes: seq<Cause>, i: nat, j: nat, id: int, f: nat,
                                               notices: Notices, v1: V1Envelope)
    requires Lawful(c) && IsRun(ss, causes) && i <= j < |ss| && id in ss[i].world.rows && id in ss[j].world.rows
    requires var r := ss[i].world.rows[id];
             ValidRow(c, key, r) && r.format.V2? && r.state.Pending? && NewActivity(ss[i], RowKey(r))
    requires ss[j].world.rows[id].state.Pending? && f in ss[j].flights && ss[j].flights[f].Ready?
    requires KeyOf(ss[j].flights[f].entry) == RowKey(ss[i].world.rows[id])
    ensures Withheld(c, notices, Some(key), ss[j].flights[f].entry, true, v1).None?
  {
    var (r, e) := (ss[i].world.rows[id], ss[j].flights[f].entry);
    RunKeeps(ss, causes, i, i);
    UploadsAreFaithful(ss, causes, i, j, id);
    assert FlightOf(r, ss[j].world.rows[id], ss[j].flights[f]);
    SameDigests(c, r, e.captures);
    LoadedDigestsAreStored(c, r.captures);
    VerifiesOwnSignature(c, key, r.payload, DigestsOf(r.captures), r.payload, DigestsOf(r.captures));
  }

  /** Captures of a row, with or without their bytes, have its digests. */
  lemma SameDigests(c: Crypto, r: Row, captures: seq<StoredCapture>)
    requires CapturesOrParked(r, r, captures) && r.state.Pending? && r.format.V2? && Intact(c, r.captures)
    ensures LoadedDigests(captures) == LoadedDigests(InKindOrder(r.captures))
    ensures forall k | 0 <= k < |captures| :: BytesMatch(c, captures[k])
  {
    LoadedDigestsAreStored(c, r.captures);
    SameKindsSameDigests(captures, InKindOrder(r.captures));
  }

  lemma {:induction false} SameKindsSameDigests(a: seq<StoredCapture>, b: seq<StoredCapture>)
    requires |a| == |b| && forall i | 0 <= i < |a| :: a[i].kind == b[i].kind && a[i].sha256 == b[i].sha256
    ensures LoadedDigests(a) == LoadedDigests(b)
  {
    if a != [] {
      SameKindsSameDigests(a[..|a| - 1], b[..|b| - 1]);
    }
  }

  /** Queueing an activity again with the same key finds the row, however it has fared since. */
  lemma {:induction false} EnqueueAgain(c: Crypto, key: Bytes, ss: seq<Site>, causes: seq<Cause>, i: nat, j: nat,
                                        id: int, p: PendingActivity, scope: Scope, now: int, error: OutboxError)
    requires IsRun(ss, causes) && i <= j < |ss| && id in ss[i].world.rows && id in ss[j].world.rows
    requires ss[i].world.rows[id] == p.ToRow(c, key, id, scope, now)
    requires ValidScope(scope) && key != [] && p.Refusal().None?
    ensures Target(ss[j].world.rows, scope, p.cid, id) && SameActivity(c, ss[j].world.rows[id], p, key)
    ensures !ActivityRefused(c, ss[j].world.rows, scope, p, key, error)
  {
    RunKeeps(ss, causes, i, i);
    RunKeeps(ss, causes, i, j);
    if k :| Target(ss[j].world.rows, scope, p.cid, k) && !SameActivity(c, ss[j].world.rows[k], p, key) {
      UniqueTarget(ss[j].world.rows, scope, p.cid, id, k);
      assert false;
    }
  }

  /** The image queued for a kind. */
  function JpegOf(caps: seq<PendingCapture>, kind: CaptureKind): Option<Bytes> {
    if caps == [] then None
    else if caps[|caps| - 1].kind == kind then Some(caps[|caps| - 1].jpeg)
    else JpegOf(caps[..|caps| - 1], kind)
  }

  function DigestIn(d: CaptureDigests, kind: CaptureKind): Option<Bytes> {
    if kind.Screen? then d.screen else d.thumb
  }

  lemma {:induction false} DigestIsOfImage(c: Crypto, caps: seq<PendingCapture>, kind: CaptureKind)
    ensures DigestIn(PendingDigests(c, caps), kind)
         == if JpegOf(caps, kind).Some? then Some(c.sha256(JpegOf(caps, kind).value)) else None
  {
    if caps != [] {
      DigestIsOfImage(c, caps[..|caps| - 1], kind);
    }
  }

  /** Two activities the row would both pass for have the same payload and images, unless HMAC-SHA256 or
      SHA-256 collides on inputs one can point at; so a different one under the same id is refused. */
  lemma SameActivityIsSame(c: Crypto, key: Bytes, r: Row, p: PendingActivity, q: PendingActivity, kind: CaptureKind)
    requires Lawful(c) && NoNul(p.payload) && NoNul(q.payload)
    requires SameActivity(c, r, p, key) && SameActivity(c, r, q, key)
    ensures p.payload == q.payload
    ensures var a, b := JpegOf(p.captures, kind), JpegOf(q.captures, kind);
            || HmacCollision(c, key, MacInput(p.payload, PendingDigests(c, p.captures)), MacInput(q.payload, PendingDigests(c, q.captures)))
            || (&& (a.Some? <==> b.Some?)
                && (a.Some? ==> a == b || ShaCollision(c, a.value, b.value)))
  {
    var d, e := PendingDigests(c, p.captures), PendingDigests(c, q.captures);
    DigestsAreSized(c, p.captures);
    DigestsAreSized(c, q.captures);
    VerifiesOwnSignature(c, key, p.payload, d, q.payload, e);
    TamperedRowNeedsCollision(c, key, p.payload, d, q.payload, e);
    DigestIsOfImage(c, p.captures, kind);
    DigestIsOfImage(c, q.captures, kind);
  }

  lemma {:induction false} DigestsAreSized(c: Crypto, caps: seq<PendingCapture>)
    requires Lawful(c)
    ensures WellSized(PendingDigests(c, caps))
  {
    if caps != [] {
      DigestsAreSized(c, caps[..|caps| - 1]);
    }
  }
}
