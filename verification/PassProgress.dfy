/** What holds between the rows of a pass, and what a finished pass has done. */
module PassProgress {
  import opened Wrappers
  import opened Utf8
  import opened QueueRows
  import opened Limits
  import opened OutboxStore
  import opened SyncPass
  import opened PassAnswers

  // ---- what the store says became of rows that were queued ----

  /** The activity ids of those rows of `p` that are gone, in order. */
  ghost function Acked(p: seq<Row>, rows: Rows): seq<Text> {
    if p == [] then []
    else
      var last := p[|p| - 1];
      Acked(p[..|p| - 1], rows) + (if last.id !in rows then [last.cid] else [])
  }

  /** Those rows of `p` that are parked, with their reasons, in order. */
  ghost function ParkedOf(p: seq<Row>, rows: Rows): seq<ActivityFailure> {
    if p == [] then []
    else
      var last := p[|p| - 1];
      ParkedOf(p[..|p| - 1], rows)
      + (if last.id in rows && rows[last.id].state.Parked?
         then [ActivityFailure(last.cid, rows[last.id].state.reason)] else [])
  }

  lemma {:induction false} ListsFrame(p: seq<Row>, rows: Rows, rows': Rows)
    requires forall i | 0 <= i < |p| :: p[i].id in rows <==> p[i].id in rows'
    requires forall i | 0 <= i < |p| && p[i].id in rows :: rows'[p[i].id] == rows[p[i].id]
    ensures Acked(p, rows) == Acked(p, rows') && ParkedOf(p, rows) == ParkedOf(p, rows')
  {
    if p != [] {
      assert p[|p| - 1].id in rows <==> p[|p| - 1].id in rows';
      ListsFrame(p[..|p| - 1], rows, rows');
    }
  }

  /** The row was deleted, or parked as it was queued. */
  ghost predicate Settled(r: Row, rows: Rows) {
    r.id !in rows || IsParkedAs(r, rows[r.id], Why(rows[r.id]))
  }

  /** `id` is one of the first `n` rows of `p`. */
  ghost predicate Among(p: seq<Row>, n: nat, id: int)
    requires n <= |p|
  {
    exists i | 0 <= i < n :: p[i].id == id
  }

  ghost predicate SameAt(rows: Rows, rows': Rows, id: int) {
    (id in rows' <==> id in rows) && (id in rows ==> rows'[id] == rows[id])
  }

  /** No row but the first `n` of `p` changed. */
  ghost predicate Untouched(rows: Rows, rows': Rows, p: seq<Row>, n: nat)
    requires n <= |p|
  {
    forall id | !Among(p, n, id) :: SameAt(rows, rows', id)
  }

  lemma {:induction false} SameElsewhere(rows: Rows, rows': Rows, x: int)
    requires rows' - {x} == rows - {x}
    ensures forall id | id != x :: SameAt(rows, rows', id)
  {
    forall id | id != x
      ensures SameAt(rows, rows', id)
    {
      assert (id in rows' - {x}) == (id in rows - {x});
      assert id in rows ==> (rows' - {x})[id] == (rows - {x})[id];
    }
  }

  // ---- what was delivered ----

  /** `ds` are the deliveries of the rows of `p`, row by row. */
  ghost predicate Takes(p: seq<Row>, ds: seq<Delivery>)
    decreases |p|, 1
  {
    if p == [] then ds == [] else exists k :: SplitsAt(p, ds, k)
  }

  /** From `k` on, `ds` are the deliveries of the last row of `p`. */
  ghost predicate SplitsAt(p: seq<Row>, ds: seq<Delivery>, k: int)
    requires p != []
    decreases |p|, 0
  {
    0 <= k <= |ds| && Takes(p[..|p| - 1], ds[..k]) && Group(p[|p| - 1], ds[k..])
  }

  lemma {:induction false} TakesAppend(p: seq<Row>, ds: seq<Delivery>, r: Row, g: seq<Delivery>)
    requires Takes(p, ds) && Group(r, g)
    ensures Takes(p + [r], ds + g)
  {
    var all := ds + g;
    assert (p + [r])[..|p|] == p;
    assert all[..|ds|] == ds && all[|ds|..] == g;
    assert SplitsAt(p + [r], all, |ds|);
  }

  /** The activity ids delivered a second time in a row. */
  ghost function Resent(ds: seq<Delivery>): seq<Text> {
    if |ds| < 2 then []
    else
      Resent(ds[..|ds| - 1])
      + (if ds[|ds| - 1].entry.id == ds[|ds| - 2].entry.id then [ds[|ds| - 1].entry.cid] else [])
  }

  /** The transport answered that it accepted this very row. */
  ghost predicate AcceptedIn(ds: seq<Delivery>, r: Row) {
    exists k | 0 <= k < |ds| :: ds[k].entry.id == r.id && ds[k].outcome == Accepted(r.cid)
  }

  /** Rows gone from the store were accepted by their own id and are in the ledger. */
  ghost predicate GoneAreDelivered(p: seq<Row>, rows: Rows, ds: seq<Delivery>, ledger: Ledger) {
    forall i | 0 <= i < |p| && p[i].id !in rows :: AcceptedIn(ds, p[i]) && RowKey(p[i]) in ledger
  }

  /** No row that stayed was accepted by its own id. */
  ghost predicate KeptUnaccepted(p: seq<Row>, rows: Rows, ds: seq<Delivery>) {
    forall i | 0 <= i < |p| :: Unaccepted(p[i], rows, ds)
  }

  ghost predicate Unaccepted(r: Row, rows: Rows, ds: seq<Delivery>) {
    r.id in rows ==> !AcceptedIn(ds, r)
  }

  // ---- a pass under way ----

  /** The first `n` queued rows are settled, and the report says so. */
  ghost predicate SoFar(scope: Scope, rows0: Rows, nextId: int, rows: Rows, p: seq<Row>, n: nat, ds: seq<Delivery>, ledger: Ledger, report: Report) {
    && Keyed(rows0) && p == PendingFrom(rows0, scope, 1, nextId) && n <= |p|
    && Untouched(rows0, rows, p, n)
    && (forall i | 0 <= i < n :: Settled(p[i], rows))
    && PendingFrom(rows, scope, 1, nextId) == p[n..]
    && Takes(p[..n], ds)
    && GoneAreDelivered(p[..n], rows, ds, ledger)
    && KeptUnaccepted(p[..n], rows, ds)
    && Followed(p[..n], rows, ds)
    && report == Report(scope, n, Acked(p[..n], rows), Acked(p[..n], rows), [], [], ParkedOf(p[..n], rows), Resent(ds), None, false)
  }

  /** Before the first row. */
  lemma {:induction false} SoFarStart(scope: Scope, rows: Rows, nextId: int, ledger: Ledger)
    requires Keyed(rows)
    ensures SoFar(scope, rows, nextId, rows, PendingFrom(rows, scope, 1, nextId), 0, [], ledger,
                  Report(scope, 0, [], [], [], [], [], [], None, false))
  {
  }

  /** The row about to be taken up is the oldest queued row of the scope. */
  lemma {:induction false} NextRow(scope: Scope, rows0: Rows, nextId: int, rows: Rows, p: seq<Row>, n: nat, ds: seq<Delivery>, ledger: Ledger, report: Report)
    requires SoFar(scope, rows0, nextId, rows, p, n, ds, ledger, report) && n < |p| && Keyed(rows)
    ensures QueuedAt(rows, scope, p[n].id) && rows[p[n].id] == p[n]
    ensures p[n].id in rows0 && rows0[p[n].id] == p[n]
    ensures Ascending(p) && forall i | 0 <= i < n :: p[i].id != p[n].id
  {
    PendingFromMembers(rows0, scope, 1, nextId);
    PendingFromMembers(rows, scope, 1, nextId);
    PendingFromAscending(rows0, scope, 1, nextId);
    assert p[n] in p && p[n] in p[n..];
  }

  function IfThen<T>(c: bool, x: T): seq<T> {
    if c then [x] else []
  }

  /** The row was accepted and deleted, or parked, and the report lists it. */
  ghost predicate PassedOver(r: Row, rows: Rows, before: Report, after: Report) {
    var gone := r.id !in rows;
    && Settled(r, rows)
    && after == before.(
         transportAccepted := before.transportAccepted + IfThen(gone, r.cid),
         persistedAcknowledged := before.persistedAcknowledged + IfThen(gone, r.cid),
         parked := before.parked + if gone then [] else [ActivityFailure(r.cid, Why(rows[r.id]))])
  }

  /** The intent is to park the row for `reason` and go on. */
  predicate ParkIntent(intent: Intent, reason: Text) {
    (intent.ParkFor? && intent.reason == reason && intent.block.None?) || (intent.StripAndResend? && intent.reason == reason)
  }

  /** What it takes for the pass to go on is what the last answer asks for. */
  lemma {:induction false} GoesOnBy(o: Outcome, resent: bool, r: Row, rows: Rows)
    requires Settled(r, rows) && (r.id !in rows <==> o == Accepted(r.cid))
    requires r.id in rows ==> ParkIntent(IntentOf(o, r.cid, resent), Why(rows[r.id]))
    ensures SettledBy(o, r, rows)
  {
  }

  lemma {:induction false} ConcludedGoesOn(r: Row, rows: Rows, intent: Intent, before: Report, after: Report)
    requires Concluded(r, rows, intent, before, after, Continue)
    ensures PassedOver(r, rows, before, after) && (r.id !in rows <==> intent.Remove?)
    ensures r.id in rows ==> ParkIntent(intent, Why(rows[r.id]))
  {
    assert before.parked + [] == before.parked;
    assert before.transportAccepted + [] == before.transportAccepted;
    assert before.persistedAcknowledged + [] == before.persistedAcknowledged;
  }

  /** What it takes for the pass to go on after a row. */
  lemma {:induction false} ContinueMeans(r: Row, rows: Rows, rows': Rows, g: seq<Delivery>, before: Report, after: Report)
    requires TakenUp(r, rows, rows', g, before, after, Continue)
    ensures Group(r, g)
    ensures PassedOver(r, rows', before.(stripped := before.stripped + IfThen(|g| == 2, r.cid)), after)
    ensures r.id !in rows' <==> g[|g| - 1].outcome == Accepted(r.cid)
    ensures SettledBy(g[|g| - 1].outcome, r, rows')
  {
    var intent := IntentOf(g[|g| - 1].outcome, r.cid, |g| == 2);
    var sent := before.(stripped := before.stripped + IfThen(|g| == 2, r.cid));
    if |g| == 2 {
      ConcludedGoesOn(ShedRow(r), rows', intent, sent, after);
      assert Settled(ShedRow(r), rows') ==> Settled(r, rows');
    } else {
      assert sent == before;
      ConcludedGoesOn(r, rows', intent, before, after);
    }
    RemovesOnlyAccepted(g[|g| - 1].outcome, r.cid, |g| == 2);
    GoesOnBy(g[|g| - 1].outcome, |g| == 2, r, rows');
  }

  lemma {:induction false} RemovesOnlyAccepted(o: Outcome, cid: Text, resent: bool)
    ensures IntentOf(o, cid, resent).Remove? <==> o == Accepted(cid)
  {
  }

  /** Every delivered entry of a group is the row's. */
  lemma {:induction false} GroupIds(r: Row, g: seq<Delivery>)
    requires Group(r, g)
    ensures forall k | 0 <= k < |g| :: g[k].entry.id == r.id && g[k].entry.cid == r.cid && g[k].entry.scope == r.scope
  {
  }

  /** Deliveries of `p` name only rows of `p`. */
  lemma {:induction false} TakesIds(p: seq<Row>, ds: seq<Delivery>, k: nat)
    requires Takes(p, ds) && k < |ds|
    ensures exists i | 0 <= i < |p| :: p[i].id == ds[k].entry.id && p[i].cid == ds[k].entry.cid
  {
    var init, last := p[..|p| - 1], p[|p| - 1];
    var c :| SplitsAt(p, ds, c);
    if k < c {
      TakesIds(init, ds[..c], k);
      var i :| 0 <= i < |init| && init[i].id == ds[..c][k].entry.id && init[i].cid == ds[..c][k].entry.cid;
      assert p[i] == init[i];
    } else {
      GroupIds(last, ds[c..]);
      assert ds[k] == ds[c..][k - c];
    }
  }

  lemma {:induction false} ResentStep(ds: seq<Delivery>, d: Delivery)
    ensures Resent(ds + [d]) == Resent(ds) + IfThen(ds != [] && ds[|ds| - 1].entry.id == d.entry.id, d.entry.cid)
  {
    var longer := ds + [d];
    assert longer[..|longer| - 1] == ds;
    assert ds != [] ==> longer[|longer| - 2] == ds[|ds| - 1];
  }

  /** A group of two adds its row to the rows resent; a group of one adds none. */
  lemma {:induction false} ResentAppend(p: seq<Row>, ds: seq<Delivery>, r: Row, g: seq<Delivery>)
    requires Takes(p, ds) && Group(r, g) && forall i | 0 <= i < |p| :: p[i].id != r.id
    ensures Resent(ds + g) == Resent(ds) + IfThen(|g| == 2, r.cid)
  {
    FirstOfGroup(p, ds, r, g);
    ResentPair(ds, g, r.cid);
  }

  lemma {:induction false} ResentPair(ds: seq<Delivery>, g: seq<Delivery>, cid: Text)
    requires 1 <= |g| <= 2 && Resent(ds + [g[0]]) == Resent(ds)
    requires forall k | 0 <= k < |g| :: g[k].entry.id == g[0].entry.id && g[k].entry.cid == cid
    ensures Resent(ds + g) == Resent(ds) + IfThen(|g| == 2, cid)
  {
    var one := ds + [g[0]];
    if |g| == 2 {
      ResentStep(one, g[1]);
      assert g == [g[0], g[1]];
      assert ds + g == one + [g[1]];
    } else {
      assert g == [g[0]];
    }
  }

  lemma {:induction false} FirstOfGroup(p: seq<Row>, ds: seq<Delivery>, r: Row, g: seq<Delivery>)
    requires Takes(p, ds) && Group(r, g) && forall i | 0 <= i < |p| :: p[i].id != r.id
    ensures Resent(ds + [g[0]]) == Resent(ds)
    ensures forall k | 0 <= k < |g| :: g[k].entry.id == r.id && g[k].entry.cid == r.cid
  {
    GroupIds(r, g);
    if ds != [] {
      TakesIds(p, ds, |ds| - 1);
    }
    ResentStep(ds, g[0]);
  }

  /** Evidence of an acceptance is not lost when more is delivered. */
  lemma {:induction false} AcceptedStays(ds: seq<Delivery>, g: seq<Delivery>, r: Row)
    requires AcceptedIn(ds, r) || AcceptedIn(g, r)
    ensures AcceptedIn(ds + g, r)
  {
    if AcceptedIn(ds, r) {
      var k :| 0 <= k < |ds| && ds[k].entry.id == r.id && ds[k].outcome == Accepted(r.cid);
      assert (ds + g)[k] == ds[k];
    } else {
      var k :| 0 <= k < |g| && g[k].entry.id == r.id && g[k].outcome == Accepted(r.cid);
      assert (ds + g)[|ds| + k] == g[k];
    }
  }

  /** One more row settled: the store. */
  lemma {:induction false} StoreAfter(rows0: Rows, rows: Rows, rows': Rows, p: seq<Row>, n: nat)
    requires n < |p| && Untouched(rows0, rows, p, n) && rows' - {p[n].id} == rows - {p[n].id}
    requires forall i | 0 <= i < n :: p[i].id != p[n].id && Settled(p[i], rows)
    ensures Untouched(rows0, rows', p, n + 1)
    ensures forall i | 0 <= i < n :: Settled(p[i], rows')
    ensures Acked(p[..n], rows') == Acked(p[..n], rows) && ParkedOf(p[..n], rows') == ParkedOf(p[..n], rows)
  {
    SameElsewhere(rows, rows', p[n].id);
    forall id | !Among(p, n + 1, id)
      ensures SameAt(rows0, rows', id)
    {
      assert !Among(p, n, id) && p[n].id != id;
      assert SameAt(rows0, rows, id) && SameAt(rows, rows', id);
    }
    forall i | 0 <= i < n
      ensures Settled(p[i], rows')
      ensures SameAt(rows, rows', p[i].id)
    {
      assert SameAt(rows, rows', p[i].id);
    }
    ListsFrame(p[..n], rows, rows');
  }

  /** One more row taken up: what was delivered. */
  lemma {:induction false} DeliveriesAfter(p: seq<Row>, n: nat, ds: seq<Delivery>, g: seq<Delivery>)
    requires n < |p| && Takes(p[..n], ds) && Group(p[n], g) && forall i | 0 <= i < n :: p[i].id != p[n].id
    ensures Takes(p[..n + 1], ds + g)
    ensures Resent(ds + g) == Resent(ds) + IfThen(|g| == 2, p[n].cid)
  {
    assert p[..n + 1] == p[..n] + [p[n]];
    TakesAppend(p[..n], ds, p[n], g);
    ResentAppend(p[..n], ds, p[n], g);
  }

  /** One more row taken up: what was recorded. */
  lemma {:induction false} GoneAfter(rows: Rows, rows': Rows, p: seq<Row>, n: nat, ds: seq<Delivery>, g: seq<Delivery>, ledger: Ledger, ledger': Ledger)
    requires n < |p| && GoneAreDelivered(p[..n], rows, ds, ledger)
    requires rows' - {p[n].id} == rows - {p[n].id} && forall i | 0 <= i < n :: p[i].id != p[n].id
    requires ledger.Keys <= ledger'.Keys
    requires p[n].id !in rows' ==>
               && RowKey(p[n]) in ledger'
               && Group(p[n], g) && g[|g| - 1].outcome == Accepted(p[n].cid)
    ensures GoneAreDelivered(p[..n + 1], rows', ds + g, ledger')
  {
    SameElsewhere(rows, rows', p[n].id);
    forall i | 0 <= i < n + 1 && p[i].id !in rows'
      ensures AcceptedIn(ds + g, p[i]) && RowKey(p[i]) in ledger'
    {
      if i < n {
        assert SameAt(rows, rows', p[i].id);
        assert p[..n][i] == p[i];
      } else {
        GroupIds(p[n], g);
        assert AcceptedIn(g, p[n]);
      }
      AcceptedStays(ds, g, p[i]);
    }
  }

  /** One more row taken up: those of the earlier rows that stayed were not accepted. */
  lemma {:induction false} KeptAfter(rows: Rows, rows': Rows, p: seq<Row>, n: nat, ds: seq<Delivery>, g: seq<Delivery>)
    requires n < |p| && KeptUnaccepted(p[..n], rows, ds) && Group(p[n], g)
    requires rows' - {p[n].id} == rows - {p[n].id} && forall i | 0 <= i < n :: p[i].id != p[n].id
    ensures KeptUnaccepted(p[..n], rows', ds + g)
  {
    SameElsewhere(rows, rows', p[n].id);
    GroupIds(p[n], g);
    forall i | 0 <= i < n
      ensures Unaccepted(p[i], rows', ds + g)
    {
      assert SameAt(rows, rows', p[i].id) && Unaccepted(p[..n][i], rows, ds);
      if p[i].id in rows {
        NotAcceptedIn(ds, g, p[i]);
      }
    }
  }

  /** Nor was the row itself, if its last answer was another one. */
  lemma {:induction false} LastKept(p: seq<Row>, n: nat, rows: Rows, ds: seq<Delivery>, g: seq<Delivery>)
    requires n < |p| && KeptUnaccepted(p[..n], rows, ds + g) && Takes(p[..n], ds) && forall i | 0 <= i < n :: p[i].id != p[n].id
    requires p[n].id in rows ==> !AcceptedIn(g, p[n])
    ensures KeptUnaccepted(p[..n + 1], rows, ds + g)
  {
    assert p[..n + 1] == p[..n] + [p[n]];
    if p[n].id in rows {
      NewRowUnaccepted(p[..n], ds, p[n]);
      NotAcceptedIn(ds, g, p[n]);
    }
  }

  lemma {:induction false} GroupUnaccepted(r: Row, g: seq<Delivery>)
    requires Group(r, g)
    ensures AcceptedIn(g, r) <==> g[|g| - 1].outcome == Accepted(r.cid)
  {
    if AcceptedIn(g, r) {
      var k :| 0 <= k < |g| && g[k].entry.id == r.id && g[k].outcome == Accepted(r.cid);
    }
  }

  lemma {:induction false} NewRowUnaccepted(p: seq<Row>, ds: seq<Delivery>, r: Row)
    requires Takes(p, ds) && forall i | 0 <= i < |p| :: p[i].id != r.id
    ensures !AcceptedIn(ds, r)
  {
    forall k | 0 <= k < |ds|
      ensures ds[k].entry.id != r.id
    {
      TakesIds(p, ds, k);
    }
  }

  lemma {:induction false} NotAcceptedIn(ds: seq<Delivery>, g: seq<Delivery>, r: Row)
    requires !AcceptedIn(ds, r) && !AcceptedIn(g, r)
    ensures !AcceptedIn(ds + g, r)
  {
    forall k | 0 <= k < |ds + g|
      ensures !((ds + g)[k].entry.id == r.id && (ds + g)[k].outcome == Accepted(r.cid))
    {
      assert (ds + g)[k] == if k < |ds| then ds[k] else g[k - |ds|];
    }
  }

  /** One more row settled as it was answered. */
  lemma {:induction false} FollowedAfter(rows: Rows, rows': Rows, p: seq<Row>, n: nat, ds: seq<Delivery>, g: seq<Delivery>)
    requires n < |p| && Followed(p[..n], rows, ds) && Group(p[n], g)
    requires rows' - {p[n].id} == rows - {p[n].id} && forall i | 0 <= i < n :: p[i].id != p[n].id
    requires SettledBy(g[|g| - 1].outcome, p[n], rows')
    ensures Followed(p[..n + 1], rows', ds + g)
  {
    EarlierFollowed(rows, rows', p, n, ds, g);
    GroupIds(p[n], g);
    LastOfGroup(ds, p[n], g);
    assert p[..n + 1] == p[..n] + [p[n]];
    forall k | 0 <= k < |ds + g|
      ensures LetsGoOn((ds + g)[k])
    {
      assert (ds + g)[k] == if k < |ds| then ds[k] else g[k - |ds|];
    }
  }

  /** The earlier rows stay settled as they were answered. */
  lemma {:induction false} EarlierFollowed(rows: Rows, rows': Rows, p: seq<Row>, n: nat, ds: seq<Delivery>, g: seq<Delivery>)
    requires n < |p| && Followed(p[..n], rows, ds) && (g == [] || Group(p[n], g))
    requires rows' - {p[n].id} == rows - {p[n].id} && forall i | 0 <= i < n :: p[i].id != p[n].id
    ensures forall i | 0 <= i < n :: AnsweredTo(p[i], rows', ds + g)
  {
    SameElsewhere(rows, rows', p[n].id);
    if g != [] {
      GroupIds(p[n], g);
      LastOfGroup(ds, p[n], g);
    } else {
      assert ds + g == ds;
    }
    forall i | 0 <= i < n
      ensures AnsweredTo(p[i], rows', ds + g)
    {
      assert SameAt(rows, rows', p[i].id) && AnsweredTo(p[..n][i], rows, ds);
    }
  }

  /** One more row settled: the queue. */
  lemma {:induction false} QueueAfter(scope: Scope, nextId: int, rows: Rows, rows': Rows, p: seq<Row>, n: nat)
    requires n < |p| && Keyed(rows) && PendingFrom(rows, scope, 1, nextId) == p[n..]
    requires rows' - {p[n].id} == rows - {p[n].id} && Settled(p[n], rows')
    ensures PendingFrom(rows', scope, 1, nextId) == p[n + 1..]
  {
    SameElsewhere(rows, rows', p[n].id);
    forall id | id != p[n].id
      ensures (id in rows <==> id in rows') && (id in rows ==> rows'[id] == rows[id])
    {
      assert SameAt(rows, rows', id);
    }
    PendingFromDropFirst(rows, rows', scope, 1, nextId);
  }

  /** One more row settled: what was delivered and answered. */
  lemma {:induction false} ContinueAnswers(rows: Rows, rows': Rows, p: seq<Row>, n: nat, ds: seq<Delivery>, g: seq<Delivery>, ledger: Ledger, ledger': Ledger)
    requires n < |p| && Takes(p[..n], ds) && Group(p[n], g) && forall i | 0 <= i < n :: p[i].id != p[n].id
    requires rows' - {p[n].id} == rows - {p[n].id} && ledger.Keys <= ledger'.Keys
    requires GoneAreDelivered(p[..n], rows, ds, ledger) && KeptUnaccepted(p[..n], rows, ds) && Followed(p[..n], rows, ds)
    requires p[n].id !in rows' <==> g[|g| - 1].outcome == Accepted(p[n].cid)
    requires p[n].id !in rows' ==> RowKey(p[n]) in ledger'
    requires SettledBy(g[|g| - 1].outcome, p[n], rows')
    ensures Takes(p[..n + 1], ds + g) && Resent(ds + g) == Resent(ds) + IfThen(|g| == 2, p[n].cid)
    ensures GoneAreDelivered(p[..n + 1], rows', ds + g, ledger') && KeptUnaccepted(p[..n + 1], rows', ds + g)
    ensures Followed(p[..n + 1], rows', ds + g)
  {
    DeliveriesAfter(p, n, ds, g);
    GoneAfter(rows, rows', p, n, ds, g, ledger, ledger');
    KeptAfter(rows, rows', p, n, ds, g);
    GroupUnaccepted(p[n], g);
    LastKept(p, n, rows', ds, g);
    FollowedAfter(rows, rows', p, n, ds, g);
  }

  /** A row passed over, as its last answer asks, leaves one more row settled. */
  lemma {:induction false} PassedOverStep(scope: Scope, rows0: Rows, nextId: int, rows: Rows, p: seq<Row>, n: nat, ds: seq<Delivery>, ledger: Ledger, report: Report,
                     rows': Rows, g: seq<Delivery>, ledger': Ledger, report': Report)
    requires SoFar(scope, rows0, nextId, rows, p, n, ds, ledger, report) && n < |p| && Keyed(rows)
    requires Group(p[n], g) && rows' - {p[n].id} == rows - {p[n].id} && SettledBy(g[|g| - 1].outcome, p[n], rows')
    requires PassedOver(p[n], rows', report.(attempted := n + 1, stripped := report.stripped + IfThen(|g| == 2, p[n].cid)), report')
    requires p[n].id !in rows' <==> g[|g| - 1].outcome == Accepted(p[n].cid)
    requires ledger.Keys <= ledger'.Keys && (p[n].id !in rows' ==> RowKey(p[n]) in ledger')
    ensures SoFar(scope, rows0, nextId, rows', p, n + 1, ds + g, ledger', report')
  {
    NextRow(scope, rows0, nextId, rows, p, n, ds, ledger, report);
    StoreAfter(rows0, rows, rows', p, n);
    ContinueAnswers(rows, rows', p, n, ds, g, ledger, ledger');
    assert p[..n + 1][..n] == p[..n];
    QueueAfter(scope, nextId, rows, rows', p, n);
  }

  /** A row that lets the pass go on leaves one more row settled. */
  lemma {:induction false} ContinueStep(scope: Scope, rows0: Rows, nextId: int, rows: Rows, p: seq<Row>, n: nat, ds: seq<Delivery>, ledger: Ledger, report: Report,
                     rows': Rows, g: seq<Delivery>, ledger': Ledger, report': Report)
    requires SoFar(scope, rows0, nextId, rows, p, n, ds, ledger, report) && n < |p| && Keyed(rows)
    requires TakenUp(p[n], rows, rows', g, report.(attempted := n + 1), report', Continue)
    requires ledger.Keys <= ledger'.Keys && (p[n].id !in rows' ==> RowKey(p[n]) in ledger')
    ensures SoFar(scope, rows0, nextId, rows', p, n + 1, ds + g, ledger', report')
  {
    ContinueMeans(p[n], rows, rows', g, report.(attempted := n + 1), report');
    PassedOverStep(scope, rows0, nextId, rows, p, n, ds, ledger, report, rows', g, ledger', report');
  }

  // ---- a finished pass ----

  /** The row accepted by the transport whose deletion failed. */
  function AckFailed(stop: StopReason): seq<Text> {
    if stop.AcknowledgementPersistenceFailed? then [stop.cid] else []
  }

  /** The row whose failed attempt was recorded. */
  function Recorded(stop: StopReason): seq<ActivityFailure> {
    if stop.StoppedTransient? || stop.StoppedRetryLater? then [ActivityFailure(stop.cid, stop.reason)] else []
  }

  function RejectedRow(stop: StopReason): seq<ActivityFailure> {
    if stop.DefinitiveRejection? then [ActivityFailure(stop.cid, stop.reason)] else []
  }

  /** The stop reason is the one the last outcome of row `r` calls for, and the row is as it says. */
  ghost predicate StopFor(stop: StopReason, r: Row, rows: Rows, intent: Intent) {
    match intent
    case Remove => stop.AcknowledgementPersistenceFailed? && stop.cid == r.cid && NotCounted(r, rows)
    case ParkFor(reason, block) =>
      || (&& block.Some? && stop == ScopeBlocked(r.cid, reason, block.value)
          && r.id in rows && IsParkedAs(r, rows[r.id], reason))
      || (stop.ParkPersistenceFailed? && stop.cid == r.cid && stop.reason == reason && NotCounted(r, rows))
    case Record(reason, recorded) =>
      || (&& stop == recorded && StillQueued(r, rows)
          && rows[r.id].retryCount == r.retryCount + 1 && rows[r.id].lastError == Some(reason))
      || (stop.RetryMetadataPersistenceFailed? && stop.cid == r.cid && stop.reason == reason && NotCounted(r, rows))
    case Keep(_, kept) => stop == kept && NotCounted(r, rows)
    case StripAndResend(reason) =>
      stop.ParkPersistenceFailed? && stop.cid == r.cid && stop.reason == reason && NotCounted(r, rows)
  }

  /** The report after the pass stopped at row `r`. */
  ghost predicate StoppedReport(r: Row, rows: Rows, before: Report, after: Report, stop: StopReason) {
    && !stop.MaxAttemptsReached? && !stop.DeadlineReached?
    && after == before.(
         transportAccepted := before.transportAccepted + AckFailed(stop),
         transientFailures := before.transientFailures + Recorded(stop),
         definitiveRejections := before.definitiveRejections + RejectedRow(stop),
         parked := before.parked + (if ParkedAt(r, rows) then [ActivityFailure(r.cid, Why(rows[r.id]))] else []),
         stopReason := Some(stop))
  }

  ghost predicate ParkedAt(r: Row, rows: Rows) {
    r.id in rows && rows[r.id].state.Parked?
  }

  /** What stopping at row `r`, as last sent, means. */
  ghost predicate StoppedAt(r: Row, rows: Rows, before: Report, after: Report, intent: Intent) {
    && r.id in rows
    && (StillQueued(r, rows) || (Settled(r, rows) && ParkedAt(r, rows)))
    && after.stopReason.Some?
    && StoppedReport(r, rows, before, after, after.stopReason.value)
    && ((after.stopReason.value.StoreError? && intent.StripAndResend? && NotCounted(r, rows)) || StopFor(after.stopReason.value, r, rows, intent))
  }

  lemma {:induction false} StoppedAtPark(r: Row, rows: Rows, reason: Text, block: Option<ScopeBlock>, before: Report, after: Report, intent: Intent)
    requires ParkConcluded(r, rows, reason, block, before, after, Stop) && r.state.Pending?
    requires intent == ParkFor(reason, block) || (intent == StripAndResend(reason) && block.None?)
    ensures StoppedAt(r, rows, before, after, intent)
  {
    if r.id in rows && rows[r.id] == r {
      assert StillQueued(r, rows);
    } else {
      assert Settled(r, rows) && ParkedAt(r, rows);
    }
  }

  lemma {:induction false} StoppedAtOther(r: Row, rows: Rows, before: Report, after: Report, intent: Intent)
    requires Concluded(r, rows, intent, before, after, Stop) && r.state.Pending?
    requires match intent
             case Keep(rejections, stop) =>
               && rejections == RejectedRow(stop) && AckFailed(stop) == [] && Recorded(stop) == []
               && !stop.MaxAttemptsReached? && !stop.DeadlineReached?
             case Record(reason, stop) =>
               && Recorded(stop) == [ActivityFailure(r.cid, reason)] && AckFailed(stop) == [] && RejectedRow(stop) == []
               && !stop.MaxAttemptsReached? && !stop.DeadlineReached?
             case _ => true
    ensures StoppedAt(r, rows, before, after, intent)
  {
    match intent
    case Remove =>
      assert StillQueued(r, rows);
    case ParkFor(reason, block) =>
      StoppedAtPark(r, rows, reason, block, before, after, intent);
    case Record(reason, stop) =>
      assert StillQueued(r, rows);
    case Keep(_, stop) =>
      assert StillQueued(r, rows);
    case StripAndResend(reason) =>
      if ParkConcluded(r, rows, reason, None, before, after, Stop) {
        StoppedAtPark(r, rows, reason, None, before, after, intent);
      } else {
        assert StillQueued(r, rows);
      }
  }

  lemma {:induction false} IntentIsConsistent(o: Outcome, cid: Text, resent: bool)
    ensures match IntentOf(o, cid, resent)
            case Keep(rejections, stop) =>
              && rejections == RejectedRow(stop) && AckFailed(stop) == [] && Recorded(stop) == []
              && !stop.MaxAttemptsReached? && !stop.DeadlineReached?
            case Record(reason, stop) =>
              && Recorded(stop) == [ActivityFailure(cid, reason)] && AckFailed(stop) == [] && RejectedRow(stop) == []
              && !stop.MaxAttemptsReached? && !stop.DeadlineReached?
            case _ => true
  {
  }

  /** Shedding before stopping changes nothing of what stopping means. */
  lemma {:induction false} StoppedAfterShed(r: Row, rows: Rows, before: Report, after: Report, intent: Intent)
    requires StoppedAt(ShedRow(r), rows, before, after, intent) && r.state.Pending?
    ensures StoppedAt(r, rows, before, after, intent)
  {
    var shed := ShedRow(r);
    assert StillQueued(shed, rows) ==> StillQueued(r, rows);
    assert NotCounted(shed, rows) ==> NotCounted(r, rows);
    assert Settled(shed, rows) ==> Settled(r, rows);
  }

  /** A row that stops the pass: it waits on or was parked for a revoked device, and the report says why. */
  lemma {:induction false} StopMeans(r: Row, rows: Rows, rows': Rows, g: seq<Delivery>, before: Report, after: Report)
    requires TakenUp(r, rows, rows', g, before, after, Stop)
    requires r.id in rows && rows[r.id] == r && r.state.Pending?
    ensures g == [] ==>
              && rows' == rows && r.format.V2? && after.stopReason.Some? && after.stopReason.value.StoreError?
              && after == before.(stopReason := after.stopReason)
    ensures g != [] ==>
              && Group(r, g)
              && StoppedAt(r, rows', before.(stripped := before.stripped + IfThen(|g| == 2, r.cid)), after,
                           IntentOf(g[|g| - 1].outcome, r.cid, |g| == 2))
  {
    if g != [] {
      var intent := IntentOf(g[|g| - 1].outcome, r.cid, |g| == 2);
      var sent := before.(stripped := before.stripped + IfThen(|g| == 2, r.cid));
      IntentIsConsistent(g[|g| - 1].outcome, r.cid, |g| == 2);
      if |g| == 2 {
        StoppedAtOther(ShedRow(r), rows', sent, after, intent);
        StoppedAfterShed(r, rows', sent, after, intent);
      } else {
        assert sent == before;
        StoppedAtOther(r, rows', before, after, intent);
      }
    }
  }

  /** The deliveries are those of the first `n` rows; only captures that failed to load keep the last one unsent. */
  ghost predicate DeliveredRows(p: seq<Row>, n: nat, rows: Rows, ds: seq<Delivery>, report: Report)
    requires n <= |p|
  {
    || Takes(p[..n], ds)
    || (&& n > 0 && Takes(p[..n - 1], ds)
        && report.stopReason.Some? && report.stopReason.value.StoreError?
        && p[n - 1].format.V2? && p[n - 1].id in rows && rows[p[n - 1].id] == p[n - 1])
  }

  /** A limit was reached: which, and that it was. Every other stop reason is some answer's. */
  ghost predicate StopExplained(scope: Scope, nextId: int, rows: Rows, n: nat, config: Config, stop: StopReason) {
    match stop
    case MaxAttemptsReached(limit) =>
      limit == n == config.maxAttempts && PendingFrom(rows, scope, 1, nextId) != []
    case DeadlineReached => config.deadline.Some?
    case _ => true
  }

  /** The report lists exactly what the store and the deliveries show. */
  ghost predicate ReportTrue(scope: Scope, rows: Rows, p: seq<Row>, n: nat, ds: seq<Delivery>, report: Report)
    requires n <= |p|
  {
    && report.scope == scope && report.attempted == n
    && report.persistedAcknowledged == Acked(p[..n], rows)
    && report.parked == ParkedOf(p[..n], rows)
    && report.stripped == Resent(ds)
    && (report.drained <==> report.stopReason.None?)
    && match report.stopReason
       case None =>
         && report.transportAccepted == report.persistedAcknowledged
         && report.transientFailures == [] && report.definitiveRejections == []
       case Some(stop) =>
         && report.transportAccepted == report.persistedAcknowledged + AckFailed(stop)
         && report.transientFailures == Recorded(stop) && report.definitiveRejections == RejectedRow(stop)
  }

  /** Only a row whose acknowledgement could not be saved was accepted and kept. */
  ghost predicate KeptAsAnswered(p: seq<Row>, n: nat, rows: Rows, ds: seq<Delivery>, stopReason: Option<StopReason>)
    requires n <= |p|
  {
    if stopReason.Some? && stopReason.value.AcknowledgementPersistenceFailed? then
      n > 0 && KeptUnaccepted(p[..n - 1], rows, ds) && AcceptedIn(ds, p[n - 1]) && stopReason.value.cid == p[n - 1].cid
    else
      KeptUnaccepted(p[..n], rows, ds)
  }

  /** What became of the rows: the first `attempted` queued ones were settled as the transport answered, but
      for the last, which may wait on, and no other row was touched. */
  ghost predicate RowsAccounted(scope: Scope, rows0: Rows, nextId: int, rows: Rows, p: seq<Row>, ds: seq<Delivery>, ledger: Ledger, report: Report) {
    var n := report.attempted;
    && p == PendingFrom(rows0, scope, 1, nextId) && n <= |p|
    && Untouched(rows0, rows, p, n)
    && (forall i | 0 <= i < n - 1 :: Settled(p[i], rows))
    && (n > 0 ==> Settled(p[n - 1], rows) || (StillQueued(p[n - 1], rows) && report.stopReason.Some?))
    && GoneAreDelivered(p[..n], rows, ds, ledger)
    && KeptAsAnswered(p, n, rows, ds, report.stopReason)
  }

  /** Why the pass ended. */
  ghost predicate EndExplained(scope: Scope, nextId: int, rows: Rows, config: Config, report: Report) {
    && report.attempted <= config.maxAttempts
    && (report.drained ==> PendingFrom(rows, scope, 1, nextId) == [])
    && (report.stopReason.Some? ==> StopExplained(scope, nextId, rows, report.attempted, config, report.stopReason.value))
  }

  /** What a pass that returns a report has done to the store, what it sent, and what the report says of it. */
  ghost predicate Done(scope: Scope, rows0: Rows, nextId: int, rows: Rows, p: seq<Row>, ds: seq<Delivery>, ledger: Ledger, config: Config, report: Report) {
    && RowsAccounted(scope, rows0, nextId, rows, p, ds, ledger, report)
    && DeliveredRows(p, report.attempted, rows, ds, report)
    && AnswersFollowed(p, report.attempted, rows, ds, report)
    && ReportTrue(scope, rows, p, report.attempted, ds, report)
    && EndExplained(scope, nextId, rows, config, report)
  }

  /** Between two rows the pass may end: drained, at a limit, at its deadline or with a store error. */
  lemma {:induction false} FinishStep(scope: Scope, rows0: Rows, nextId: int, rows: Rows, p: seq<Row>, n: nat, ds: seq<Delivery>, ledger: Ledger, config: Config, report: Report, final: Report)
    requires SoFar(scope, rows0, nextId, rows, p, n, ds, ledger, report) && n <= config.maxAttempts
    requires || (final == report.(drained := true) && PendingFrom(rows, scope, 1, nextId) == [])
             || (&& final == report.(stopReason := final.stopReason) && final.stopReason.Some?
                 && var stop := final.stopReason.value;
                    || stop.StoreError?
                    || (stop.DeadlineReached? && config.deadline.Some?)
                    || (stop == MaxAttemptsReached(config.maxAttempts) && n == config.maxAttempts
                        && PendingFrom(rows, scope, 1, nextId) != []))
    ensures Done(scope, rows0, nextId, rows, p, ds, ledger, config, final)
  {
    FinishFollowed(p, n, rows, ds, final);
    FinishRows(scope, rows0, nextId, rows, p, n, ds, ledger, final);
  }

  lemma {:induction false} FinishFollowed(p: seq<Row>, n: nat, rows: Rows, ds: seq<Delivery>, final: Report)
    requires n <= |p| && Followed(p[..n], rows, ds) && BetweenRows(final.stopReason)
    requires final.transientFailures == [] && final.definitiveRejections == []
    ensures AnswersFollowed(p, n, rows, ds, final)
  {
    forall i | 0 <= i < n
      ensures AnsweredTo(p[i], rows, ds)
    {
      assert AnsweredTo(p[..n][i], rows, ds);
    }
  }

  lemma {:induction false} FinishRows(scope: Scope, rows0: Rows, nextId: int, rows: Rows, p: seq<Row>, n: nat, ds: seq<Delivery>, ledger: Ledger, final: Report)
    requires p == PendingFrom(rows0, scope, 1, nextId) && n <= |p| && Untouched(rows0, rows, p, n)
    requires forall i | 0 <= i < n :: Settled(p[i], rows)
    requires GoneAreDelivered(p[..n], rows, ds, ledger) && KeptUnaccepted(p[..n], rows, ds)
    requires final.attempted == n && BetweenRows(final.stopReason)
    ensures RowsAccounted(scope, rows0, nextId, rows, p, ds, ledger, final)
  {
  }

  /** What the report says once a row stopped the pass. */
  lemma {:induction false} StopReport(scope: Scope, rows: Rows, rows': Rows, p: seq<Row>, n: nat, ds: seq<Delivery>, g: seq<Delivery>, report: Report, report': Report)
    requires n < |p| && rows' - {p[n].id} == rows - {p[n].id} && p[n].id in rows'
    requires Acked(p[..n], rows') == Acked(p[..n], rows) && ParkedOf(p[..n], rows') == ParkedOf(p[..n], rows)
    requires report == Report(scope, n, Acked(p[..n], rows), Acked(p[..n], rows), [], [], ParkedOf(p[..n], rows), Resent(ds), None, false)
    requires if g == [] then
               && !ParkedAt(p[n], rows') && ds + g == ds
               && exists e :: report' == report.(attempted := n + 1, stopReason := Some(StoreError(e)))
             else
               && Resent(ds + g) == Resent(ds) + IfThen(|g| == 2, p[n].cid)
               && report'.stopReason.Some?
               && StoppedReport(p[n], rows', report.(attempted := n + 1, stripped := report.stripped + IfThen(|g| == 2, p[n].cid)),
                                report', report'.stopReason.value)
    ensures ReportTrue(scope, rows', p, n + 1, ds + g, report')
  {
    ListsExtend(p, n, rows');
    var stop := report'.stopReason.value;
    assert report'.persistedAcknowledged == Acked(p[..n + 1], rows');
    assert report'.parked == ParkedOf(p[..n + 1], rows');
    assert report'.transportAccepted == report'.persistedAcknowledged + AckFailed(stop);
    assert report'.transientFailures == Recorded(stop) && report'.definitiveRejections == RejectedRow(stop);
    assert report'.stripped == Resent(ds + g);
  }

  lemma {:induction false} ListsExtend(p: seq<Row>, n: nat, rows: Rows)
    requires n < |p|
    ensures Acked(p[..n + 1], rows) == Acked(p[..n], rows) + IfThen(p[n].id !in rows, p[n].cid)
    ensures ParkedOf(p[..n + 1], rows)
         == ParkedOf(p[..n], rows) + (if ParkedAt(p[n], rows) then [ActivityFailure(p[n].cid, Why(rows[p[n].id]))] else [])
  {
    assert p[..n + 1][..n] == p[..n];
  }

  /** A row whose captures could not be loaded stops the pass. */
  lemma {:induction false} StopUnsent(scope: Scope, rows0: Rows, nextId: int, rows: Rows, p: seq<Row>, n: nat, ds: seq<Delivery>, ledger: Ledger, config: Config, report: Report,
                     ledger': Ledger, report': Report)
    requires SoFar(scope, rows0, nextId, rows, p, n, ds, ledger, report) && n < |p| && n < config.maxAttempts && Keyed(rows)
    requires TakenUp(p[n], rows, rows, [], report.(attempted := n + 1), report', Stop)
    requires ledger.Keys <= ledger'.Keys
    ensures Done(scope, rows0, nextId, rows, p, ds, ledger', config, report')
  {
    NextRow(scope, rows0, nextId, rows, p, n, ds, ledger, report);
    StopMeans(p[n], rows, rows, [], report.(attempted := n + 1), report');
    StoreAfter(rows0, rows, rows, p, n);
    GoneAfter(rows, rows, p, n, ds, [], ledger, ledger');
    assert ds + [] == ds;
    assert StillQueued(p[n], rows);
    LastKept(p, n, rows, ds, []);
    UnsentFollowed(rows, p, n, ds, report');
    StopReport(scope, rows, rows, p, n, ds, [], report, report');
    assert DeliveredRows(p, n + 1, rows, ds, report');
  }

  /** The row that stops the pass was accepted exactly when its acknowledgement could not be saved. */
  lemma {:induction false} KeptAtStop(p: seq<Row>, n: nat, rows: Rows, ds: seq<Delivery>, g: seq<Delivery>, before: Report, after: Report)
    requires n < |p| && KeptUnaccepted(p[..n], rows, ds + g) && Takes(p[..n], ds) && forall i | 0 <= i < n :: p[i].id != p[n].id
    requires Group(p[n], g)
    requires StoppedAt(p[n], rows, before, after, IntentOf(g[|g| - 1].outcome, p[n].cid, |g| == 2))
    ensures KeptAsAnswered(p, n + 1, rows, ds + g, after.stopReason)
  {
    var last := g[|g| - 1].outcome;
    AcceptedStops(p[n], rows, last, |g| == 2, before, after);
    GroupUnaccepted(p[n], g);
    if last == Accepted(p[n].cid) {
      AcceptedStays(ds, g, p[n]);
    } else {
      LastKept(p, n, rows, ds, g);
    }
  }

  lemma {:induction false} AcceptedStops(r: Row, rows: Rows, o: Outcome, resent: bool, before: Report, after: Report)
    requires StoppedAt(r, rows, before, after, IntentOf(o, r.cid, resent))
    ensures after.stopReason.value.AcknowledgementPersistenceFailed? <==> o == Accepted(r.cid)
    ensures after.stopReason.value.AcknowledgementPersistenceFailed? ==> after.stopReason.value.cid == r.cid
  {
    IntentIsConsistent(o, r.cid, resent);
  }

  /** The row was not sent: all answers are those of earlier rows. */
  lemma {:induction false} UnsentFollowed(rows: Rows, p: seq<Row>, n: nat, ds: seq<Delivery>, report: Report)
    requires n < |p| && Followed(p[..n], rows, ds) && Takes(p[..n], ds) && forall i | 0 <= i < n :: p[i].id != p[n].id
    requires NotCounted(p[n], rows) && report.transientFailures == [] && report.definitiveRejections == []
    requires report.stopReason.Some? && report.stopReason.value.StoreError?
    ensures AnswersFollowed(p, n + 1, rows, ds, report)
  {
    forall k | 0 <= k < |ds|
      ensures ds[k].entry.id != p[n].id
    {
      TakesIds(p[..n], ds, k);
    }
    LastOfOthers(ds, p[n].id);
    forall i | 0 <= i < n
      ensures AnsweredTo(p[i], rows, ds)
    {
      assert AnsweredTo(p[..n][i], rows, ds);
    }
  }

  /** Stopping as the intent says is stopping as the answer asks. */
  lemma {:induction false} StoppedAsAnswered(o: Outcome, resent: bool, r: Row, rows: Rows, before: Report, after: Report)
    requires StoppedAt(r, rows, before, after, IntentOf(o, r.cid, resent))
    ensures var stop := after.stopReason.value;
            && after.transientFailures == before.transientFailures + Recorded(stop)
            && after.definitiveRejections == before.definitiveRejections + RejectedRow(stop)
            && StoppedBy(o, r, rows, stop, Recorded(stop), RejectedRow(stop))
  {
  }

  /** A row's turn follows its last answer. */
  lemma {:induction false} TurnIsFollowed(r: Row, rows: Rows, rows': Rows, g: seq<Delivery>, before: Report, after: Report, step: RowStep)
    requires TakenUp(r, rows, rows', g, before, after, step) && r.id in rows && rows[r.id] == r && r.state.Pending?
    ensures TurnFollowed(r, rows', g, before, after, step)
  {
    match step
    case Continue =>
      ContinueMeans(r, rows, rows', g, before, after);
    case Stop =>
      StopMeans(r, rows, rows', g, before, after);
      if g != [] {
        var sent := before.(stripped := before.stripped + IfThen(|g| == 2, r.cid));
        StoppedAsAnswered(g[|g| - 1].outcome, |g| == 2, r, rows', sent, after);
        SuffixOfSum(before.transientFailures, Recorded(after.stopReason.value));
        SuffixOfSum(before.definitiveRejections, RejectedRow(after.stopReason.value));
      }
  }

  /** Concluding a row's turn as the intent says follows the answer. */
  lemma {:induction false} ConclusionIsFollowed(r: Row, rows: Rows, d: Delivery, resent: bool, before: Report, after: Report, step: RowStep)
    requires Concluded(r, rows, IntentOf(d.outcome, r.cid, resent), before, after, step) && r.state.Pending?
    ensures TurnFollowed(r, rows, [d], before, after, step)
  {
    var intent := IntentOf(d.outcome, r.cid, resent);
    match step
    case Continue =>
      ConcludedGoesOn(r, rows, intent, before, after);
      RemovesOnlyAccepted(d.outcome, r.cid, resent);
      GoesOnBy(d.outcome, resent, r, rows);
    case Stop =>
      IntentIsConsistent(d.outcome, r.cid, resent);
      StoppedAtOther(r, rows, before, after, intent);
      StoppedAsAnswered(d.outcome, resent, r, rows, before, after);
      SuffixOfSum(before.transientFailures, Recorded(after.stopReason.value));
      SuffixOfSum(before.definitiveRejections, RejectedRow(after.stopReason.value));
  }

  lemma SuffixOfSum(a: seq<ActivityFailure>, b: seq<ActivityFailure>)
    ensures a <= a + b && (a + b)[|a|..] == b
  {
  }

  /** Row `p[n]` stopped the pass as it was answered. */
  lemma {:induction false} StopFollowed(rows: Rows, rows': Rows, p: seq<Row>, n: nat, ds: seq<Delivery>, g: seq<Delivery>, before: Report, after: Report)
    requires n < |p| && Followed(p[..n], rows, ds) && Group(p[n], g)
    requires rows' - {p[n].id} == rows - {p[n].id} && forall i | 0 <= i < n :: p[i].id != p[n].id
    requires StoppedAt(p[n], rows', before, after, IntentOf(g[|g| - 1].outcome, p[n].cid, |g| == 2))
    requires before.transientFailures == [] && before.definitiveRejections == []
    ensures AnswersFollowed(p, n + 1, rows', ds + g, after)
  {
    EarlierFollowed(rows, rows', p, n, ds, g);
    GroupIds(p[n], g);
    LastOfGroup(ds, p[n], g);
    StoppedAsAnswered(g[|g| - 1].outcome, |g| == 2, p[n], rows', before, after);
    assert [] + Recorded(after.stopReason.value) == Recorded(after.stopReason.value);
    assert [] + RejectedRow(after.stopReason.value) == RejectedRow(after.stopReason.value);
    AllButLastLetGoOn(ds, p[n], g);
  }

  lemma {:induction false} AllButLastLetGoOn(ds: seq<Delivery>, r: Row, g: seq<Delivery>)
    requires Group(r, g) && forall k | 0 <= k < |ds| :: LetsGoOn(ds[k])
    ensures forall k | 0 <= k < |ds + g| - 1 :: LetsGoOn((ds + g)[k])
  {
    forall k | 0 <= k < |ds + g| - 1
      ensures LetsGoOn((ds + g)[k])
    {
      assert (ds + g)[k] == if k < |ds| then ds[k] else g[k - |ds|];
    }
  }

  /** What was delivered and answered once row `p[n]` stopped the pass. */
  lemma {:induction false} StopAnswers(rows: Rows, rows': Rows, p: seq<Row>, n: nat, ds: seq<Delivery>, g: seq<Delivery>, ledger: Ledger, ledger': Ledger,
                                       before: Report, after: Report)
    requires n < |p| && Takes(p[..n], ds) && Group(p[n], g) && forall i | 0 <= i < n :: p[i].id != p[n].id
    requires rows' - {p[n].id} == rows - {p[n].id} && ledger.Keys <= ledger'.Keys
    requires GoneAreDelivered(p[..n], rows, ds, ledger) && KeptUnaccepted(p[..n], rows, ds) && Followed(p[..n], rows, ds)
    requires before.transientFailures == [] && before.definitiveRejections == []
    requires StoppedAt(p[n], rows', before, after, IntentOf(g[|g| - 1].outcome, p[n].cid, |g| == 2))
    ensures Takes(p[..n + 1], ds + g) && Resent(ds + g) == Resent(ds) + IfThen(|g| == 2, p[n].cid)
    ensures GoneAreDelivered(p[..n + 1], rows', ds + g, ledger') && KeptAsAnswered(p, n + 1, rows', ds + g, after.stopReason)
    ensures AnswersFollowed(p, n + 1, rows', ds + g, after)
  {
    DeliveriesAfter(p, n, ds, g);
    GoneAfter(rows, rows', p, n, ds, g, ledger, ledger');
    KeptAfter(rows, rows', p, n, ds, g);
    KeptAtStop(p, n, rows', ds, g, before, after);
    StopFollowed(rows, rows', p, n, ds, g, before, after);
  }

  /** A delivered row that stops the pass. */
  lemma {:induction false} StopSent(scope: Scope, rows0: Rows, nextId: int, rows: Rows, p: seq<Row>, n: nat, ds: seq<Delivery>, ledger: Ledger, config: Config, report: Report,
                     rows': Rows, g: seq<Delivery>, ledger': Ledger, report': Report)
    requires SoFar(scope, rows0, nextId, rows, p, n, ds, ledger, report) && n < |p| && n < config.maxAttempts && Keyed(rows)
    requires TakenUp(p[n], rows, rows', g, report.(attempted := n + 1), report', Stop) && g != []
    requires ledger.Keys <= ledger'.Keys
    ensures Done(scope, rows0, nextId, rows', p, ds + g, ledger', config, report')
  {
    NextRow(scope, rows0, nextId, rows, p, n, ds, ledger, report);
    StopMeans(p[n], rows, rows', g, report.(attempted := n + 1), report');
    StoreAfter(rows0, rows, rows', p, n);
    StopAnswers(rows, rows', p, n, ds, g, ledger, ledger',
                report.(attempted := n + 1, stripped := report.stripped + IfThen(|g| == 2, p[n].cid)), report');
    StopReport(scope, rows, rows', p, n, ds, g, report, report');
  }

  /** A row that stops the pass ends it with everything accounted for. */
  lemma {:induction false} StopStep(scope: Scope, rows0: Rows, nextId: int, rows: Rows, p: seq<Row>, n: nat, ds: seq<Delivery>, ledger: Ledger, config: Config, report: Report,
                     rows': Rows, g: seq<Delivery>, ledger': Ledger, report': Report)
    requires SoFar(scope, rows0, nextId, rows, p, n, ds, ledger, report) && n < |p| && n < config.maxAttempts && Keyed(rows)
    requires TakenUp(p[n], rows, rows', g, report.(attempted := n + 1), report', Stop)
    requires ledger.Keys <= ledger'.Keys
    ensures Done(scope, rows0, nextId, rows', p, ds + g, ledger', config, report')
  {
    if g == [] {
      assert ds + g == ds;
      StopUnsent(scope, rows0, nextId, rows, p, n, ds, ledger, config, report, ledger', report');
    } else {
      StopSent(scope, rows0, nextId, rows, p, n, ds, ledger, config, report, rows', g, ledger', report');
    }
  }

  /** After a row's turn the pass goes on with one more row settled, or it is done. */
  lemma {:induction false} AfterTurn(scope: Scope, rows0: Rows, nextId: int, rows: Rows, p: seq<Row>, n: nat, ds: seq<Delivery>, ledger: Ledger, config: Config, report: Report,
                     rows': Rows, g: seq<Delivery>, ds': seq<Delivery>, ledger': Ledger, report': Report, step: RowStep)
    requires SoFar(scope, rows0, nextId, rows, p, n, ds, ledger, report) && n < |p| && n < config.maxAttempts && Keyed(rows)
    requires TakenUp(p[n], rows, rows', g, report.(attempted := n + 1), report', step)
    requires ds' == ds + g && ledger.Keys <= ledger'.Keys && (p[n].id !in rows' ==> RowKey(p[n]) in ledger')
    ensures step.Continue? ==>
              && report'.attempted == n + 1
              && SoFar(scope, rows0, nextId, rows', p, report'.attempted, ds', ledger', report')
    ensures step.Stop? ==> Done(scope, rows0, nextId, rows', p, ds', ledger', config, report')
  {
    match step
    case Continue =>
      ContinueStep(scope, rows0, nextId, rows, p, n, ds, ledger, report, rows', g, ledger', report');
    case Stop =>
      StopStep(scope, rows0, nextId, rows, p, n, ds, ledger, config, report, rows', g, ledger', report');
  }
}
