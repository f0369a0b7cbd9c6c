/** What a pass must do about each of the transport's answers, answer by answer. */
module PassAnswers {
  import opened Wrappers
  import opened Utf8
  import opened QueueRows
  import opened SyncPass

  ghost function Why(r: Row): Text {
    if r.state.Parked? then r.state.reason else []
  }

  /** The row waits on: same identity, payload, signature and digests, at most one attempt more. */
  ghost predicate StillQueued(r: Row, rows: Rows) {
    && r.id in rows && rows[r.id].state.Pending? && RowEvolves(r, rows[r.id])
    && rows[r.id].retryCount <= r.retryCount + 1
  }

  /** Row `r` waits on with its attempts as they were. */
  ghost predicate NotCounted(r: Row, rows: Rows) {
    StillQueued(r, rows) && rows[r.id].retryCount == r.retryCount && rows[r.id].lastError == r.lastError
  }

  /** Row `r` waits on with one attempt more and its reason. */
  ghost predicate Counted(r: Row, rows: Rows, reason: Text) {
    StillQueued(r, rows) && rows[r.id].retryCount == r.retryCount + 1 && rows[r.id].lastError == Some(reason)
  }

  /** Row `r` is parked for `reason`, without captures and otherwise as it was. */
  ghost predicate ParkedFor(r: Row, rows: Rows, reason: Text) {
    && r.id in rows && rows[r.id].state.Parked? && rows[r.id].state.reason == reason
    && rows[r.id] == r.(state := rows[r.id].state, captures := map[], captureBytes := 0)
  }

  /** The transport's last answer about row `id`. */
  ghost function LastOf(ds: seq<Delivery>, id: int): Option<Outcome> {
    if ds == [] then None
    else if ds[|ds| - 1].entry.id == id then Some(ds[|ds| - 1].outcome)
    else LastOf(ds[..|ds| - 1], id)
  }

  /** The answers after which a pass may go on at all. */
  ghost predicate LetsGoOn(d: Delivery) {
    d.outcome == Accepted(d.entry.cid) || d.outcome.Park? || d.outcome.StripCaptures?
  }

  /** How a row is settled so that the pass goes on: deleted once accepted by its own id, parked for the reason
      the transport gave when it refused the row or (resent or without any) its captures. */
  ghost predicate SettledBy(o: Outcome, r: Row, rows: Rows) {
    match o
    case Accepted(cid) => cid == r.cid && r.id !in rows
    case Park(reason) => ParkedFor(r, rows, Bounded(reason))
    case StripCaptures(reason) => ParkedFor(r, rows, Bounded(reason))
    case _ => false
  }

  ghost predicate ParkFailed(r: Row, rows: Rows, reason: Text, stop: StopReason) {
    NotCounted(r, rows) && stop.ParkPersistenceFailed? && stop.cid == r.cid && stop.reason == reason
  }

  /** The attempt was counted, listed and reported as `recorded`, or that it could not be saved is reported. */
  ghost predicate Retried(r: Row, rows: Rows, reason: Text, recorded: StopReason, stop: StopReason, transient: seq<ActivityFailure>) {
    || (Counted(r, rows, reason) && stop == recorded && transient == [ActivityFailure(r.cid, reason)])
    || (&& NotCounted(r, rows) && transient == []
        && stop.RetryMetadataPersistenceFailed? && stop.cid == r.cid && stop.reason == reason)
  }

  /** How the pass stops at row `r` on answer `o`: the row, the stop reason or the local failure that replaces
      it, and the rows listed as transient failures and as rejections. */
  ghost predicate StoppedBy(o: Outcome, r: Row, rows: Rows, stop: StopReason, transient: seq<ActivityFailure>, rejected: seq<ActivityFailure>) {
    match o
    case Accepted(cid) =>
      && NotCounted(r, rows) && transient == [] && rejected == []
      && (if cid == r.cid then stop.AcknowledgementPersistenceFailed? && stop.cid == r.cid
          else stop == MismatchedAcknowledgement(r.cid, Truncated(cid, 256)))
    case TransientFailure(reason) =>
      rejected == [] && Retried(r, rows, Bounded(reason), StoppedTransient(r.cid, Bounded(reason)), stop, transient)
    case RetryLater(reason, kind, retryAfter) =>
      && rejected == []
      && Retried(r, rows, Bounded(reason), StoppedRetryLater(r.cid, Bounded(reason), kind, retryAfter), stop, transient)
    case AuthRequired(reason) =>
      NotCounted(r, rows) && transient == [] && rejected == [] && stop == StoppedAuthRequired(r.cid, Bounded(reason))
    case Rejected(reason) =>
      && NotCounted(r, rows) && transient == [] && rejected == [ActivityFailure(r.cid, Bounded(reason))]
      && stop == DefinitiveRejection(r.cid, Bounded(reason))
    case Park(reason) =>
      transient == [] && rejected == [] && ParkFailed(r, rows, Bounded(reason), stop)
    case StripCaptures(reason) =>
      && transient == [] && rejected == []
      && (ParkFailed(r, rows, Bounded(reason), stop) || (stop.StoreError? && NotCounted(r, rows)))
    case WorkspaceAccessLost(reason) =>
      NotCounted(r, rows) && transient == [] && rejected == [] && stop == ScopeBlocked(r.cid, Bounded(reason), AccessLost)
    case DeviceRevoked(reason) =>
      && transient == [] && rejected == []
      && (|| (ParkedFor(r, rows, Bounded(reason)) && stop == ScopeBlocked(r.cid, Bounded(reason), Revoked))
          || ParkFailed(r, rows, Bounded(reason), stop))
  }

  /** Row `r` was settled as its last answer asks, and the pass went on. */
  ghost predicate AnsweredTo(r: Row, rows: Rows, ds: seq<Delivery>) {
    LastOf(ds, r.id).Some? && SettledBy(LastOf(ds, r.id).value, r, rows)
  }

  /** So was every row of `p`, and every answer let the pass go on. */
  ghost predicate Followed(p: seq<Row>, rows: Rows, ds: seq<Delivery>) {
    && (forall k | 0 <= k < |ds| :: LetsGoOn(ds[k]))
    && (forall i | 0 <= i < |p| :: AnsweredTo(p[i], rows, ds))
  }

  /** The last row taken up: settled, and the pass ended between two rows; or it stopped the pass as its last
      answer asks; or its captures could not be loaded and it was not sent. */
  ghost predicate LastFollowed(r: Row, rows: Rows, ds: seq<Delivery>, report: Report) {
    var (transient, rejected) := (report.transientFailures, report.definitiveRejections);
    match LastOf(ds, r.id)
    case None =>
      NotCounted(r, rows) && transient == [] && rejected == [] && report.stopReason.Some? && report.stopReason.value.StoreError?
    case Some(o) =>
      || (SettledBy(o, r, rows) && transient == [] && rejected == [] && BetweenRows(report.stopReason))
      || (report.stopReason.Some? && StoppedBy(o, r, rows, report.stopReason.value, transient, rejected))
  }

  /** The pass ran out of rows, attempts or time, or could not read the store. */
  ghost predicate BetweenRows(stopReason: Option<StopReason>) {
    stopReason.Some? ==> stopReason.value.MaxAttemptsReached? || stopReason.value.DeadlineReached? || stopReason.value.StoreError?
  }

  /** Every answer the transport gave was followed. */
  ghost predicate AnswersFollowed(p: seq<Row>, n: nat, rows: Rows, ds: seq<Delivery>, report: Report)
    requires n <= |p|
  {
    && (forall k | 0 <= k < |ds| - 1 :: LetsGoOn(ds[k]))
    && (forall i | 0 <= i < n - 1 :: AnsweredTo(p[i], rows, ds))
    && (n > 0 ==> LastFollowed(p[n - 1], rows, ds, report))
    && (n == 0 ==> BetweenRows(report.stopReason))
  }

  /** One row's turn follows its last answer, if it was sent: the pass goes on with the row settled, or stops,
      and lists what was added to `before`. */
  ghost predicate TurnFollowed(r: Row, rows: Rows, g: seq<Delivery>, before: Report, after: Report, step: RowStep) {
    if g == [] then step.Stop? && after.stopReason.Some? && after.stopReason.value.StoreError?
    else
      var o := g[|g| - 1].outcome;
      match step
      case Continue => SettledBy(o, r, rows) && after.stopReason == before.stopReason
      case Stop =>
        && after.stopReason.Some?
        && before.transientFailures <= after.transientFailures && before.definitiveRejections <= after.definitiveRejections
        && StoppedBy(o, r, rows, after.stopReason.value,
                     after.transientFailures[|before.transientFailures|..],
                     after.definitiveRejections[|before.definitiveRejections|..])
  }

  // ---- which answer was the last ----

  lemma {:induction false} LastOfAppend(ds: seq<Delivery>, g: seq<Delivery>, id: int)
    ensures LastOf(ds + g, id) == if LastOf(g, id).Some? then LastOf(g, id) else LastOf(ds, id)
  {
    if g == [] {
      assert ds + g == ds;
    } else {
      assert (ds + g)[..|ds + g| - 1] == ds + g[..|g| - 1];
      LastOfAppend(ds, g[..|g| - 1], id);
    }
  }

  lemma {:induction false} LastOfOthers(g: seq<Delivery>, id: int)
    requires forall k | 0 <= k < |g| :: g[k].entry.id != id
    ensures LastOf(g, id) == None
  {
    if g != [] {
      LastOfOthers(g[..|g| - 1], id);
    }
  }

  /** The deliveries of a row put its last answer last, and leave the others'. */
  lemma LastOfGroup(ds: seq<Delivery>, r: Row, g: seq<Delivery>)
    requires g != [] && forall k | 0 <= k < |g| :: g[k].entry.id == r.id
    ensures LastOf(ds + g, r.id) == Some(g[|g| - 1].outcome)
    ensures forall id | id != r.id :: LastOf(ds + g, id) == LastOf(ds, id)
  {
    LastOfAppend(ds, g, r.id);
    forall id | id != r.id
      ensures LastOf(ds + g, id) == LastOf(ds, id)
    {
      LastOfAppend(ds, g, id);
      LastOfOthers(g, id);
    }
  }
}
