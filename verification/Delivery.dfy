/** Delivering one queued row: the integrity check in front of the server, and what its answers mean. */
module Delivering {
  import opened Wrappers
  import opened Utf8
  import opened Signing
  import opened QueueRows
  import opened Limits
  import opened OutboxStore
  import opened SyncPass
  import opened PassProgress

  /** The notices the agent words itself. */
  datatype Notices = Notices(integrity: Text, noKey: Text, unsignable: Text)

  /** What a failed upload was; `shown` is the message of the error. */
  datatype SubmitError =
    | SubmitTransient(shown: Text, retryAfter: Option<nat>)
    | AuthRejected(shown: Text)
    | SubscriptionInactive(shown: Text)
    | NotWorkspaceMember(shown: Text)
    | WorkspaceArchived(shown: Text)
    | WorkspaceRequired(shown: Text)
    | SubmitDeviceRevoked(shown: Text)
    | ProjectUnavailable(shown: Text)
    | ClockAheadOfServer(shown: Text)
    | CapturesRefused(shown: Text)
    | SubmitRejected(shown: Text)

  function OutcomeOf(error: SubmitError): Outcome {
    match error
    case SubmitTransient(shown, retryAfter) => RetryLater(shown, Transient, retryAfter)
    case AuthRejected(shown) => AuthRequired(shown)
    case SubscriptionInactive(shown) => RetryLater(shown, Subscription, None)
    case ClockAheadOfServer(shown) => RetryLater(shown, ClockAhead, None)
    case NotWorkspaceMember(shown) => WorkspaceAccessLost(shown)
    case WorkspaceArchived(shown) => WorkspaceAccessLost(shown)
    case WorkspaceRequired(shown) => WorkspaceAccessLost(shown)
    case SubmitDeviceRevoked(shown) => DeviceRevoked(shown)
    case CapturesRefused(shown) => StripCaptures(shown)
    case SubmitRejected(shown) => Park(shown)
    case ProjectUnavailable(shown) => RetryLater(shown, Transient, None)
  }

  // ---- the integrity check ----

  /** The digest of the last capture of a kind. */
  function LastDigest(captures: seq<StoredCapture>, kind: CaptureKind): Option<Bytes> {
    if captures == [] then None
    else if captures[|captures| - 1].kind == kind then Some(captures[|captures| - 1].sha256)
    else LastDigest(captures[..|captures| - 1], kind)
  }

  function LoadedDigests(captures: seq<StoredCapture>): CaptureDigests {
    CaptureDigests(LastDigest(captures, Screen), LastDigest(captures, Thumb))
  }

  /** `capture_digests` */
  method ComputeDigests(captures: seq<StoredCapture>) returns (digests: CaptureDigests)
    ensures digests == LoadedDigests(captures)
  {
    digests := CaptureDigests(None, None);
    for i := 0 to |captures|
      invariant digests == LoadedDigests(captures[..i])
    {
      assert captures[..i + 1][..i] == captures[..i];
      match captures[i].kind {
        case Screen => digests := digests.(screen := Some(captures[i].sha256));
        case Thumb => digests := digests.(thumb := Some(captures[i].sha256));
      }
    }
    assert captures[..|captures|] == captures;
  }

  /** `StoredCapture::bytes_match_digest`: a shed capture has no bytes to check. */
  predicate BytesMatch(c: Crypto, capture: StoredCapture) {
    capture.jpeg == [] || c.sha256(capture.jpeg) == capture.sha256
  }

  /** Does a v2 entry still verify under `key`? */
  predicate Verifies(c: Crypto, key: Bytes, e: Entry) {
    && e.signature.Some?
    && (forall i | 0 <= i < |e.captures| :: BytesMatch(c, e.captures[i]))
    && VerifyV2(c, key, e.payload, LoadedDigests(e.captures), e.signature.value)
  }

  method VerifyEntry(c: Crypto, key: Bytes, e: Entry) returns (ok: bool)
    ensures ok == Verifies(c, key, e)
  {
    if e.signature.None? {
      return false;
    }
    var digests := ComputeDigests(e.captures);
    return (forall i | 0 <= i < |e.captures| :: BytesMatch(c, e.captures[i]))
           && VerifyV2(c, key, e.payload, digests, e.signature.value);
  }

  lemma {:induction false} AppendedDigest(a: seq<StoredCapture>, b: seq<StoredCapture>, kind: CaptureKind)
    requires |b| <= 1
    ensures LastDigest(a + b, kind) == if LastDigest(b, kind).Some? then LastDigest(b, kind) else LastDigest(a, kind)
  {
    if b == [] {
      assert a + b == a;
    } else {
      assert (a + b)[..|a + b| - 1] == a;
    }
  }

  /** Loading a row's captures gives back the digests its tag covers. */
  lemma LoadedDigestsAreStored(c: Crypto, m: Captures)
    requires Intact(c, m)
    ensures LoadedDigests(InKindOrder(m)) == DigestsOf(m)
    ensures forall i | 0 <= i < |InKindOrder(m)| :: BytesMatch(c, InKindOrder(m)[i])
  {
    var first := if Screen in m then [m[Screen]] else [];
    var second := if Thumb in m then [m[Thumb]] else [];
    assert InKindOrder(m) == first + second;
    AppendedDigest(first, second, Screen);
    AppendedDigest(first, second, Thumb);
  }

  /** A queued row as it is sent verifies under the key it was queued under. */
  lemma SentVerifies(c: Crypto, key: Bytes, r: Row)
    requires Lawful(c) && ValidRow(c, key, r) && r.format.V2? && r.state.Pending?
    ensures Verifies(c, key, Sent(r))
  {
    LoadedDigestsAreStored(c, r.captures);
    VerifiesOwnSignature(c, key, r.payload, DigestsOf(r.captures), r.payload, DigestsOf(r.captures));
  }

  /** `e` is row `r` as sent, the first time or after a strip. */
  ghost predicate SentOf(r: Row, e: Entry) {
    e == Sent(r) || e == Sent(ShedRow(r))
  }

  lemma GroupSentOf(r: Row, g: seq<Delivery>, k: nat)
    requires Group(r, g) && k < |g|
    ensures SentOf(r, g[k].entry)
  {
  }

  /** Every delivery of a pass is of one of its rows. */
  lemma {:induction false} TakesSentOf(p: seq<Row>, ds: seq<Delivery>, k: nat) returns (i: nat)
    requires Takes(p, ds) && k < |ds|
    ensures i < |p| && SentOf(p[i], ds[k].entry)
  {
    var init, last := p[..|p| - 1], p[|p| - 1];
    var cut :| SplitsAt(p, ds, cut);
    if k < cut {
      i := TakesSentOf(init, ds[..cut], k);
    } else {
      GroupSentOf(last, ds[cut..], k - cut);
      i := |p| - 1;
    }
  }

  /** However a valid queued row is sent, it verifies under the key it was queued under. */
  lemma SentOfVerifies(c: Crypto, key: Bytes, r: Row, e: Entry)
    requires Lawful(c) && ValidRow(c, key, r) && r.state.Pending? && SentOf(r, e)
    ensures e.id == r.id && e.format == r.format && (e.format.V2? ==> Verifies(c, key, e))
  {
    ShedRowIsValid(c, key, r);
    if r.format.V2? && e == Sent(r) {
      SentVerifies(c, key, r);
    } else if r.format.V2? {
      SentVerifies(c, key, ShedRow(r));
    }
  }

  /** What the JSON library makes of a v1 row: the tag it carries, and the JSON a tag would cover (none if it
      cannot be written). */
  datatype V1Envelope = V1Envelope(signature: Option<Text>, canonical: Option<Bytes>)

  /** The outcome of an entry that is not sent at all; `readable` says whether the v2 payload can be read. */
  function Withheld(c: Crypto, notices: Notices, signingKey: Option<Bytes>, e: Entry, readable: bool, v1: V1Envelope): Option<Outcome> {
    if e.format.V2? then
      if signingKey.None? then Some(RetryLater(notices.noKey, Transient, None))
      else if !Verifies(c, signingKey.value, e) || !readable then Some(Park(notices.integrity))
      else None
    else if signingKey.Some? && v1.signature.None? && v1.canonical.None? then Some(Park(notices.unsignable))
    else None
  }

  /** The tag an upload carries: a v2 row's own, a v1 row's own or else a new one if there is a key. */
  function SentTag(c: Crypto, signingKey: Option<Bytes>, e: Entry, v1: V1Envelope): Option<Text> {
    if e.format.V2? then e.signature
    else if signingKey.Some? && v1.signature.None? && v1.canonical.Some? then
      Some(SignPayload(c, signingKey.value, v1.canonical.value))
    else v1.signature
  }

  /** Whatever a pass sends from a valid store verifies under the key its row was queued under, so with that
      key delivery sends it and never parks an untampered row for integrity. */
  lemma {:induction false} PassSendsVerifiable(c: Crypto, keys: map<int, Bytes>, rows0: Rows, nextId: int, scope: Scope,
                                               n: nat, ds: seq<Delivery>, k: nat, notices: Notices, v1: V1Envelope)
    requires Lawful(c) && ValidRows(c, keys, rows0, nextId) && n <= |PendingFrom(rows0, scope, 1, nextId)|
    requires Takes(PendingFrom(rows0, scope, 1, nextId)[..n], ds) && k < |ds|
    ensures ds[k].entry.id in keys
    ensures ds[k].entry.format.V2? ==>
              && Verifies(c, keys[ds[k].entry.id], ds[k].entry)
              && Withheld(c, notices, Some(keys[ds[k].entry.id]), ds[k].entry, true, v1).None?
  {
    var p := PendingFrom(rows0, scope, 1, nextId)[..n];
    var i := TakesSentOf(p, ds, k);
    ValidRowsKeyed(c, keys, rows0, nextId);
    PendingFromMembers(rows0, scope, 1, nextId);
    assert p[i] in PendingFrom(rows0, scope, 1, nextId);
    assert ValidAt(c, keys, rows0, nextId, p[i].id);
    SentOfVerifies(c, keys[p[i].id], p[i], ds[k].entry);
  }

  /** An entry that still verifies carries what was signed, down to the image bytes it kept, unless
      HMAC-SHA256 or SHA-256 has been broken by inputs one can point at. */
  lemma TamperedEntryFails(c: Crypto, key: Bytes, r: Row, e: Entry, i: nat)
    requires Lawful(c) && ValidRow(c, key, r) && r.format.V2? && r.state.Pending?
    requires NoNul(r.payload) && NoNul(e.payload) && WellSized(LoadedDigests(e.captures)) && WellSized(DigestsOf(r.captures))
    requires e.signature == r.signature && Verifies(c, key, e) && i < |e.captures|
    requires LastDigest(e.captures, e.captures[i].kind) == Some(e.captures[i].sha256)
    ensures || HmacCollision(c, key, MacInput(r.payload, DigestsOf(r.captures)), MacInput(e.payload, LoadedDigests(e.captures)))
            || (&& e.payload == r.payload && LoadedDigests(e.captures) == DigestsOf(r.captures)
                && var kind := e.captures[i].kind;
                   && kind in r.captures
                   && (|| e.captures[i].jpeg == [] || r.captures[kind].jpeg == []
                       || e.captures[i].jpeg == r.captures[kind].jpeg
                       || ShaCollision(c, e.captures[i].jpeg, r.captures[kind].jpeg)))
  {
    TamperedRowNeedsCollision(c, key, r.payload, DigestsOf(r.captures), e.payload, LoadedDigests(e.captures));
    var kind := e.captures[i].kind;
    assert BytesMatch(c, e.captures[i]);
    assert kind == Screen || kind == Thumb;
  }

  // ---- one delivery ----

  /** What the pass is told of a failed upload, failure by failure: the message always, the retry time only of a
      transient one. */
  ghost predicate AnswersFailure(error: SubmitError, listed: Option<bool>, outcome: Outcome) {
    var gone := error.ProjectUnavailable? && listed == Some(false);
    && !outcome.Accepted? && !outcome.TransientFailure? && !outcome.Rejected? && outcome.reason == error.shown
    && (outcome.AuthRequired? <==> error.AuthRejected?)
    && (outcome.StripCaptures? <==> error.CapturesRefused?)
    && (outcome.DeviceRevoked? <==> error.SubmitDeviceRevoked?)
    && (outcome.WorkspaceAccessLost? <==> error.NotWorkspaceMember? || error.WorkspaceArchived? || error.WorkspaceRequired?)
    && (outcome.Park? <==> error.SubmitRejected? || gone)
    && (outcome.RetryLater? ==>
          && (outcome.kind.Subscription? <==> error.SubscriptionInactive?)
          && (outcome.kind.ClockAhead? <==> error.ClockAheadOfServer?)
          && outcome.retryAfter == if error.SubmitTransient? then error.retryAfter else None)
  }

  /** An upload: its tag, the answer, and (asked only after a missing project) whether the project is among
      those the server lists, if it listed any. */
  datatype Upload = Upload(tag: Option<Text>, answer: Result<Unit, SubmitError>, listed: Option<bool>)

  /** Deliver one entry. The server's answers are arbitrary. */
  method DeliverEntry(c: Crypto, notices: Notices, signingKey: Option<Bytes>, e: Entry, readable: bool, v1: V1Envelope)
      returns (outcome: Outcome, upload: Option<Upload>)
    ensures upload.None? <==> Withheld(c, notices, signingKey, e, readable, v1).Some?
    ensures upload.None? ==> Some(outcome) == Withheld(c, notices, signingKey, e, readable, v1)
    ensures upload.Some? ==> upload.value.tag == SentTag(c, signingKey, e, v1)
    ensures upload.Some? && upload.value.answer.Ok? ==> outcome == Accepted(e.cid)
    ensures upload.Some? && upload.value.answer.Err? ==>
              outcome == if upload.value.answer.error.ProjectUnavailable? && upload.value.listed == Some(false)
                         then Park(upload.value.answer.error.shown) else OutcomeOf(upload.value.answer.error)
    ensures outcome.Accepted? <==> upload.Some? && upload.value.answer.Ok?
    ensures upload.Some? && upload.value.answer.Err? ==> AnswersFailure(upload.value.answer.error, upload.value.listed, outcome)
    ensures e.format.V2? && signingKey.None? ==> upload.None? && outcome == RetryLater(notices.noKey, Transient, None)
    ensures e.format.V2? && signingKey.Some? && (!Verifies(c, signingKey.value, e) || !readable) ==>
              upload.None? && outcome == Park(notices.integrity)
    ensures e.format.V1? && signingKey.Some? && v1.signature.None? && v1.canonical.None? ==>
              upload.None? && outcome == Park(notices.unsignable)
    ensures upload.Some? && e.format.V2? ==> upload.value.tag == e.signature
    ensures upload.Some? && e.format.V1? ==>
              upload.value.tag == if signingKey.Some? && v1.signature.None?
                                  then Some(c.encode(c.hmac(signingKey.value, v1.canonical.value))) else v1.signature
  {
    var tag := e.signature;
    if e.format.V2? {
      if signingKey.None? {
        return RetryLater(notices.noKey, Transient, None), None;
      }
      var ok := VerifyEntry(c, signingKey.value, e);
      if !ok {
        return Park(notices.integrity), None;
      }
      if !readable {
        return Park(notices.integrity), None;
      }
    } else {
      tag := v1.signature;
      if signingKey.Some? && v1.signature.None? {
        if v1.canonical.None? {
          return Park(notices.unsignable), None;
        }
        tag := Some(SignPayload(c, signingKey.value, v1.canonical.value));
      }
    }
    var answer: Result<Unit, SubmitError> := *;
    match answer {
      case Ok(_) =>
        return Accepted(e.cid), Some(Upload(tag, answer, None));
      case Err(ProjectUnavailable(shown)) =>
        var listed: Option<bool> := *;
        if listed == Some(false) {
          return Park(shown), Some(Upload(tag, answer, listed));
        }
        return RetryLater(shown, Transient, None), Some(Upload(tag, answer, listed));
      case Err(error) =>
        return OutcomeOf(error), Some(Upload(tag, answer, None));
    }
  }
}
