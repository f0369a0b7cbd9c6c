/** Local consent: it narrows in memory at once and widens only after it was saved. */
module Consent {
  import opened Wrappers
  import opened ConsentFiles

  datatype Capability = ScreenCapture | KeyboardCount | MouseCount | ActiveWindow | RunningPrograms | Webcam

  datatype Permissions = Permissions(
    screenshot: bool,
    webcam: bool,
    keyboard: bool,
    mouse: bool,
    activeWindow: bool,
    runningPrograms: bool,
    blurScreenshots: bool)
  {
    predicate HasAnyCapability() {
      screenshot || webcam || keyboard || mouse || activeWindow || runningPrograms
    }

    function Intersect(project: Permissions): Permissions {
      Permissions(
        screenshot && project.screenshot,
        webcam && project.webcam,
        keyboard && project.keyboard,
        mouse && project.mouse,
        activeWindow && project.activeWindow,
        runningPrograms && project.runningPrograms,
        blurScreenshots || project.blurScreenshots)
    }

    predicate Permits(cap: Capability) {
      match cap
      case ScreenCapture => screenshot
      case KeyboardCount => keyboard
      case MouseCount => mouse
      case ActiveWindow => activeWindow
      case RunningPrograms => runningPrograms
      case Webcam => webcam
    }
  }

  const ALL_DISABLED := Permissions(false, false, false, false, false, false, true)

  datatype LocalConsent = Absent | Granted(permissions: Permissions) | Revoked {
    /** What the consent allows by itself. */
    function Allowed(): Permissions {
      if Granted? then permissions else ALL_DISABLED
    }

    function Effective(project: Permissions): Permissions {
      match this
      case Granted(local) => local.Intersect(project)
      case _ => ALL_DISABLED
    }
  }

  // ---- more and less permissive ----

  /** `a` allows no capability `b` does not, and blurs wherever `b` does. */
  ghost predicate NoMoreThan(a: Permissions, b: Permissions) {
    && (forall cap :: a.Permits(cap) ==> b.Permits(cap))
    && (b.blurScreenshots ==> a.blurScreenshots)
  }

  lemma NoMoreThanIsAnOrder(a: Permissions, b: Permissions, c: Permissions)
    ensures NoMoreThan(a, a)
    ensures NoMoreThan(a, b) && NoMoreThan(b, c) ==> NoMoreThan(a, c)
    ensures NoMoreThan(a, b) && NoMoreThan(b, a) ==> a == b
  {
    if NoMoreThan(a, b) && NoMoreThan(b, a) {
      assert a.Permits(ScreenCapture) == b.Permits(ScreenCapture);
      assert a.Permits(KeyboardCount) == b.Permits(KeyboardCount);
      assert a.Permits(MouseCount) == b.Permits(MouseCount);
      assert a.Permits(ActiveWindow) == b.Permits(ActiveWindow);
      assert a.Permits(RunningPrograms) == b.Permits(RunningPrograms);
      assert a.Permits(Webcam) == b.Permits(Webcam);
    }
  }

  /** The intersection is the most permissive choice within both the grant and the policy. */
  lemma IntersectIsGreatestLowerBound(local: Permissions, project: Permissions, p: Permissions)
    ensures NoMoreThan(local.Intersect(project), local) && NoMoreThan(local.Intersect(project), project)
    ensures NoMoreThan(p, local.Intersect(project)) <==> NoMoreThan(p, local) && NoMoreThan(p, project)
    ensures local.Intersect(project).HasAnyCapability() <==> exists cap :: local.Permits(cap) && project.Permits(cap)
  {
    var both := local.Intersect(project);
    assert forall cap :: both.Permits(cap) <==> local.Permits(cap) && project.Permits(cap);
    if both.HasAnyCapability() {
      var cap := if both.screenshot then ScreenCapture else if both.webcam then Webcam
                 else if both.keyboard then KeyboardCount else if both.mouse then MouseCount
                 else if both.activeWindow then ActiveWindow else RunningPrograms;
      assert both.Permits(cap);
    }
  }

  // ---- the durable record ----

  /** JSON and back, as the library does it. */
  datatype Format = Format(encode: LocalConsent -> string, decode: string -> Option<LocalConsent>)

  ghost predicate RoundTrips(f: Format) {
    forall consent :: f.decode(f.encode(consent)) == Some(consent)
  }

  /** The consent the next start will find: nothing readable is no consent. */
  function Recorded(f: Format, files: Files, path: Path): LocalConsent {
    match TextAt(files, path)
    case None => Absent
    case Some(text) => match f.decode(text) { case Some(consent) => consent case None => Absent }
  }

  /** A consent file. */
  class FileConsentStore {
    const fs: FileSystem
    const path: Path
    const format: Format

    constructor (fs: FileSystem, path: Path, format: Format)
      ensures this.fs == fs && this.path == path && this.format == format
    {
      this.fs := fs;
      this.path := path;
      this.format := format;
    }

    ghost function Durable(): LocalConsent
      reads fs
    {
      Recorded(format, fs.files, path)
    }

    /** `ConsentStore::load` */
    method Load() returns (r: Result<LocalConsent, ConsentError>)
      ensures r.Ok? ==> r.value == Durable()
      ensures r.Ok? && path !in fs.files ==> r.value == Absent
      ensures r.Ok? && path in fs.files ==>
                && fs.files[path].File? && fs.files[path].trusted
                && format.decode(fs.files[path].text) == Some(r.value)
      ensures r.Err? ==> r.error.IoError? || path in fs.files
    {
      var readable: bool := *;
      if !readable {
        return Err(IoError);
      }
      if TargetFault(fs.files, path).Some? {
        return Err(TargetFault(fs.files, path).value);
      }
      if path !in fs.files {
        return Ok(Absent);
      }
      if * {
        return Err(IoError);
      }
      match format.decode(fs.files[path].text) {
        case Some(consent) => return Ok(consent);
        case None => return Err(MalformedJson);
      }
    }

    method Save(consent: LocalConsent) returns (r: Result<Unit, ConsentError>)
      modifies fs
      ensures r.Ok? ==> fs.files == old(fs.files)[path := File(format.encode(consent), true)]
      ensures r.Err? ==> OnlyOwnTempLeft(old(fs.files), fs.files, path)
      ensures RoundTrips(format) ==> Durable() == if r.Ok? then consent else old(Durable())
    {
      r := fs.Save(path, format.encode(consent));
      if r.Err? {
        FailedSaveKeepsFiles(old(fs.files), fs.files, path);
      }
    }
  }

  // ---- updating ----

  /** The consent in memory and the one on disk (the latter only if there is a store). */
  datatype ConsentState = ConsentState(current: LocalConsent, durable: Option<LocalConsent>)

  /** What holds in memory while `next` is being saved, and stays if saving fails. */
  function Meanwhile(prev: LocalConsent, next: LocalConsent): LocalConsent {
    if prev.Granted? && next.Granted? then Granted(prev.permissions.Intersect(next.permissions))
    else if next.Granted? then prev
    else next
  }

  /** An update to `next`; `saved` says whether a save, if one is made, succeeds. */
  function Updated(s: ConsentState, next: LocalConsent, saved: bool): ConsentState {
    if s.current == next then s
    else if s.durable.None? then s.(current := next)
    else if saved then ConsentState(next, Some(next))
    else s.(current := Meanwhile(s.current, next))
  }

  /** Whether the update reports success. */
  predicate UpdateSucceeds(s: ConsentState, next: LocalConsent, saved: bool) {
    s.current == next || s.durable.None? || saved
  }

  /** What is in force after a choice that could not be saved: of two grants what both have (and blur if either
      blurs), the old consent if only the choice grants anything, and the choice if it grants nothing. */
  ghost predicate FailedChoice(prev: LocalConsent, next: LocalConsent, now: LocalConsent) {
    if prev.Granted? && next.Granted? then
      var (p, q) := (prev.permissions, next.permissions);
      && now.Granted?
      && (now.permissions.screenshot <==> p.screenshot && q.screenshot)
      && (now.permissions.webcam <==> p.webcam && q.webcam)
      && (now.permissions.keyboard <==> p.keyboard && q.keyboard)
      && (now.permissions.mouse <==> p.mouse && q.mouse)
      && (now.permissions.activeWindow <==> p.activeWindow && q.activeWindow)
      && (now.permissions.runningPrograms <==> p.runningPrograms && q.runningPrograms)
      && (now.permissions.blurScreenshots <==> p.blurScreenshots || q.blurScreenshots)
    else if next.Granted? then now == prev
    else now == next
  }

  class ConsentManager {
    var current: LocalConsent
    const storage: Option<FileConsentStore>

    constructor (initial: LocalConsent, storage: Option<FileConsentStore>)
      ensures current == initial && this.storage == storage
    {
      current := initial;
      this.storage := storage;
    }

    ghost function Footprint(): set<object> {
      {this} + if storage.Some? then {storage.value, storage.value.fs} else {}
    }

    ghost function Now(): ConsentState
      reads Footprint()
    {
      ConsentState(current, if storage.Some? then Some(storage.value.Durable()) else None)
    }

    ghost predicate Valid() {
      storage.Some? ==> RoundTrips(storage.value.format)
    }

    /** Withdraw what `next` withdraws, save, and only then admit what it adds. */
    method Update(next: LocalConsent) returns (r: Result<Unit, ConsentError>)
      requires Valid()
      modifies Footprint()
      ensures r.Ok? ==> current == next
      ensures r.Err? ==> storage.Some? && FailedChoice(old(current), next, current)
      ensures storage.Some? ==> storage.value.Durable() == if r.Ok? && old(current) != next then next else old(storage.value.Durable())
      ensures Now() == Updated(old(Now()), next, r.Ok?)
      ensures r.Ok? <==> UpdateSucceeds(old(Now()), next, r.Ok?)
      ensures storage.Some? && r.Err? ==> OnlyOwnTempLeft(old(storage.value.fs.files), storage.value.fs.files, storage.value.path)
    {
      var prev := current;
      if prev == next {
        return Ok(Unit);
      }
      if prev.Granted? && next.Granted? {
        current := WithdrawNow(prev.permissions, next.permissions);
        r := Persist(next);
        if r.Ok? {
          current := next;
        }
      } else if next.Granted? {
        r := Persist(next);
        if r.Ok? {
          current := next;
        }
      } else {
        current := next;
        r := Persist(next);
      }
    }

    /** What both grants have, blurred if either asks for it. */
    method WithdrawNow(was: Permissions, chosen: Permissions) returns (now: LocalConsent)
      ensures now == Granted(was.Intersect(chosen)) && FailedChoice(Granted(was), Granted(chosen), now)
    {
      now := Granted(Permissions(
        was.screenshot && chosen.screenshot,
        was.webcam && chosen.webcam,
        was.keyboard && chosen.keyboard,
        was.mouse && chosen.mouse,
        was.activeWindow && chosen.activeWindow,
        was.runningPrograms && chosen.runningPrograms,
        was.blurScreenshots || chosen.blurScreenshots));
    }

    /** Save to the store, if there is one. */
    method Persist(next: LocalConsent) returns (r: Result<Unit, ConsentError>)
      requires Valid()
      modifies if storage.Some? then {storage.value.fs} else {}
      ensures storage.None? ==> r.Ok?
      ensures storage.Some? && r.Ok? ==> storage.value.Durable() == next
      ensures storage.Some? && r.Err? ==>
                && storage.value.Durable() == old(storage.value.Durable())
                && OnlyOwnTempLeft(old(storage.value.fs.files), storage.value.fs.files, storage.value.path)
    {
      if storage.None? {
        return Ok(Unit);
      }
      r := storage.value.Save(next);
    }

    method Revoke() returns (r: Result<Unit, ConsentError>)
      requires Valid()
      modifies Footprint()
      ensures Now() == Updated(old(Now()), Revoked, r.Ok?)
      ensures current == Revoked
    {
      r := Update(Revoked);
    }
  }

  /** `load_or_fail_closed`: a record that cannot be read is no consent. */
  method LoadOrFailClosed(store: FileConsentStore) returns (manager: ConsentManager, error: Option<ConsentError>)
    requires RoundTrips(store.format)
    ensures fresh(manager) && manager.storage == Some(store) && manager.Valid()
    ensures manager.current == if error.None? then store.Durable() else Absent
  {
    var loaded := store.Load();
    match loaded {
      case Ok(consent) =>
        manager := new ConsentManager(consent, Some(store));
        return manager, None;
      case Err(e) =>
        manager := new ConsentManager(Absent, Some(store));
        return manager, Some(e);
    }
  }

  // ---- whole runs ----

  /** An update whose save may fail, or a restart whose load may fail. */
  datatype ConsentEvent = Choose(next: LocalConsent, saved: bool) | Restart(loaded: bool)

  function After(s: ConsentState, e: ConsentEvent): ConsentState {
    match e
    case Choose(next, saved) => Updated(s, next, saved)
    case Restart(loaded) => s.(current := if s.durable.Some? && loaded then s.durable.value else Absent)
  }

  function AfterAll(s: ConsentState, events: seq<ConsentEvent>): ConsentState {
    if events == [] then s else After(AfterAll(s, events[..|events| - 1]), events[|events| - 1])
  }

  /** Over any run, a choice that is saved (or needs no saving) is in force from then on, whatever came before,
      and one that is not leaves what a failed choice leaves; a restart brings back the record. */
  lemma {:induction false} ChoiceComesIntoForce(s: ConsentState, events: seq<ConsentEvent>, next: LocalConsent, saved: bool)
    ensures var (before, after) := (AfterAll(s, events), AfterAll(s, events + [Choose(next, saved)]));
            && (saved || before.durable.None? ==> after.current == next)
            && (!saved && before.durable.Some? && before.current != next ==> FailedChoice(before.current, next, after.current))
            && (before.durable.Some? ==>
                  after.durable == if saved && before.current != next then Some(next) else before.durable)
            && (before.durable.None? <==> after.durable.None?)
    ensures var restarted := AfterAll(s, events + [Choose(next, saved), Restart(true)]);
            restarted.durable.Some? ==> restarted.current == restarted.durable.value
  {
    var one := events + [Choose(next, saved)];
    assert one[..|one| - 1] == events;
    var two := events + [Choose(next, saved), Restart(true)];
    assert two[..|two| - 1] == one;
  }

  /** What is in force is nothing the record does not grant. */
  ghost predicate WithinRecord(s: ConsentState) {
    s.durable.Some? ==> NoMoreThan(s.current.Allowed(), s.durable.value.Allowed())
  }

  /** Memory is never more permissive than the record: after any updates, saves failing or not, restarts
      included, and also while a save is under way, before and after it reached the disk. */
  lemma {:induction false} MemoryNeverExceedsRecord(s: ConsentState, events: seq<ConsentEvent>, next: LocalConsent)
    requires WithinRecord(s)
    ensures var now := AfterAll(s, events);
            && WithinRecord(now)
            && (now.durable.Some? ==> NoMoreThan(Meanwhile(now.current, next).Allowed(), now.durable.value.Allowed()))
            && NoMoreThan(Meanwhile(now.current, next).Allowed(), now.current.Allowed())
    decreases |events|
  {
    var now := AfterAll(s, events);
    if events != [] {
      var e := events[|events| - 1];
      var before := AfterAll(s, events[..|events| - 1]);
      var chosen := if e.Choose? then e.next else next;
      MemoryNeverExceedsRecord(s, events[..|events| - 1], chosen);
    }
    if now.current.Granted? && next.Granted? {
      IntersectIsGreatestLowerBound(now.current.permissions, next.permissions, next.permissions);
    }
  }

  /** Whatever one update newly allows (a capability, or no blur) is durably granted by then. */
  lemma WidensOnlyOnceSaved(s: ConsentState, next: LocalConsent, saved: bool)
    requires s.durable.Some? && !NoMoreThan(Updated(s, next, saved).current.Allowed(), s.current.Allowed())
    ensures saved && UpdateSucceeds(s, next, saved) && Updated(s, next, saved) == ConsentState(next, Some(next))
  {
    if !saved && s.current.Granted? && next.Granted? {
      IntersectIsGreatestLowerBound(s.current.permissions, next.permissions, next.permissions);
    }
  }

  /** Whatever `next` withdraws is withdrawn, saved or not. */
  lemma NarrowsAtOnce(s: ConsentState, next: LocalConsent, saved: bool, cap: Capability)
    ensures !next.Allowed().Permits(cap) ==> !Updated(s, next, saved).current.Allowed().Permits(cap)
    ensures next.Granted? && next.permissions.blurScreenshots ==> Updated(s, next, saved).current.Allowed().blurScreenshots
  {
    if s.current.Granted? && next.Granted? {
      IntersectIsGreatestLowerBound(s.current.permissions, next.permissions, s.current.permissions.Intersect(next.permissions));
    }
  }

  /** An update that reports success has the choice on record exactly when it differs from the consent
      in memory, or the record already held it: repeating a choice is never saved again. */
  lemma SuccessIsDurable(s: ConsentState, next: LocalConsent, saved: bool)
    requires s.durable.Some? && UpdateSucceeds(s, next, saved)
    ensures Updated(s, next, saved).durable == Some(next) <==> s.current != next || s.durable == Some(next)
  {
  }

  /** So a revocation whose save failed is reported as done when repeated, and undone by a restart. */
  lemma RepeatedRevocationIsNotSaved(granted: Permissions)
    ensures var s := ConsentState(Granted(granted), Some(Granted(granted)));
            var failed := Updated(s, Revoked, false);
            var repeated := Updated(failed, Revoked, true);
            && !UpdateSucceeds(s, Revoked, false)
            && UpdateSucceeds(failed, Revoked, true)
            && repeated.current == Revoked && repeated.durable == Some(Granted(granted))
            && After(repeated, Restart(true)).current == Granted(granted)
  {
  }
}
