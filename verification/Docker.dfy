/** The Docker daemon and the health probe as the updater sees them: operations that may fail
    at any point, and what each may have changed by then. */
module Docker {
  import opened Wrappers

  type Service = string
  type ImageId = nat

  /** An image reference, repository and tag. */
  datatype Ref = Ref(repo: string, tag: string)

  /** What an onlooker sees at one moment of an upgrade: the running images, the services recreated
      since the upgrade began, and those confirmed healthy on the new version since they last were. */
  datatype Instant = Instant(running: map<Service, ImageId>, recreated: set<Service>, confirmed: set<Service>)

  predicate SameImage(a: map<Service, ImageId>, b: map<Service, ImageId>, s: Service) {
    (s in a <==> s in b) && (s in a ==> a[s] == b[s])
  }

  /** The image a compose run would start the service on: the override's pin, else the compose file's. */
  function Pinned(pins: map<Service, Ref>, base: map<Service, Ref>, s: Service): Option<Ref> {
    if s in pins then Some(pins[s]) else if s in base then Some(base[s]) else None
  }

  predicate Startable(pins: map<Service, Ref>, base: map<Service, Ref>, tags: map<Ref, ImageId>, s: Service) {
    Pinned(pins, base, s).Some? && Pinned(pins, base, s).value in tags
  }

  function Names(services: seq<Service>): set<Service> { set s | s in services }

  /** Services other than these are on the same image, or absent, in both. */
  ghost predicate SameElsewhere(a: map<Service, ImageId>, b: map<Service, ImageId>, services: seq<Service>) {
    forall s :: s !in services ==> SameImage(a, b, s)
  }

  /** Each of these services runs the image it is pinned to. */
  predicate OnPins(running: map<Service, ImageId>, services: seq<Service>, pins: map<Service, Ref>,
                   base: map<Service, Ref>, tags: map<Ref, ImageId>)
  {
    forall s :: s in services ==>
      Startable(pins, base, tags, s) && s in running && running[s] == tags[Pinned(pins, base, s).value]
  }

  /** The service is gone, as it was, or on the image it is pinned to. */
  predicate OldOrPinned(before: map<Service, ImageId>, after: map<Service, ImageId>, pins: map<Service, Ref>,
                        base: map<Service, Ref>, tags: map<Ref, ImageId>, s: Service)
  {
    s in after ==>
      || (s in before && after[s] == before[s])
      || (Startable(pins, base, tags, s) && after[s] == tags[Pinned(pins, base, s).value])
  }

  predicate OldOrOnPins(before: map<Service, ImageId>, after: map<Service, ImageId>, services: seq<Service>,
                        pins: map<Service, Ref>, base: map<Service, Ref>, tags: map<Ref, ImageId>)
  {
    forall s :: s in services ==> OldOrPinned(before, after, pins, base, tags, s)
  }

  /** The containers after a compose run that recreated just the services in `made` and lost just those
      in `gone`. */
  function AfterCompose(before: map<Service, ImageId>, services: seq<Service>, pins: map<Service, Ref>,
                        base: map<Service, Ref>, tags: map<Ref, ImageId>, made: set<Service>, gone: set<Service>)
    : (after: map<Service, ImageId>)
    ensures SameElsewhere(after, before, services) && OldOrOnPins(before, after, services, pins, base, tags)
    ensures (forall s :: s in services ==> s in made && s !in gone && Startable(pins, base, tags, s))
            ==> OnPins(after, services, pins, base, tags)
  {
    var begun := set s | s in services && s in made && s !in gone && Startable(pins, base, tags, s);
    var lost := set s | s in services && s in gone;
    map s | s in (before.Keys - lost) + begun ::
      if s in begun then tags[Pinned(pins, base, s).value] else before[s]
  }

  class Daemon {
    var running: map<Service, ImageId>
    var tags: map<Ref, ImageId>
    const base: map<Service, Ref>
    var ups: nat                      // compose runs so far

    ghost var faults: nat                 // operations that failed so far
    ghost var unanswered: set<Service>    // running services whose inspection failed
    ghost var recreated: set<Service>
    ghost var confirmed: set<Service>
    ghost var instants: seq<Instant>

    constructor (images: map<Service, ImageId>, refs: map<Ref, ImageId>, compose: map<Service, Ref>)
      ensures running == images && tags == refs && base == compose && ups == 0
    {
      running, tags, base, ups := images, refs, compose, 0;
      faults, unanswered, recreated, confirmed, instants := 0, {}, {}, {}, [];
    }

    /** Starts a fresh observation. */
    ghost method Observe()
      modifies this`recreated, this`confirmed, this`instants
      ensures recreated == {} && confirmed == {} && instants == []
    {
      recreated, confirmed, instants := {}, {}, [];
    }

    method Load(ref: Ref, id: ImageId) returns (ok: bool)
      modifies this`tags, this`faults
      ensures faults == old(faults) + if ok then 0 else 1
      ensures ok ==> tags == old(tags)[ref := id]
      ensures !ok ==> tags == old(tags) || tags == old(tags)[ref := id]
    {
      ok := *;
      var landed: bool := *;
      if ok || landed { tags := tags[ref := id]; }
      if !ok { Fault(); }
    }

    /** The inspection fails for a service that is not running, and may fail for one that is. */
    method RunningImageId(s: Service) returns (id: Option<ImageId>)
      modifies this`unanswered
      ensures id.Some? ==> s in running && id.value == running[s] && unanswered == old(unanswered)
      ensures id.None? ==> unanswered == if s in running then old(unanswered) + {s} else old(unanswered)
    {
      var answered: bool := *;
      if answered && s in running { return Some(running[s]); }
      if s in running { unanswered := unanswered + {s}; }
      return None;
    }

    /** Something failed. */
    ghost method Fault()
      modifies this`faults
      ensures faults == old(faults) + 1
    {
      faults := faults + 1;
    }

    ghost method ForgetInspections()
      modifies this`unanswered
      ensures unanswered == {}
    {
      unanswered := {};
    }

    method Tag(id: ImageId, ref: Ref) returns (ok: bool)
      modifies this`tags, this`faults
      ensures faults == old(faults) + if ok then 0 else 1
      ensures tags == if ok then old(tags)[ref := id] else old(tags)
    {
      ok := *;
      if ok { tags := tags[ref := id]; } else { Fault(); }
    }

    /** Recreates the services.  On failure each of them may still be on its old image, already on the
        new one, or gone; no other service is touched.  The run is seen with all its services down, at any
        number of moments with any of them recreated or gone, and as it ends. */
    method ComposeUp(services: seq<Service>, pins: map<Service, Ref>) returns (ok: bool)
      modifies this`running, this`ups, this`faults, this`recreated, this`confirmed, this`instants
      ensures ups == old(ups) + 1 && faults == old(faults) + if ok then 0 else 1
      ensures ok ==> OnPins(running, services, pins, base, tags)
      ensures OldOrOnPins(old(running), running, services, pins, base, tags)
      ensures SameElsewhere(running, old(running), services)
      ensures recreated == old(recreated) + Names(services) && confirmed == old(confirmed) - Names(services)
      ensures old(instants) <= instants
      ensures forall k :: |old(instants)| <= k < |instants| ==> Seen(instants[k], old(running), services)
    {
      ghost var names := Names(services);
      recreated, confirmed := recreated + names, confirmed - names;
      ghost var down := Instant(running - names, recreated, confirmed);
      assert Seen(down, running, services);
      ghost var moments: seq<(set<Service>, set<Service>)> := *;
      ghost var between := Moments(services, pins, moments);
      ups := ups + 1;
      ok := *;
      if exists s :: s in services && !Startable(pins, base, tags, s) { ok := false; }
      var made: set<Service> := *;
      var gone: set<Service> := *;
      if ok { made, gone := Names(services), {}; }
      running := AfterCompose(running, services, pins, base, tags, made, gone);
      if !ok { Fault(); }
      instants := instants + ([down] + between + [Instant(running, recreated, confirmed)]);
    }

    /** The daemon at moments of a compose run, each given by what is recreated and what is gone. */
    ghost function Moments(services: seq<Service>, pins: map<Service, Ref>, ms: seq<(set<Service>, set<Service>)>)
      : (shown: seq<Instant>)
      reads this
      ensures |shown| == |ms| && forall k :: 0 <= k < |shown| ==> Seen(shown[k], running, services)
    {
      seq(|ms|, k requires 0 <= k < |ms| reads this =>
        Instant(AfterCompose(running, services, pins, base, tags, ms[k].0, ms[k].1), recreated, confirmed))
    }

    /** The instant shows the current bookkeeping, with every other service as it was. */
    ghost predicate Seen(i: Instant, before: map<Service, ImageId>, services: seq<Service>)
      reads this`recreated, this`confirmed
    {
      i.recreated == recreated && i.confirmed == confirmed && SameElsewhere(i.running, before, services)
    }

    /** Waits for the service to answer healthy on the wanted version; "" accepts any version. */
    method WaitHealthy(s: Service, want: string) returns (ok: bool)
      modifies this`confirmed, this`instants, this`faults
      ensures faults == old(faults) + if ok then 0 else 1
      ensures confirmed == if ok && want != "" then old(confirmed) + {s} else old(confirmed)
      ensures instants == old(instants) + [Instant(running, recreated, confirmed)]
    {
      ok := *;
      if ok && want != "" { confirmed := confirmed + {s}; }
      if !ok { Fault(); }
      instants := instants + [Instant(running, recreated, confirmed)];
    }
  }
}
