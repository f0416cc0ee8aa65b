/** The updater at work on a daemon that may fail it at every call. */
module UpdaterMachine {
  import opened Wrappers
  import opened Docker
  import opened Updater
  import ConfigMerge

  /** At this instant the replica is serving: still untouched on the image it started on, or confirmed
      healthy on the new version. */
  predicate Serving(i: Instant, start: map<Service, ImageId>, b: Service) {
    b in i.confirmed || (b !in i.recreated && SameImage(i.running, start, b))
  }

  predicate AtMostOneOut(i: Instant, start: map<Service, ImageId>, backends: seq<Service>) {
    forall a, b :: a in backends && b in backends && !Serving(i, start, a) && !Serving(i, start, b) ==> a == b
  }

  ghost predicate AlwaysAtMostOneOut(instants: seq<Instant>, start: map<Service, ImageId>, backends: seq<Service>) {
    forall k :: 0 <= k < |instants| ==> AtMostOneOut(instants[k], start, backends)
  }

  function Backends(backends: seq<Service>, i: Instant, start: map<Service, ImageId>): set<Service> {
    set b | b in backends && Serving(i, start, b)
  }

  /** At most one out means at least n - 1 of n serving. */
  lemma AllButOneServe(i: Instant, start: map<Service, ImageId>, backends: seq<Service>)
    requires Distinct(backends) && AtMostOneOut(i, start, backends)
    ensures |Backends(backends, i, start)| >= |backends| - 1
  {
    var all := Names(backends);
    NamesSize(backends);
    var serving := Backends(backends, i, start);
    assert serving <= all;
    if all - serving != {} {
      var out :| out in all - serving;
      assert all == serving + {out};
    } else {
      assert forall b :: b in all ==> b in serving || b in all - serving;
      assert all == serving;
    }
  }

  lemma {:induction false} NamesSize(backends: seq<Service>)
    requires Distinct(backends)
    ensures |Names(backends)| == |backends|
  {
    if backends != [] {
      var init, b := backends[..|backends| - 1], backends[|backends| - 1];
      NamesSize(init);
      assert backends == init + [b];
      assert Names(backends) == Names(init) + {b} && b !in Names(init);
    }
  }

  /** Only rollback refs may differ. */
  ghost predicate SameReleases(a: map<Ref, ImageId>, b: map<Ref, ImageId>) {
    forall r: Ref :: r.tag != ROLLBACK ==> (r in a <==> r in b) && (r in a ==> a[r] == b[r])
  }

  lemma SameReleasesTrans(a: map<Ref, ImageId>, b: map<Ref, ImageId>, c: map<Ref, ImageId>)
    requires SameReleases(a, b) && SameReleases(b, c)
    ensures SameReleases(a, c)
  {
  }

  lemma SourceKept(anchors: map<Service, Ref>, running: map<Service, ImageId>, tags: map<Ref, ImageId>, s: Service,
                   rb: Ref, out: map<Service, Ref>, tags': map<Ref, ImageId>, x: Service)
    requires s in running && (s in anchors ==> anchors[s] == rb)
    requires out == anchors[s := rb] && tags' == tags[rb := running[s]]
    requires x in out && out[x] in tags' && (out[x] != rb ==> anchors[x] in tags && HasSource(anchors, running, tags, x))
    ensures HasSource(out, running, tags', x)
  {
    if out[x] == rb {
      assert s in out && out[s] == out[x];
    } else {
      var q :| q in anchors && q in running && anchors[q] == anchors[x] && tags[anchors[x]] == running[q];
      assert q in out && out[q] == out[x];
    }
  }

  lemma AnchorAdded(anchors: map<Service, Ref>, running: map<Service, ImageId>, tags: map<Ref, ImageId>, s: Service, rb: Ref)
    requires Anchored(anchors, running, tags) && rb.tag == ROLLBACK && s in running
    requires s in anchors ==> anchors[s] == rb
    ensures Anchored(anchors[s := rb], running, tags[rb := running[s]])
  {
    var out, tags' := anchors[s := rb], tags[rb := running[s]];
    forall x | x in out ensures x in running && out[x].tag == ROLLBACK && out[x] in tags' {
    }
    forall x | x in out ensures HasSource(out, running, tags', x) {
      assert out[x] != rb ==> HasSource(anchors, running, tags, x);
      SourceKept(anchors, running, tags, s, rb, out, tags', x);
    }
  }

  /** Each of these services that is running and was inspected is anchored. */
  predicate CoveredSome(anchors: map<Service, Ref>, services: seq<Service>, running: map<Service, ImageId>,
                        unanswered: set<Service>)
  {
    forall s :: s in services && s in running && s !in unanswered ==> s in anchors
  }

  lemma CoveredSomeGrows(before: map<Service, Ref>, after: map<Service, Ref>, services: seq<Service>, j: nat,
                         running: map<Service, ImageId>, missing: set<Service>, now: set<Service>)
    requires j < |services| && CoveredSome(before, services[..j], running, missing)
    requires before.Keys <= after.Keys && missing <= now && (services[j] in running && services[j] !in now ==> services[j] in after)
    ensures CoveredSome(after, services[..j + 1], running, now)
  {
    assert services[..j + 1] == services[..j] + [services[j]];
  }

  lemma CoveredSomeIsAll(anchors: map<Service, Ref>, services: seq<Service>, im: Image, backends: seq<Service>,
                         running: map<Service, ImageId>, unanswered: set<Service>)
    requires services == ServicesFor(backends, im.component) && CoveredSome(anchors, services[..|services|], running, unanswered)
    ensures Covers(anchors, im, backends, running, unanswered)
  {
    assert services[..|services|] == services;
  }

  /** Anchoring a service of the image under the image's name keeps where the anchors come from. */
  lemma AnchorsOfGrows(before: map<Service, Ref>, after: map<Service, Ref>, images: seq<Image>, backends: seq<Service>, im: Image,
                       s: Service)
    requires AnchorsOf(before, images, backends) && im in images && im.component != UPDATER
    requires s in ServicesFor(backends, im.component) && (after == before || after == before[s := Ref(im.repo, ROLLBACK)])
    ensures AnchorsOf(after, images, backends) && before.Keys <= after.Keys
  {
  }

  /** A service of the image may be anchored under the image's name. */
  lemma AnchorFits(anchors: map<Service, Ref>, images: seq<Image>, backends: seq<Service>, im: Image, s: Service)
    requires AnchorsOf(anchors, images, backends) && im in images && im.component != UPDATER
    requires s in ServicesFor(backends, im.component)
    ensures Unambiguous(images, backends) && s in anchors ==> anchors[s] == Ref(im.repo, ROLLBACK)
    ensures AnchorsOf(anchors[s := Ref(im.repo, ROLLBACK)], images, backends)
  {
  }

  /** Recreating some services on the pins keeps the others there. */
  lemma PinsKept(before: map<Service, ImageId>, after: map<Service, ImageId>, settled: seq<Service>, more: seq<Service>,
                 pins: map<Service, Ref>, base: map<Service, Ref>, tags: map<Ref, ImageId>)
    requires OnPins(before, settled, pins, base, tags) && OnPins(after, more, pins, base, tags)
    requires SameElsewhere(after, before, more)
    ensures OnPins(after, settled + more, pins, base, tags)
  {
    forall s | s in settled + more
      ensures Startable(pins, base, tags, s) && s in after && after[s] == tags[Pinned(pins, base, s).value]
    {
      if s !in more { assert SameImage(after, before, s); }
    }
  }

  /** Services outside these components' are never recreated by the swap, and those it recreates are gone, as
      they were, or on their pins. */
  ghost predicate OnlyListed(after: map<Service, ImageId>, before: map<Service, ImageId>, components: seq<string>,
                             backends: seq<Service>, pins: map<Service, Ref>, base: map<Service, Ref>, tags: map<Ref, ImageId>)
  {
    && (forall s :: !Upgraded(components, backends, s) ==> SameImage(after, before, s))
    && (forall s :: OldOrPinned(before, after, pins, base, tags, s))
  }

  /** Everyone but replica `n` serves. */
  lemma OneOut(i: Instant, start: map<Service, ImageId>, backends: seq<Service>, n: nat)
    requires n < |backends| && forall k :: 0 <= k < |backends| && k != n ==> Serving(i, start, backends[k])
    ensures AtMostOneOut(i, start, backends)
  {
  }

  /** A roll that has reached replica `n`: those before it are confirmed, those after it untouched. */
  predicate RolledTo(n: nat, backends: seq<Service>, start: map<Service, ImageId>, running: map<Service, ImageId>,
                     recreated: set<Service>, confirmed: set<Service>)
  {
    && (forall k :: 0 <= k < n && k < |backends| ==> backends[k] in confirmed)
    && (forall k :: n <= k < |backends| ==> backends[k] !in recreated && SameImage(running, start, backends[k]))
  }

  lemma RollingInstant(i: Instant, n: nat, backends: seq<Service>, start: map<Service, ImageId>, running: map<Service, ImageId>,
                       recreated: set<Service>, confirmed: set<Service>)
    requires n < |backends| && Distinct(backends) && RolledTo(n, backends, start, running, recreated, confirmed)
    requires i.recreated == recreated + {backends[n]} && confirmed - {backends[n]} <= i.confirmed
    requires SameElsewhere(i.running, running, [backends[n]])
    ensures AtMostOneOut(i, start, backends)
    ensures backends[n] in i.confirmed ==> RolledTo(n + 1, backends, start, i.running, i.recreated, i.confirmed)
  {
    forall k | 0 <= k < |backends| && k != n ensures Serving(i, start, backends[k]) {
      assert backends[k] != backends[n];
      assert SameImage(i.running, running, backends[k]);
    }
    OneOut(i, start, backends, n);
    forall k | n < k < |backends| ensures SameImage(i.running, start, backends[k]) {
      assert backends[k] != backends[n];
      assert SameImage(i.running, running, backends[k]);
    }
  }

  /** Recreating services that are no replicas leaves every replica serving. */
  lemma BystanderInstant(i: Instant, services: seq<Service>, backends: seq<Service>, start: map<Service, ImageId>,
                         running: map<Service, ImageId>, recreated: set<Service>, confirmed: set<Service>)
    requires RolledTo(0, backends, start, running, recreated, confirmed)
    requires forall s :: s in services ==> s !in backends
    requires i.recreated == recreated + Names(services) && SameElsewhere(i.running, running, services)
    ensures AtMostOneOut(i, start, backends)
    ensures RolledTo(0, backends, start, i.running, i.recreated, i.confirmed)
  {
    forall k | 0 <= k < |backends| ensures SameImage(i.running, start, backends[k]) && backends[k] !in i.recreated {
      assert SameImage(i.running, running, backends[k]);
    }
  }

  /** Recreating some services leaves every service gone, as it was at the start, or on its pin. */
  lemma OldOrPinnedTrans(a: map<Service, ImageId>, b: map<Service, ImageId>, c: map<Service, ImageId>, services: seq<Service>,
                         pins: map<Service, Ref>, base: map<Service, Ref>, tags: map<Ref, ImageId>, s: Service)
    requires OldOrPinned(a, b, pins, base, tags, s)
    requires SameElsewhere(c, b, services) && OldOrOnPins(b, c, services, pins, base, tags)
    ensures OldOrPinned(a, c, pins, base, tags, s)
  {
    if s in services { assert OldOrPinned(b, c, pins, base, tags, s); } else { assert SameImage(c, b, s); }
  }

  lemma ListedStays(a: map<Service, ImageId>, b: map<Service, ImageId>, c: map<Service, ImageId>, services: seq<Service>,
                    components: seq<string>, backends: seq<Service>, pins: map<Service, Ref>, base: map<Service, Ref>,
                    tags: map<Ref, ImageId>)
    requires OnlyListed(b, a, components, backends, pins, base, tags)
    requires SameElsewhere(c, b, services) && OldOrOnPins(b, c, services, pins, base, tags)
    requires forall s :: s in services ==> Upgraded(components, backends, s)
    ensures OnlyListed(c, a, components, backends, pins, base, tags)
  {
    forall s | !Upgraded(components, backends, s) ensures SameImage(c, a, s) {
      assert SameImage(b, a, s) && SameImage(c, b, s);
    }
    forall s ensures OldOrPinned(a, c, pins, base, tags, s) {
      OldOrPinnedTrans(a, b, c, services, pins, base, tags, s);
    }
  }

  lemma SameElsewhereTrans(a: map<Service, ImageId>, b: map<Service, ImageId>, c: map<Service, ImageId>,
                           some: seq<Service>, all: seq<Service>)
    requires SameElsewhere(b, a, all) && SameElsewhere(c, b, some) && forall s :: s in some ==> s in all
    ensures SameElsewhere(c, a, all)
  {
    forall s | s !in all ensures SameImage(c, a, s) {
      assert SameImage(b, a, s) && SameImage(c, b, s);
    }
  }

  /** Every listed service except the updater's own runs what it is pinned to. */
  ghost predicate AllOnPins(running: map<Service, ImageId>, components: seq<string>, backends: seq<Service>,
                            pins: map<Service, Ref>, base: map<Service, Ref>, tags: map<Ref, ImageId>)
  {
    forall s :: Upgraded(components, backends, s) ==>
      Startable(pins, base, tags, s) && s in running && running[s] == tags[Pinned(pins, base, s).value]
  }

  /** Every service of every listed component, the updater's own aside, runs the image the manifest
      names for its component. */
  ghost predicate RunsItsImages(m: Manifest, backends: seq<Service>, running: map<Service, ImageId>) {
    forall im, s ::
      im in m.images && im.component in m.components && im.component != UPDATER && s in ServicesFor(backends, im.component)
      ==> s in running && running[s] == im.id
  }

  predicate Tidy(m: Manifest, backends: seq<Service>) {
    OneImageEach(m.images) && OwnImageServices(m.images, backends) && forall im :: im in m.images ==> im.tag != ROLLBACK
  }

  /** The environment file has what the bundle adds: it is untouched if nothing was missing, and the merged text
      otherwise. */
  predicate Migrated(before: string, after: string, additions: seq<ConfigMerge.Addition>, secrets: seq<Option<string>>)
    requires |additions| == |secrets|
  {
    if additions == [] then after == before
    else var m := ConfigMerge.Merge(before, additions, secrets);
         m.Ok? && after == if m.value.1 == [] then before else m.value.0
  }

  /** The replicas that are there run the same image. */
  predicate StartedAlike(backends: seq<Service>, running: map<Service, ImageId>) {
    forall b, c :: b in backends && c in backends && b in running && c in running ==> running[b] == running[c]
  }

  ghost predicate Loaded(tags: map<Ref, ImageId>, images: seq<Image>) {
    forall im :: im in images ==> RefOf(im) in tags && tags[RefOf(im)] == im.id
  }

  /** Frontend, sidecars and backend replicas together are all the listed services. */
  lemma SettledIsAll(running: map<Service, ImageId>, settled: seq<Service>, components: seq<string>, backends: seq<Service>,
                     pins: map<Service, Ref>, base: map<Service, Ref>, tags: map<Ref, ImageId>)
    requires OnPins(running, settled, pins, base, tags)
    requires forall c :: c in components && c != "backend" && c != UPDATER ==> c in settled
    requires "backend" in components ==> forall s :: s in ServicesFor(backends, "backend") ==> s in settled
    ensures AllOnPins(running, components, backends, pins, base, tags)
  {
    forall s | Upgraded(components, backends, s) ensures s in settled {
      var c :| c in components && c != UPDATER && s in ServicesFor(backends, c);
    }
  }

  class Machine {
    const docker: Daemon
    const env: ConfigMerge.EnvFile
    const backends: seq<Service>
    var status: Status
    var helpers: seq<Ref>  // images a detached helper was launched from
    ghost var mark: nat    // how much of the upgrade was observed before a rollback began

    constructor (d: Daemon, e: ConfigMerge.EnvFile, replicas: seq<Service>)
      ensures docker == d && env == e && backends == replicas && status == Idle
    {
      docker, env, backends, status, helpers, mark := d, e, replicas, Idle, [], 0;
    }

    method LoadImages(images: seq<Image>) returns (ok: bool)
      modifies docker`tags, docker`faults
      ensures ok && OneImageEach(images) ==> Loaded(docker.tags, images)
      ensures docker.faults >= old(docker.faults) && (!ok ==> docker.faults > old(docker.faults))
    {
      var order := SortedImages(images);
      for n := 0 to |order|
        invariant docker.faults >= old(docker.faults)
        invariant OneImageEach(images) ==>
          forall k :: 0 <= k < n ==> RefOf(order[k]) in docker.tags && docker.tags[RefOf(order[k])] == order[k].id
      {
        ok := docker.Load(RefOf(order[n]), order[n].id);
        if !ok { return false; }
        assert order[n] in images;
      }
      return true;
    }

    /** Tags the service's running image under the component's rollback ref.  A service that cannot be
        inspected goes without an anchor. */
    method AnchorService(s: Service, rb: Ref, anchors: map<Service, Ref>) returns (ok: bool, out: map<Service, Ref>)
      requires rb.tag == ROLLBACK
      modifies docker`tags, docker`unanswered, docker`faults
      ensures ok && old(Anchored(anchors, docker.running, docker.tags)) && (s in anchors ==> anchors[s] == rb)
              ==> Anchored(out, docker.running, docker.tags)
      ensures out == anchors || out == anchors[s := rb]
      ensures old(docker.unanswered) <= docker.unanswered
      ensures ok && s in docker.running && s !in docker.unanswered ==> s in out
      ensures SameReleases(docker.tags, old(docker.tags))
      ensures docker.faults >= old(docker.faults) && (!ok ==> docker.faults > old(docker.faults))
    {
      var id := docker.RunningImageId(s);
      if id.None? { return true, anchors; }
      ok := docker.Tag(id.value, rb);
      if !ok { return false, anchors; }
      out := anchors[s := rb];
      if old(Anchored(anchors, docker.running, docker.tags)) && (s in anchors ==> anchors[s] == rb) {
        AnchorAdded(anchors, docker.running, old(docker.tags), s, rb);
      }
    }

    /** Anchors every service of one image of the bundle. */
    method AnchorImage(im: Image, images: seq<Image>, anchors: map<Service, Ref>) returns (ok: bool, out: map<Service, Ref>)
      requires im in images && im.component != UPDATER && AnchorsOf(anchors, images, backends)
      requires Unambiguous(images, backends) ==> Anchored(anchors, docker.running, docker.tags)
      modifies docker`tags, docker`unanswered, docker`faults
      ensures ok && Unambiguous(images, backends) ==> Anchored(out, docker.running, docker.tags)
      ensures AnchorsOf(out, images, backends) && SameReleases(docker.tags, old(docker.tags))
      ensures old(docker.unanswered) <= docker.unanswered && anchors.Keys <= out.Keys
      ensures ok ==> Covers(out, im, backends, docker.running, docker.unanswered)
      ensures docker.faults >= old(docker.faults) && (!ok ==> docker.faults > old(docker.faults))
    {
      out := anchors;
      var svcs := ServicesFor(backends, im.component);
      var rb := Ref(im.repo, ROLLBACK);
      for j := 0 to |svcs|
        invariant docker.faults >= old(docker.faults)
        invariant Unambiguous(images, backends) ==> Anchored(out, docker.running, docker.tags)
        invariant AnchorsOf(out, images, backends) && SameReleases(docker.tags, old(docker.tags))
        invariant old(docker.unanswered) <= docker.unanswered && anchors.Keys <= out.Keys
        invariant CoveredSome(out, svcs[..j], docker.running, docker.unanswered)
      {
        AnchorFits(out, images, backends, im, svcs[j]);
        ghost var before, missing, tags := out, docker.unanswered, docker.tags;
        ok, out := AnchorService(svcs[j], rb, out);
        SameReleasesTrans(docker.tags, tags, old(docker.tags));
        AnchorsOfGrows(before, out, images, backends, im, svcs[j]);
        if !ok { return; }
        CoveredSomeGrows(before, out, svcs, j, docker.running, missing, docker.unanswered);
      }
      CoveredSomeIsAll(out, svcs, im, backends, docker.running, docker.unanswered);
      return true, out;
    }

    /** Anchors every service of every component of the bundle but the updater's own. */
    method AnchorAll(images: seq<Image>) returns (ok: bool, anchors: map<Service, Ref>)
      modifies docker`tags, docker`unanswered, docker`faults
      ensures ok && Unambiguous(images, backends) ==> Anchored(anchors, docker.running, docker.tags)
      ensures ok ==> Covered(anchors, images, backends, docker.running, docker.unanswered)
      ensures AnchorsOf(anchors, images, backends)
      ensures SameReleases(docker.tags, old(docker.tags))
      ensures docker.faults >= old(docker.faults) && (!ok ==> docker.faults > old(docker.faults))
    {
      anchors := map[];
      docker.ForgetInspections();
      var order := SortedImages(images);
      for n := 0 to |order|
        invariant docker.faults >= old(docker.faults)
        invariant Unambiguous(images, backends) ==> Anchored(anchors, docker.running, docker.tags)
        invariant Covered(anchors, order[..n], backends, docker.running, docker.unanswered)
        invariant AnchorsOf(anchors, images, backends)
        invariant SameReleases(docker.tags, old(docker.tags))
      {
        var im := order[n];
        assert order[..n + 1] == order[..n] + [im];
        ghost var before, missing, tags := anchors, docker.unanswered, docker.tags;
        if im.component != UPDATER {
          assert im in images;
          ok, anchors := AnchorImage(im, images, anchors);
          SameReleasesTrans(docker.tags, tags, old(docker.tags));
          if !ok { return; }
        }
        CoveredGrows(order[..n], im, before, anchors, missing, docker.unanswered, docker.running);
      }
      AllCovered(anchors, order, images, docker.running, docker.unanswered);
      return true, anchors;
    }

    lemma AllCovered(anchors: map<Service, Ref>, order: seq<Image>, images: seq<Image>, running: map<Service, ImageId>,
                     unanswered: set<Service>)
      requires Covered(anchors, order[..|order|], backends, running, unanswered) && forall im :: im in images ==> im in order
      ensures Covered(anchors, images, backends, running, unanswered)
    {
      assert order[..|order|] == order;
    }

    lemma CoveredGrows(images: seq<Image>, im: Image, before: map<Service, Ref>, after: map<Service, Ref>,
                       missing: set<Service>, now: set<Service>, running: map<Service, ImageId>)
      requires Covered(before, images, backends, running, missing) && before.Keys <= after.Keys && missing <= now
      requires Covers(after, im, backends, running, now)
      ensures Covered(after, images + [im], backends, running, now)
    {
      forall x, s | x in images + [im] && Anchorable(x, backends, running, now, s) ensures s in after {
        if x in images { assert Anchorable(x, backends, running, missing, s); }
      }
    }

    method WriteOverride() returns (ok: bool)
      modifies docker`faults
      ensures docker.faults >= old(docker.faults) && (!ok ==> docker.faults > old(docker.faults))
    {
      ok := *;
      if !ok { docker.Fault(); }
    }

    /** One compose run of a whole swap, with what is known afterwards. */
    method Up(services: seq<Service>, pins: map<Service, Ref>, ghost settled: seq<Service>) returns (ok: bool)
      requires OnPins(docker.running, settled, pins, docker.base, docker.tags)
      modifies docker`running, docker`ups, docker`faults, docker`recreated, docker`confirmed, docker`instants
      ensures docker.ups > old(docker.ups)
      ensures ok ==> OnPins(docker.running, settled + services, pins, docker.base, docker.tags)
      ensures SameElsewhere(docker.running, old(docker.running), services)
      ensures OldOrOnPins(old(docker.running), docker.running, services, pins, docker.base, docker.tags)
      ensures docker.recreated == old(docker.recreated) + Names(services)
      ensures docker.confirmed == old(docker.confirmed) - Names(services)
      ensures old(docker.instants) <= docker.instants
      ensures forall k :: |old(docker.instants)| <= k < |docker.instants| ==>
                docker.Seen(docker.instants[k], old(docker.running), services)
      ensures docker.faults >= old(docker.faults) && (!ok ==> docker.faults > old(docker.faults))
    {
      ghost var before := docker.running;
      ok := docker.ComposeUp(services, pins);
      if ok { PinsKept(before, docker.running, settled, services, pins, docker.base, docker.tags); }
    }

    /** Rolls the replicas one at a time, gating each on its health. */
    method RollBackends(version: string, pins: map<Service, Ref>, ghost settled: seq<Service>,
                        ghost start: map<Service, ImageId>) returns (ok: bool)
      requires version != "" && OnPins(docker.running, settled, pins, docker.base, docker.tags)
      modifies docker`running, docker`ups, docker`faults, docker`recreated, docker`confirmed, docker`instants
      ensures ok ==> OnPins(docker.running, settled + backends, pins, docker.base, docker.tags)
      ensures ok ==> forall b :: b in backends ==> b in docker.confirmed
      ensures SameElsewhere(docker.running, old(docker.running), backends)
      ensures OldOrOnPins(old(docker.running), docker.running, backends, pins, docker.base, docker.tags)
      ensures docker.ups >= old(docker.ups) && (!ok ==> docker.ups > old(docker.ups))
      ensures Distinct(backends) && old(AlwaysAtMostOneOut(docker.instants, start, backends))
              && old(RolledTo(0, backends, start, docker.running, docker.recreated, docker.confirmed))
              ==> AlwaysAtMostOneOut(docker.instants, start, backends)
      ensures docker.faults >= old(docker.faults) && (!ok ==> docker.faults > old(docker.faults))
    {
      ghost var tracked := Distinct(backends) && AlwaysAtMostOneOut(docker.instants, start, backends)
                           && RolledTo(0, backends, start, docker.running, docker.recreated, docker.confirmed);
      assert settled + backends[..0] == settled;
      for n := 0 to |backends|
        invariant docker.faults >= old(docker.faults)
        invariant OnPins(docker.running, settled + backends[..n], pins, docker.base, docker.tags)
        invariant SameElsewhere(docker.running, old(docker.running), backends)
        invariant OldOrOnPins(old(docker.running), docker.running, backends, pins, docker.base, docker.tags)
        invariant docker.ups >= old(docker.ups) && forall b :: b in backends[..n] ==> b in docker.confirmed
        invariant tracked ==> AlwaysAtMostOneOut(docker.instants, start, backends)
                              && RolledTo(n, backends, start, docker.running, docker.recreated, docker.confirmed)
      {
        ghost var running := docker.running;
        ok := RollOne(n, version, pins, settled + backends[..n], start);
        SameElsewhereTrans(old(docker.running), running, docker.running, [backends[n]], backends);
        forall s | s in backends ensures OldOrPinned(old(docker.running), docker.running, pins, docker.base, docker.tags, s) {
          OldOrPinnedTrans(old(docker.running), running, docker.running, [backends[n]], pins, docker.base, docker.tags, s);
        }
        if !ok { return; }
        assert settled + backends[..n] + [backends[n]] == settled + backends[..n + 1];
      }
      assert backends[..|backends|] == backends;
      return true;
    }

    method RollOne(n: nat, version: string, pins: map<Service, Ref>, ghost settled: seq<Service>,
                   ghost start: map<Service, ImageId>) returns (ok: bool)
      requires n < |backends| && version != "" && OnPins(docker.running, settled, pins, docker.base, docker.tags)
      modifies docker`running, docker`ups, docker`faults, docker`recreated, docker`confirmed, docker`instants
      ensures ok ==> OnPins(docker.running, settled + [backends[n]], pins, docker.base, docker.tags)
      ensures ok ==> docker.confirmed == old(docker.confirmed) + {backends[n]}
      ensures SameElsewhere(docker.running, old(docker.running), [backends[n]])
      ensures OldOrOnPins(old(docker.running), docker.running, [backends[n]], pins, docker.base, docker.tags)
      ensures docker.ups > old(docker.ups)
      ensures Distinct(backends) && old(AlwaysAtMostOneOut(docker.instants, start, backends))
              && old(RolledTo(n, backends, start, docker.running, docker.recreated, docker.confirmed))
              ==> AlwaysAtMostOneOut(docker.instants, start, backends)
                  && (ok ==> RolledTo(n + 1, backends, start, docker.running, docker.recreated, docker.confirmed))
      ensures docker.faults >= old(docker.faults) && (!ok ==> docker.faults > old(docker.faults))
    {
      ghost var running, recreated, confirmed, instants := docker.running, docker.recreated, docker.confirmed, docker.instants;
      ghost var tracked := Distinct(backends) && AlwaysAtMostOneOut(instants, start, backends)
                           && RolledTo(n, backends, start, running, recreated, confirmed);
      ok := Up([backends[n]], pins, settled);
      assert Names([backends[n]]) == {backends[n]};
      if tracked {
        forall k | |instants| <= k < |docker.instants| ensures AtMostOneOut(docker.instants[k], start, backends) {
          assert docker.Seen(docker.instants[k], running, [backends[n]]);
          RollingInstant(docker.instants[k], n, backends, start, running, recreated, confirmed);
        }
        assert AlwaysAtMostOneOut(docker.instants, start, backends);
      }
      if !ok { return; }
      ok := docker.WaitHealthy(backends[n], version);
      if tracked {
        RollingInstant(docker.instants[|docker.instants| - 1], n, backends, start, running, recreated, confirmed);
      }
    }

    /** The components swapped together after the frontend and before the backend. */
    method Sidecars(components: seq<string>) returns (out: seq<string>)
      ensures forall c :: c in out <==> c in components && c != "frontend" && c != "backend" && c != UPDATER
    {
      out := [];
      for n := 0 to |components|
        invariant forall c :: c in out <==> c in components[..n] && c != "frontend" && c != "backend" && c != UPDATER
      {
        if components[n] != "frontend" && components[n] != "backend" && components[n] != UPDATER {
          out := out + [components[n]];
        }
      }
    }

    /** A compose run of services that are no replicas, as one part of a swap. */
    method SwapAside(services: seq<Service>, m: Manifest, pins: map<Service, Ref>, ghost settled: seq<Service>,
                     ghost start: map<Service, ImageId>) returns (ok: bool)
      requires OnPins(docker.running, settled, pins, docker.base, docker.tags)
      requires OnlyListed(docker.running, start, m.components, backends, pins, docker.base, docker.tags)
      requires forall s :: s in services ==> s in m.components && s != "backend" && s != UPDATER
      modifies docker`running, docker`ups, docker`faults, docker`recreated, docker`confirmed, docker`instants
      ensures ok ==> OnPins(docker.running, settled + services, pins, docker.base, docker.tags)
      ensures OnlyListed(docker.running, start, m.components, backends, pins, docker.base, docker.tags)
      ensures docker.ups > old(docker.ups)
      ensures OwnServices(m.components, backends) && old(AlwaysAtMostOneOut(docker.instants, start, backends))
              && old(RolledTo(0, backends, start, docker.running, docker.recreated, docker.confirmed))
              ==> AlwaysAtMostOneOut(docker.instants, start, backends)
                  && RolledTo(0, backends, start, docker.running, docker.recreated, docker.confirmed)
      ensures docker.faults >= old(docker.faults) && (!ok ==> docker.faults > old(docker.faults))
    {
      ghost var running, recreated, confirmed, instants := docker.running, docker.recreated, docker.confirmed, docker.instants;
      ok := Up(services, pins, settled);
      forall s | s in services ensures Upgraded(m.components, backends, s) {
        assert s in ServicesFor(backends, s);
      }
      ListedStays(start, running, docker.running, services, m.components, backends, pins, docker.base, docker.tags);
      if OwnServices(m.components, backends) && AlwaysAtMostOneOut(instants, start, backends)
         && RolledTo(0, backends, start, running, recreated, confirmed) {
        forall k | |instants| <= k < |docker.instants| ensures AtMostOneOut(docker.instants[k], start, backends) {
          assert docker.Seen(docker.instants[k], running, services);
          BystanderInstant(docker.instants[k], services, backends, start, running, recreated, confirmed);
        }
        BystanderInstant(Instant(docker.running, docker.recreated, docker.confirmed), services, backends, start, running,
                         recreated, confirmed);
      }
    }

    /** The backend answered healthy on the new version: every replica when they were rolled, else the first. */
    predicate BackendConfirmed(m: Manifest, confirmed: set<Service>) {
      if m.additive && |backends| > 1 then forall b :: b in backends ==> b in confirmed
      else ServicesFor(backends, "backend")[0] in confirmed
    }

    /** The backend's part of a swap: rolling for an additive release over several replicas, all at
        once otherwise. */
    method SwapBackend(m: Manifest, pins: map<Service, Ref>, ghost settled: seq<Service>, ghost start: map<Service, ImageId>)
      returns (ok: bool)
      requires m.version != "" && "backend" in m.components && OnPins(docker.running, settled, pins, docker.base, docker.tags)
      requires OnlyListed(docker.running, start, m.components, backends, pins, docker.base, docker.tags)
      modifies docker`running, docker`ups, docker`faults, docker`recreated, docker`confirmed, docker`instants
      ensures ok ==> OnPins(docker.running, settled + ServicesFor(backends, "backend"), pins, docker.base, docker.tags)
      ensures ok ==> BackendConfirmed(m, docker.confirmed)
      ensures OnlyListed(docker.running, start, m.components, backends, pins, docker.base, docker.tags)
      ensures docker.ups >= old(docker.ups) && (!ok ==> docker.ups > old(docker.ups))
      ensures m.additive && |backends| > 1 && Distinct(backends)
              && old(AlwaysAtMostOneOut(docker.instants, start, backends))
              && old(RolledTo(0, backends, start, docker.running, docker.recreated, docker.confirmed))
              ==> AlwaysAtMostOneOut(docker.instants, start, backends)
      ensures docker.faults >= old(docker.faults) && (!ok ==> docker.faults > old(docker.faults))
    {
      var replicas := ServicesFor(backends, "backend");
      ghost var running := docker.running;
      if m.additive && |replicas| > 1 {
        ok := RollBackends(m.version, pins, settled, start);
      } else {
        ok := Up(replicas, pins, settled);
        if ok { ok := docker.WaitHealthy(replicas[0], m.version); }
      }
      forall s | s in replicas ensures Upgraded(m.components, backends, s) {
        assert s in ServicesFor(backends, "backend");
      }
      ListedStays(start, running, docker.running, replicas, m.components, backends, pins, docker.base, docker.tags);
    }

    /** Swaps every listed component: the frontend, then the sidecars, then the backend. */
    method Swap(m: Manifest, pins: map<Service, Ref>) returns (ok: bool)
      requires m.version != ""
      modifies docker`running, docker`ups, docker`faults, docker`recreated, docker`confirmed, docker`instants
      ensures ok ==> AllOnPins(docker.running, m.components, backends, pins, docker.base, docker.tags)
      ensures ok && "backend" in m.components ==> BackendConfirmed(m, docker.confirmed)
      ensures OnlyListed(docker.running, old(docker.running), m.components, backends, pins, docker.base, docker.tags)
      ensures docker.ups >= old(docker.ups) && (!ok ==> docker.ups > old(docker.ups))
      ensures m.additive && |backends| > 1 && Distinct(backends) && OwnServices(m.components, backends)
              ==> AlwaysAtMostOneOut(docker.instants, old(docker.running), backends)
      ensures docker.faults >= old(docker.faults) && (!ok ==> docker.faults > old(docker.faults))
    {
      ghost var start := docker.running;
      ghost var settled: seq<Service> := [];
      docker.Observe();
      if "frontend" in m.components {
        ok := SwapAside(["frontend"], m, pins, settled, start);
        if !ok { return; }
        settled := settled + ["frontend"];
      }
      var sidecars := Sidecars(m.components);
      if |sidecars| > 0 {
        ok := SwapAside(sidecars, m, pins, settled, start);
        if !ok { return; }
        settled := settled + sidecars;
      }
      if "backend" in m.components {
        ok := SwapBackend(m, pins, settled, start);
        if !ok { return; }
        settled := settled + ServicesFor(backends, "backend");
      }
      SettledIsAll(docker.running, settled, m.components, backends, pins, docker.base, docker.tags);
      return true;
    }

    method Anchors(anchors: map<Service, Ref>) returns (out: seq<Service>)
      ensures forall s :: s in out <==> s in anchors
    {
      out := [];
      var left := anchors.Keys;
      while left != {}
        invariant left <= anchors.Keys && forall s :: s in out <==> s in anchors && s !in left
      {
        var s :| s in left;
        out, left := out + [s], left - {s};
      }
    }

    /** Recreates the anchored services on their anchors; whatever happens the upgrade has failed. */
    method Rollback(anchors: map<Service, Ref>)
      modifies this`status, this`mark, docker`running, docker`ups, docker`faults, docker`recreated, docker`confirmed, docker`instants
      ensures status in {Failed(NoAnchor), Failed(OverrideFailed), Failed(RollbackFailed), Failed(RolledBack)}
      ensures status == Failed(NoAnchor) <==> anchors == map[]
      ensures status == Failed(RolledBack) ==>
                forall s :: s in anchors ==>
                  anchors[s] in docker.tags && s in docker.running && docker.running[s] == docker.tags[anchors[s]]
      ensures forall s :: s !in anchors ==> SameImage(docker.running, old(docker.running), s)
      ensures docker.ups >= old(docker.ups)
      ensures mark == |old(docker.instants)| && old(docker.instants) <= docker.instants
      ensures docker.faults >= old(docker.faults)
      ensures status == Failed(OverrideFailed) || status == Failed(RollbackFailed) ==> docker.faults > old(docker.faults)
    {
      mark := |docker.instants|;
      if |anchors| == 0 { status := Failed(NoAnchor); return; }
      var written := WriteOverride();
      if !written { status := Failed(OverrideFailed); return; }
      var services := Anchors(anchors);
      var ok := docker.ComposeUp(services, anchors);
      if !ok { status := Failed(RollbackFailed); return; }
      var _ := docker.WaitHealthy(ServicesFor(backends, "backend")[0], "");
      status := Failed(RolledBack);
    }

    /** Hands the updater's own replacement to a helper that outlives the pipeline, or fails to. */
    method SelfUpdate(image: Option<Ref>) returns (ok: bool)
      modifies this`helpers
      ensures ok ==> image.Some? && helpers == old(helpers) + [image.value]
      ensures !ok ==> helpers == old(helpers)
    {
      if image.None? { return false; }
      ok := *;
      if ok { helpers := helpers + [image.value]; }
    }

    /** Everything before the first service is recreated: merge the config, load the images, anchor the
        running ones and write the override. */
    method Prepare(m: Manifest, secrets: seq<Option<string>>)
      returns (ok: bool, anchors: map<Service, Ref>, pins: map<Service, Ref>)
      requires |secrets| == |m.additions|
      modifies docker`tags, docker`unanswered, docker`faults, env
      ensures ok ==> pins == PinsOf(m.images, backends)
      ensures ok ==> Migrated(old(env.content), env.content, m.additions, secrets)
      ensures ok ==> Covered(anchors, m.images, backends, docker.running, docker.unanswered)
      ensures AnchorsOf(anchors, m.images, backends)
      ensures ok && Unambiguous(m.images, backends) ==> Anchored(anchors, docker.running, docker.tags)
      ensures ok && Tidy(m, backends) ==> Loaded(docker.tags, m.images)
      ensures docker.faults >= old(docker.faults) && (!ok ==> docker.faults > old(docker.faults))
    {
      anchors, pins := map[], map[];
      var readable: bool := *;
      var write: ConfigMerge.WriteOutcome := *;
      var added := env.ApplyConfigAdditions(m.additions, secrets, readable, write);
      if added.Err? { docker.Fault(); return false, anchors, pins; }
      var extracted: bool := *;
      if !extracted { docker.Fault(); return false, anchors, pins; }
      ok := LoadImages(m.images);
      if !ok { return; }
      ghost var loaded := docker.tags;
      ok, anchors := AnchorAll(m.images);
      if !ok { return; }
      if Tidy(m, backends) { StillLoaded(loaded, docker.tags, m.images); }
      pins := Pins(m.images);
      ok := WriteOverride();
    }

    /** Whether the anchored services are back where they were, and where the others are. */
    ghost predicate RolledBackFrom(before: map<Service, ImageId>, m: Manifest, anchors: map<Service, Ref>)
      reads this`status, docker`running
    {
      && (status == Failed(RolledBack) && Unambiguous(m.images, backends) ==>
            && (forall s :: s in anchors ==> s in docker.running && s in before)
            && ((forall s :: s in anchors ==> docker.running[s] == before[s]) <==> SharedAnchorsAgree(anchors, before)))
      && (status == Failed(RolledBack) && OneImageEach(m.images) && OwnImageServices(m.images, backends)
          && StartedAlike(backends, before) ==>
            forall s :: s in anchors ==> s in docker.running && s in before && docker.running[s] == before[s])
    }

    /** The replicas are rolled one at a time. */
    predicate Rolling(m: Manifest) {
      m.additive && |backends| > 1 && Distinct(backends) && OwnServices(m.components, backends)
    }

    /** Swaps, and rolls back when that fails. */
    method SwapOrRollBack(m: Manifest, pins: map<Service, Ref>, anchors: map<Service, Ref>) returns (ok: bool)
      requires m.version != "" && AnchorsOf(anchors, m.images, backends)
      requires Unambiguous(m.images, backends) ==> Anchored(anchors, docker.running, docker.tags)
      modifies this`status, this`mark, docker`running, docker`ups, docker`faults, docker`recreated, docker`confirmed, docker`instants
      ensures ok ==> status == old(status) && AllOnPins(docker.running, m.components, backends, pins, docker.base, docker.tags)
      ensures ok && "backend" in m.components ==> BackendConfirmed(m, docker.confirmed)
      ensures !ok ==> status in {Failed(NoAnchor), Failed(OverrideFailed), Failed(RollbackFailed), Failed(RolledBack)}
                      && docker.ups > old(docker.ups) && RolledBackFrom(old(docker.running), m, anchors)
      ensures forall s :: s !in anchors ==> OldOrPinned(old(docker.running), docker.running, pins, docker.base, docker.tags, s)
      ensures forall s :: !Upgraded(m.components, backends, s) && s !in anchors ==>
                SameImage(docker.running, old(docker.running), s)
      ensures mark <= |docker.instants| && (ok ==> mark == |docker.instants|)
      ensures Rolling(m) ==> AlwaysAtMostOneOut(docker.instants[..mark], old(docker.running), backends)
      ensures docker.faults >= old(docker.faults) && (!ok ==> docker.faults > old(docker.faults))
    {
      ghost var before := docker.running;
      ok := Swap(m, pins);
      mark := |docker.instants|;
      if ok { return; }
      ghost var swapped := docker.running;
      Rollback(anchors);
      forall s | s !in anchors
        ensures OldOrPinned(before, docker.running, pins, docker.base, docker.tags, s)
        ensures !Upgraded(m.components, backends, s) ==> SameImage(docker.running, before, s)
      {
        assert SameImage(docker.running, swapped, s) && OldOrPinned(before, swapped, pins, docker.base, docker.tags, s);
      }
      RollbackIsWorth(m, anchors, before);
    }

    /** What a completed rollback restores follows from the anchors. */
    lemma RollbackIsWorth(m: Manifest, anchors: map<Service, Ref>, before: map<Service, ImageId>)
      requires AnchorsOf(anchors, m.images, backends)
      requires Unambiguous(m.images, backends) ==> Anchored(anchors, before, docker.tags)
      requires status == Failed(RolledBack) ==>
                 forall s :: s in anchors ==>
                  anchors[s] in docker.tags && s in docker.running && docker.running[s] == docker.tags[anchors[s]]
      ensures RolledBackFrom(before, m, anchors)
    {
      if status == Failed(RolledBack) && Unambiguous(m.images, backends) {
        RollbackRestoresIff(anchors, before, docker.tags, docker.running);
      }
      if OneImageEach(m.images) && OwnImageServices(m.images, backends) && StartedAlike(backends, before) {
        TidyIsUnambiguous(m.images, backends);
        TidyAnchorsAgree(anchors, m.images, backends, before);
      }
    }

    /** The whole pipeline.  `verified` is the bundle's signature and version check. */
    method Apply(m: Manifest, verified: bool, secrets: seq<Option<string>>) returns (anchors: map<Service, Ref>)
      requires |secrets| == |m.additions| && (verified ==> m.version != "")
      modifies this`status, this`mark, this`helpers, docker, env
      ensures status == Success || status.Failed?
      ensures status == Failed(Rejected) <==> !verified
      ensures !verified ==> unchanged(docker) && unchanged(env)
      ensures docker.ups == old(docker.ups) && status.Failed? ==> docker.running == old(docker.running)
      ensures status == Failed(Aborted) ==> docker.running == old(docker.running)
      ensures status == Success ==>
                AllOnPins(docker.running, m.components, backends, PinsOf(m.images, backends), docker.base, docker.tags)
      ensures status == Success && Tidy(m, backends) ==> RunsItsImages(m, backends, docker.running)
      ensures AnchorsOf(anchors, m.images, backends)
      ensures RolledBackFrom(old(docker.running), m, anchors)
      ensures forall s :: s !in anchors ==>
                OldOrPinned(old(docker.running), docker.running, PinsOf(m.images, backends), docker.base, docker.tags, s)
      ensures forall s :: !Upgraded(m.components, backends, s) && s !in anchors ==>
                SameImage(docker.running, old(docker.running), s)
      ensures mark <= |docker.instants| && (status == Success ==> mark == |docker.instants|)
      ensures (status == Success || docker.ups > old(docker.ups)) && Rolling(m) ==>
                AlwaysAtMostOneOut(docker.instants[..mark], old(docker.running), backends)
      ensures status == Success || docker.ups > old(docker.ups) ==>
                Migrated(old(env.content), env.content, m.additions, secrets)
                && Covered(anchors, m.images, backends, old(docker.running), docker.unanswered)
      ensures status == Success && "backend" in m.components ==> BackendConfirmed(m, docker.confirmed)
      ensures status == Failed(RolledBack) && OneImageEach(m.images) && OwnImageServices(m.images, backends)
              && StartedAlike(backends, old(docker.running)) ==>
                forall im, s :: im in m.images && Anchorable(im, backends, old(docker.running), docker.unanswered, s) ==>
                  s in docker.running && docker.running[s] == old(docker.running)[s]
      ensures var pins := PinsOf(m.images, backends);
              if status == Success && UPDATER in m.components && UPDATER in pins
              then helpers == old(helpers) || helpers == old(helpers) + [pins[UPDATER]]
              else helpers == old(helpers)
      ensures verified && status.Failed? ==> docker.faults > old(docker.faults)
    {
      anchors := map[];
      status, mark := Running, 0;
      if !verified { status := Failed(Rejected); return; }
      var ok, pins;
      ok, anchors, pins := Prepare(m, secrets);
      if !ok { status := Failed(Aborted); return; }
      ok := SwapOrRollBack(m, pins, anchors);
      if !ok { return; }
      status := Success;
      if Tidy(m, backends) { PinsRunImages(m, backends, docker.running, docker.base, docker.tags); }
      if UPDATER in m.components {
        var _ := SelfUpdate(if UPDATER in pins then Some(pins[UPDATER]) else None);
      }
    }

    method PinServices(pins: map<Service, Ref>, svcs: seq<Service>, ref: Ref) returns (out: map<Service, Ref>)
      ensures out == pins + map s | s in svcs :: ref
    {
      out := pins;
      for j := 0 to |svcs|
        invariant forall s :: s in out <==> s in pins || s in svcs[..j]
        invariant forall s :: s in out ==> out[s] == if s in svcs[..j] then ref else pins[s]
      {
        out := out[svcs[j] := ref];
        assert svcs[..j + 1] == svcs[..j] + [svcs[j]];
      }
    }

    /** Fills the override's pins image by image, service by service. */
    method Pins(images: seq<Image>) returns (pins: map<Service, Ref>)
      ensures pins == PinsOf(images, backends)
    {
      pins := map[];
      for n := 0 to |images|
        invariant pins == PinsOf(images[..n], backends)
      {
        pins := PinServices(pins, ServicesFor(backends, images[n].component), RefOf(images[n]));
        assert images[..n + 1][..n] == images[..n];
      }
      assert images[..|images|] == images;
    }
  }

  lemma StillLoaded(loaded: map<Ref, ImageId>, tags: map<Ref, ImageId>, images: seq<Image>)
    requires Loaded(loaded, images) && SameReleases(tags, loaded) && forall im :: im in images ==> im.tag != ROLLBACK
    ensures Loaded(tags, images)
  {
    forall im | im in images ensures RefOf(im) in tags && tags[RefOf(im)] == im.id {
      assert RefOf(im).tag != ROLLBACK;
    }
  }

  /** On their pins, the services of a tidy manifest run the images the bundle brought. */
  lemma PinsRunImages(m: Manifest, backends: seq<Service>, running: map<Service, ImageId>, base: map<Service, Ref>,
                      tags: map<Ref, ImageId>)
    requires Tidy(m, backends) && Loaded(tags, m.images)
    requires AllOnPins(running, m.components, backends, PinsOf(m.images, backends), base, tags)
    ensures RunsItsImages(m, backends, running)
  {
    forall im, s | im in m.images && im.component in m.components && im.component != UPDATER
                   && s in ServicesFor(backends, im.component)
      ensures s in running && running[s] == im.id
    {
      PinnedToOwnImage(m.images, backends, im, s);
      assert Upgraded(m.components, backends, s);
    }
  }

  /** The updater's own container is never recreated inline: it is neither swapped nor anchored. */
  lemma UpdaterIsLeftAlone(m: Manifest, backends: seq<Service>, anchors: map<Service, Ref>)
    requires AnchorsOf(anchors, m.images, backends) && UPDATER !in backends
    ensures !Upgraded(m.components, backends, UPDATER) && UPDATER !in anchors
  {
  }
}
