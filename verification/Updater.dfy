/** Applying an upgrade bundle: anchor the running images, swap the services onto the new ones,
    and roll back when a swap or a health check fails. */
module Updater {
  import opened Docker
  import ConfigMerge
  import opened Text

  const UPDATER := "fleet-updater"
  const ROLLBACK := "rollback"

  /** One image of the bundle; `id` is what loading its file yields. */
  datatype Image = Image(component: string, repo: string, tag: string, id: ImageId)

  datatype Manifest = Manifest(version: string, components: seq<string>, images: seq<Image>, additive: bool,
                               additions: seq<ConfigMerge.Addition>)

  datatype Reason =
    | Rejected        // signature or version check failed
    | Aborted         // failed before any service was recreated
    | NoAnchor        // swap failed and nothing could be anchored
    | OverrideFailed  // swap failed, rollback override not written
    | RollbackFailed  // swap failed, rollback compose failed
    | RolledBack      // swap failed, services recreated on their anchors

  datatype Status = Idle | Running | Success | Failed(reason: Reason)

  /** Only the backend fans out to several services. */
  function ServicesFor(backends: seq<Service>, component: string): (svcs: seq<Service>)
    ensures svcs != []
    ensures component != "backend" ==> svcs == [component]
    ensures component == "backend" && backends != [] ==> forall s :: s in backends <==> s in svcs
  {
    if component == "backend" && backends != [] then backends else [component]
  }

  function RefOf(im: Image): Ref { Ref(im.repo, im.tag) }

  /** The pins an override for these images carries; a later image for the same service wins. */
  function PinsOf(images: seq<Image>, backends: seq<Service>): map<Service, Ref> {
    if images == [] then map[] else
    var im := images[|images| - 1];
    PinsOf(images[..|images| - 1], backends)
    + map s | s in ServicesFor(backends, im.component) :: RefOf(im)
  }

  predicate ByComponent(images: seq<Image>) {
    forall i, j :: 0 <= i < j < |images| ==> LessEq(images[i].component, images[j].component)
  }

  /** Insertion by component, as the images are loaded and anchored in component order. */
  function InsertImage(im: Image, sorted: seq<Image>): (out: seq<Image>)
    ensures forall x :: x in out <==> x == im || x in sorted
  {
    if sorted == [] || LessEq(im.component, sorted[0].component) then [im] + sorted
    else [sorted[0]] + InsertImage(im, sorted[1..])
  }

  function SortedImages(images: seq<Image>): (out: seq<Image>)
    ensures forall x :: x in out <==> x in images
  {
    if images == [] then [] else
    assert images == [images[0]] + images[1..];
    InsertImage(images[0], SortedImages(images[1..]))
  }

  lemma {:induction false} InsertKeepsAll(im: Image, sorted: seq<Image>)
    ensures multiset(InsertImage(im, sorted)) == multiset(sorted) + multiset{im}
    decreases |sorted|
  {
    if sorted != [] && !LessEq(im.component, sorted[0].component) {
      InsertKeepsAll(im, sorted[1..]);
      assert sorted == [sorted[0]] + sorted[1..];
    }
  }

  lemma {:induction false} InsertKeepsOrder(im: Image, sorted: seq<Image>)
    requires ByComponent(sorted)
    ensures ByComponent(InsertImage(im, sorted))
    decreases |sorted|
  {
    if sorted != [] {
      var first, rest := sorted[0], sorted[1..];
      if LessEq(im.component, first.component) {
        forall j | 0 <= j < |sorted| ensures LessEq(im.component, sorted[j].component) {
          if j > 0 { LessEqTrans(im.component, first.component, sorted[j].component); }
        }
      } else {
        LessEqTotal(im.component, first.component);
        InsertKeepsOrder(im, rest);
        forall x | x in InsertImage(im, rest) ensures LessEq(first.component, x.component) {
          if x != im { var j :| 0 <= j < |rest| && rest[j] == x; }
        }
      }
    }
  }

  /** The images in component order are the bundle's images, each as often as it is there. */
  lemma {:induction false} SortedIsOrdered(images: seq<Image>)
    ensures ByComponent(SortedImages(images)) && multiset(SortedImages(images)) == multiset(images)
  {
    if images != [] {
      SortedIsOrdered(images[1..]);
      InsertKeepsOrder(images[0], SortedImages(images[1..]));
      InsertKeepsAll(images[0], SortedImages(images[1..]));
      assert images == [images[0]] + images[1..];
    }
  }

  // ----- conditions on a manifest -----

  /** One image per component, and an image name of its own for each. */
  predicate OneImageEach(images: seq<Image>) {
    forall a, b :: a in images && b in images && (a.component == b.component || a.repo == b.repo) ==> a == b
  }

  /** No component other than the backend shares a service name with a backend replica. */
  predicate OwnServices(components: seq<string>, backends: seq<Service>) {
    forall c :: c in components && c != "backend" ==> c !in backends
  }

  predicate OwnImageServices(images: seq<Image>, backends: seq<Service>) {
    forall im :: im in images && im.component != "backend" ==> im.component !in backends
  }

  /** No service is claimed under two image names. */
  predicate Unambiguous(images: seq<Image>, backends: seq<Service>) {
    forall im, jm, s ::
      im in images && jm in images && s in ServicesFor(backends, im.component) && s in ServicesFor(backends, jm.component)
      ==> im.repo == jm.repo
  }

  lemma TidyIsUnambiguous(images: seq<Image>, backends: seq<Service>)
    requires OneImageEach(images) && OwnImageServices(images, backends)
    ensures Unambiguous(images, backends)
  {
  }

  /** The listed services an upgrade recreates itself: all but the updater's own. */
  predicate Upgraded(components: seq<string>, backends: seq<Service>, s: Service) {
    exists c :: c in components && c != UPDATER && s in ServicesFor(backends, c)
  }

  predicate Anchorable(im: Image, backends: seq<Service>, running: map<Service, ImageId>, unanswered: set<Service>, s: Service) {
    im.component != UPDATER && s in ServicesFor(backends, im.component) && s in running && s !in unanswered
  }

  /** Every service of the image that can be anchored is. */
  ghost predicate Covers(anchors: map<Service, Ref>, im: Image, backends: seq<Service>, running: map<Service, ImageId>,
                   unanswered: set<Service>)
  {
    forall s :: Anchorable(im, backends, running, unanswered, s) ==> s in anchors
  }

  /** Every running service of every component the bundle brings an image for, the updater's aside, is anchored
      unless its inspection failed. */
  ghost predicate Covered(anchors: map<Service, Ref>, images: seq<Image>, backends: seq<Service>, running: map<Service, ImageId>,
                    unanswered: set<Service>)
  {
    forall im, s :: im in images && Anchorable(im, backends, running, unanswered, s) ==> s in anchors
  }

  // ----- what the anchors are worth -----

  /** Some service sharing the anchor was running the image it points at. */
  ghost predicate HasSource(anchors: map<Service, Ref>, running: map<Service, ImageId>, tags: map<Ref, ImageId>, s: Service)
    requires s in anchors && anchors[s] in tags
  {
    exists q :: q in anchors && q in running && anchors[q] == anchors[s] && tags[anchors[s]] == running[q]
  }

  /** Every anchor is a rollback ref that points at the image some service sharing it was running. */
  ghost predicate Anchored(anchors: map<Service, Ref>, running: map<Service, ImageId>, tags: map<Ref, ImageId>) {
    && (forall s :: s in anchors ==> s in running && anchors[s].tag == ROLLBACK && anchors[s] in tags)
    && (forall s {:trigger HasSource(anchors, running, tags, s)} ::
          s in anchors ==> HasSource(anchors, running, tags, s))
  }

  /** Services that share a rollback ref started on the same image. */
  predicate SharedAnchorsAgree(anchors: map<Service, Ref>, running: map<Service, ImageId>) {
    forall s, q :: s in anchors && q in anchors && anchors[s] == anchors[q] && s in running && q in running
                   ==> running[s] == running[q]
  }

  /** The services come from components of the bundle other than the updater, each anchored under its
      component's image name. */
  ghost predicate AnchorsOf(anchors: map<Service, Ref>, images: seq<Image>, backends: seq<Service>) {
    forall s :: s in anchors ==>
      exists im :: im in images && im.component != UPDATER && s in ServicesFor(backends, im.component)
                   && anchors[s] == Ref(im.repo, ROLLBACK)
  }

  /** Recreating every anchored service on its anchor restores every image exactly when services that
      share an anchor had the same image. */
  lemma RollbackRestoresIff(anchors: map<Service, Ref>, before: map<Service, ImageId>, tags: map<Ref, ImageId>,
                            after: map<Service, ImageId>)
    requires Anchored(anchors, before, tags)
    requires forall s :: s in anchors ==> s in after && after[s] == tags[anchors[s]]
    ensures (forall s :: s in anchors ==> after[s] == before[s]) <==> SharedAnchorsAgree(anchors, before)
  {
    if SharedAnchorsAgree(anchors, before) {
      forall s | s in anchors ensures after[s] == before[s] {
        assert HasSource(anchors, before, tags, s);
      }
    }
  }

  /** With one image per component under its own name, and replicas of a component starting on the same
      image, anchors never clash. */
  lemma TidyAnchorsAgree(anchors: map<Service, Ref>, images: seq<Image>, backends: seq<Service>,
                         running: map<Service, ImageId>)
    requires AnchorsOf(anchors, images, backends) && OneImageEach(images)
    requires forall b, c :: b in backends && c in backends && b in running && c in running ==> running[b] == running[c]
    ensures SharedAnchorsAgree(anchors, running)
  {
    forall s, q | s in anchors && q in anchors && anchors[s] == anchors[q] && s in running && q in running
      ensures running[s] == running[q]
    {
      var im :| im in images && im.component != UPDATER && s in ServicesFor(backends, im.component)
                && anchors[s] == Ref(im.repo, ROLLBACK);
      var jm :| jm in images && jm.component != UPDATER && q in ServicesFor(backends, jm.component)
                && anchors[q] == Ref(jm.repo, ROLLBACK);
      assert im == jm;
    }
  }

  /** Two replicas that started on different images share one anchor, so a rollback moves one of them. */
  lemma MixedReplicasAreNotRestored(anchors: map<Service, Ref>, before: map<Service, ImageId>, tags: map<Ref, ImageId>,
                                    after: map<Service, ImageId>, a: Service, b: Service)
    requires Anchored(anchors, before, tags)
    requires forall s :: s in anchors ==> s in after && after[s] == tags[anchors[s]]
    requires a in anchors && b in anchors && anchors[a] == anchors[b] && before[a] != before[b]
    ensures after[a] != before[a] || after[b] != before[b]
  {
    RollbackRestoresIff(anchors, before, tags, after);
  }

  // ----- what the pins are worth -----

  lemma {:induction false} PinsPoint(images: seq<Image>, backends: seq<Service>, s: Service)
    ensures s in PinsOf(images, backends) <==> exists im :: im in images && s in ServicesFor(backends, im.component)
    ensures s in PinsOf(images, backends) ==>
              exists im :: im in images && s in ServicesFor(backends, im.component) && PinsOf(images, backends)[s] == RefOf(im)
    decreases |images|
  {
    if images != [] {
      var init, im := images[..|images| - 1], images[|images| - 1];
      assert images == init + [im];
      PinsPoint(init, backends, s);
    }
  }

  /** Under the conditions, a service of a component is pinned to that component's own image. */
  lemma PinnedToOwnImage(images: seq<Image>, backends: seq<Service>, im: Image, s: Service)
    requires OneImageEach(images) && OwnImageServices(images, backends)
    requires im in images && s in ServicesFor(backends, im.component)
    ensures s in PinsOf(images, backends) && PinsOf(images, backends)[s] == RefOf(im)
  {
    PinsPoint(images, backends, s);
    var jm :| jm in images && s in ServicesFor(backends, jm.component) && PinsOf(images, backends)[s] == RefOf(jm);
    assert jm.component == im.component;
  }
}
