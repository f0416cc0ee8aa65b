/** The periodic loop that keeps every enrolled host's revocation list current. */
module Krl {
  import opened Wrappers

  type HostId = nat

  const RECONCILE_EVERY: nat := 6

  /** What a distribution came to: it failed before any push, or the list it built was verified on some
      hosts and not on others, where an unverified push may have left something all the same. */
  datatype Distribution = NotStarted
                        | Pushed(sent: string, reached: set<HostId>, missed: set<HostId>, left: map<HostId, string>)

  /** A tick as the outside world presents it, or a distribution outside the loop: after the certificates of
      a dead instance or a removed account were revoked, or on request.  `hash` is `None` when building the
      list failed.  The distribution builds its list anew, so `sent` need not be what was hashed. */
  datatype Event = Tick(leader: bool, available: bool, hash: Option<string>, dist: Distribution)
                 | Aside(dist: Distribution)

  /** The loop's two variables, and what each host has installed. */
  datatype Loop = Loop(lastHash: string, sinceFull: nat, fleet: map<HostId, string>)

  predicate Eligible(t: Event) { t.Tick? && t.leader && t.available && t.hash.Some? }

  predicate Attempts(l: Loop, t: Event) {
    Eligible(t) && (t.hash.value != l.lastHash || l.sinceFull + 1 >= RECONCILE_EVERY)
  }

  predicate Complete(t: Event) { t.dist.Pushed? && t.dist.missed == {} }

  function Install(fleet: map<HostId, string>, d: Distribution): map<HostId, string> {
    if d.Pushed? then fleet + d.left + map x | x in d.reached :: d.sent else fleet
  }

  function Step(l: Loop, t: Event): Loop {
    if t.Aside? then l.(fleet := Install(l.fleet, t.dist))
    else if !Eligible(t) then l
    else if !Attempts(l, t) then l.(sinceFull := l.sinceFull + 1)
    else if Complete(t) then Loop(t.hash.value, 0, Install(l.fleet, t.dist))
    else Loop(l.lastHash, l.sinceFull + 1, Install(l.fleet, t.dist))
  }

  function Run(l: Loop, ts: seq<Event>): Loop
    decreases |ts|
  {
    if ts == [] then l else Step(Run(l, ts[..|ts| - 1]), ts[|ts| - 1])
  }

  /** The loop as it runs. */
  class KrlLoop {
    var lastHash: string
    var sinceFull: nat
    var fleet: map<HostId, string>

    constructor (installed: map<HostId, string>)
      ensures View() == Loop("", 0, installed)
    {
      lastHash, sinceFull, fleet := "", 0, installed;
    }

    function View(): Loop
      reads this
    {
      Loop(lastHash, sinceFull, fleet)
    }

    /** A distribution outside the loop leaves the loop's variables alone. */
    method PushAside(d: Distribution)
      modifies this`fleet
      ensures View() == Step(old(View()), Aside(d))
    {
      fleet := Install(fleet, d);
    }

    method OnTick(t: Event) returns (attempted: bool)
      requires t.Tick?
      modifies this
      ensures View() == Step(old(View()), t)
      ensures attempted == Attempts(old(View()), t)
    {
      if !t.leader { return false; }
      if !t.available { return false; }
      if t.hash.None? { return false; }
      var hash := t.hash.value;
      sinceFull := sinceFull + 1;
      if hash == lastHash && sinceFull < RECONCILE_EVERY { return false; }
      fleet := Install(fleet, t.dist);
      if t.dist.NotStarted? { return true; }
      if t.dist.missed != {} { return true; }
      lastHash := hash;
      sinceFull := 0;
      return true;
    }
  }

  // ----- how long the loop can stay quiet -----

  function EligibleCount(ts: seq<Event>): nat {
    if ts == [] then 0 else EligibleCount(ts[..|ts| - 1]) + (if Eligible(ts[|ts| - 1]) then 1 else 0)
  }

  predicate Quiet(l: Loop, ts: seq<Event>) {
    forall i :: 0 <= i < |ts| ==> !Attempts(Run(l, ts[..i]), ts[i])
  }

  lemma QuietPrefix(l: Loop, ts: seq<Event>)
    requires ts != [] && Quiet(l, ts)
    ensures Quiet(l, ts[..|ts| - 1])
  {
    var us := ts[..|ts| - 1];
    forall i | 0 <= i < |us| ensures !Attempts(Run(l, us[..i]), us[i]) { assert us[..i] == ts[..i]; }
  }

  lemma {:induction false} QuietCounts(l: Loop, ts: seq<Event>)
    requires Quiet(l, ts)
    ensures Run(l, ts).lastHash == l.lastHash && Run(l, ts).sinceFull == l.sinceFull + EligibleCount(ts)
    ensures EligibleCount(ts) > 0 ==> l.sinceFull + EligibleCount(ts) < RECONCILE_EVERY
    decreases |ts|
  {
    if ts != [] {
      QuietPrefix(l, ts);
      QuietCounts(l, ts[..|ts| - 1]);
      assert !Attempts(Run(l, ts[..|ts| - 1]), ts[|ts| - 1]);
    }
  }

  /** From any state of the loop, among any ticks of which six are eligible one attempts a distribution. */
  lemma SixEligibleTicksAttempt(l: Loop, ts: seq<Event>)
    requires EligibleCount(ts) >= 6
    ensures !Quiet(l, ts)
  {
    if Quiet(l, ts) { QuietCounts(l, ts); }
  }

  /** Five can pass without one, so six is exact. */
  lemma FiveCanBeQuiet(l: Loop, t: Event)
    requires l.sinceFull == 0 && Eligible(t) && t.hash.value == l.lastHash
    ensures Quiet(l, [t, t, t, t, t])
  {
    var ts := [t, t, t, t, t];
    forall i | 0 <= i < 5 ensures Run(l, ts[..i]) == l.(sinceFull := i) { RepeatQuietly(l, t, ts[..i]); }
  }

  lemma {:induction false} RepeatQuietly(l: Loop, t: Event, ts: seq<Event>)
    requires l.sinceFull == 0 && Eligible(t) && t.hash.value == l.lastHash
    requires |ts| < RECONCILE_EVERY && forall i :: 0 <= i < |ts| ==> ts[i] == t
    ensures Run(l, ts) == l.(sinceFull := |ts|)
    decreases |ts|
  {
    if ts != [] { RepeatQuietly(l, t, ts[..|ts| - 1]); }
  }

  // ----- what lastHash means -----

  /** Tick `i` computed `h`, attempted, and no host was missed. */
  predicate Earned(l: Loop, ts: seq<Event>, h: string, i: int) {
    0 <= i < |ts| && Attempts(Run(l, ts[..i]), ts[i]) && ts[i].hash == Some(h) && Complete(ts[i])
  }

  /** The loop remembers a hash only after a tick that computed it pushed to every host. */
  lemma {:induction false} LastHashWasEarned(l: Loop, ts: seq<Event>)
    requires l.lastHash == "" && Run(l, ts).lastHash != ""
    ensures exists i :: Earned(l, ts, Run(l, ts).lastHash, i)
    decreases |ts|
  {
    var us := ts[..|ts| - 1];
    var h := Run(l, ts).lastHash;
    if Run(l, us).lastHash == h {
      LastHashWasEarned(l, us);
      var i :| Earned(l, us, h, i);
      assert us[..i] == ts[..i];
      assert Earned(l, ts, h, i);
    } else {
      assert Earned(l, ts, h, |ts| - 1);
    }
  }

  lemma {:induction false} IneligibleKeepMemory(l: Loop, ts: seq<Event>)
    requires forall i :: 0 <= i < |ts| ==> !Eligible(ts[i])
    ensures Run(l, ts).lastHash == l.lastHash && Run(l, ts).sinceFull == l.sinceFull
    decreases |ts|
  {
    if ts != [] { IneligibleKeepMemory(l, ts[..|ts| - 1]); }
  }

  /** After an incomplete push, the next eligible tick that computes the same hash tries again. */
  lemma IncompleteIsRetried(l: Loop, t: Event, idle: seq<Event>, u: Event)
    requires Attempts(l, t) && !Complete(t)
    requires forall i :: 0 <= i < |idle| ==> !Eligible(idle[i])
    requires Eligible(u) && u.hash == t.hash
    ensures Attempts(Run(Step(l, t), idle), u)
  {
    IneligibleKeepMemory(Step(l, t), idle);
  }

  // ----- convergence -----

  /** Every distribution the loop attempts sends `k` and gets through to host `x`, and none outside the loop
      leaves anything else there. */
  predicate Delivers(l: Loop, ts: seq<Event>, x: HostId, k: string) {
    forall i :: 0 <= i < |ts| ==>
                  && (Attempts(Run(l, ts[..i]), ts[i]) ==> Touches(ts[i].dist, x))
                  && (Distributes(Run(l, ts[..i]), ts[i]) && Touches(ts[i].dist, x) ==> Leaves(ts[i].dist, x) == k)
  }

  predicate Holds(l: Loop, x: HostId, h: string) { x in l.fleet && l.fleet[x] == h }

  /** The event carries out a distribution. */
  predicate Distributes(l: Loop, t: Event) { t.Aside? || Attempts(l, t) }

  predicate Touches(d: Distribution, x: HostId) { d.Pushed? && (x in d.reached || x in d.left) }

  /** What the distribution leaves on a host it touches. */
  function Leaves(d: Distribution, x: HostId): string
    requires Touches(d, x)
  {
    if x in d.reached then d.sent else d.left[x]
  }

  /** A step changes what a host holds exactly by a distribution that touches the host. */
  lemma StepLeaves(l: Loop, t: Event, x: HostId)
    ensures Distributes(l, t) && Touches(t.dist, x) ==> Holds(Step(l, t), x, Leaves(t.dist, x))
    ensures !(Distributes(l, t) && Touches(t.dist, x)) ==> forall h :: Holds(Step(l, t), x, h) <==> Holds(l, x, h)
  {
  }

  lemma DeliversPrefix(l: Loop, ts: seq<Event>, x: HostId, k: string)
    requires ts != [] && Delivers(l, ts, x, k)
    ensures Delivers(l, ts[..|ts| - 1], x, k)
  {
    var us := ts[..|ts| - 1];
    forall i | 0 <= i < |us|
      ensures Attempts(Run(l, us[..i]), us[i]) ==> Touches(us[i].dist, x)
      ensures Distributes(Run(l, us[..i]), us[i]) && Touches(us[i].dist, x) ==> Leaves(us[i].dist, x) == k
    {
      assert us[..i] == ts[..i];
    }
  }

  lemma {:induction false} DeliveredOnce(l: Loop, ts: seq<Event>, x: HostId, k: string)
    requires Delivers(l, ts, x, k) && !Quiet(l, ts)
    ensures Holds(Run(l, ts), x, k)
    decreases |ts|
  {
    var n := |ts| - 1;
    var us := ts[..n];
    StepLeaves(Run(l, us), ts[n], x);
    if !Attempts(Run(l, us), ts[n]) {
      var i :| 0 <= i < |ts| && Attempts(Run(l, ts[..i]), ts[i]);
      DeliversPrefix(l, ts, x, k);
      assert i < |us| && us[..i] == ts[..i];
      DeliveredOnce(l, us, x, k);
    }
  }

  /** A host that was out of reach converges: once the list is settled and the host is reachable, six
      eligible ticks later it has the list, whether or not the list changed meanwhile. */
  lemma HostConverges(l: Loop, ts: seq<Event>, x: HostId, k: string)
    requires Delivers(l, ts, x, k) && EligibleCount(ts) >= 6
    ensures Holds(Run(l, ts), x, k)
  {
    SixEligibleTicksAttempt(l, ts);
    DeliveredOnce(l, ts, x, k);
  }

  // ----- what a quiet tick means -----

  /** The last distribution of the run that touched host `x` left `h` there, or none did and `x` held it. */
  predicate LastLeft(l: Loop, ts: seq<Event>, x: HostId, h: string)
    decreases |ts|
  {
    if ts == [] then Holds(l, x, h)
    else
      var us, t := ts[..|ts| - 1], ts[|ts| - 1];
      if Distributes(Run(l, us), t) && Touches(t.dist, x) then Leaves(t.dist, x) == h else LastLeft(l, us, x, h)
  }

  lemma {:induction false} HeldIffLeft(l: Loop, ts: seq<Event>, x: HostId, h: string)
    ensures Holds(Run(l, ts), x, h) <==> LastLeft(l, ts, x, h)
    decreases |ts|
  {
    if ts != [] {
      HeldIffLeft(l, ts[..|ts| - 1], x, h);
      StepLeaves(Run(l, ts[..|ts| - 1]), ts[|ts| - 1], x);
    }
  }

  lemma {:induction false} RunSplits(l: Loop, ts: seq<Event>, us: seq<Event>)
    ensures Run(l, ts + us) == Run(Run(l, ts), us)
    decreases |us|
  {
    if us == [] { assert ts + us == ts; } else {
      assert (ts + us)[..|ts + us| - 1] == ts + us[..|us| - 1];
      RunSplits(l, ts, us[..|us| - 1]);
    }
  }

  /** Tick `i` earned the remembered hash, and no later tick's push got through to every host. */
  predicate LastEarned(l: Loop, ts: seq<Event>, h: string, i: int) {
    Earned(l, ts, h, i)
    && forall k :: i < k < |ts| && Attempts(Run(l, ts[..k]), ts[k]) ==> !Complete(ts[k])
  }

  lemma {:induction false} FindLastEarned(l: Loop, ts: seq<Event>) returns (i: nat)
    requires l.lastHash == "" && Run(l, ts).lastHash != ""
    ensures LastEarned(l, ts, Run(l, ts).lastHash, i)
    decreases |ts|
  {
    var n := |ts| - 1;
    var us := ts[..n];
    if Attempts(Run(l, us), ts[n]) && Complete(ts[n]) {
      i := n;
    } else {
      i := FindLastEarned(l, us);
      assert us[..i] == ts[..i];
      forall k | i < k < |ts| && Attempts(Run(l, ts[..k]), ts[k]) ensures !Complete(ts[k]) {
        if k < n { assert us[..k] == ts[..k] && us[k] == ts[k]; }
      }
    }
  }

  lemma LastEarnedBefore(l: Loop, ts: seq<Event>, h: string, i: nat)
    requires LastEarned(l, ts, h, i) && i < |ts| - 1
    ensures LastEarned(l, ts[..|ts| - 1], h, i)
    ensures !(Attempts(Run(l, ts[..|ts| - 1]), ts[|ts| - 1]) && Complete(ts[|ts| - 1]))
  {
    var us := ts[..|ts| - 1];
    assert us[..i] == ts[..i];
    forall k | i < k < |us| && Attempts(Run(l, us[..k]), us[k]) ensures !Complete(us[k]) {
      assert us[..k] == ts[..k];
    }
  }

  lemma CountSince(ts: seq<Event>, i: nat)
    requires i < |ts|
    ensures EligibleCount(ts[i..]) == EligibleCount(ts[..|ts| - 1][i..]) + (if Eligible(ts[|ts| - 1]) then 1 else 0)
  {
    assert ts[i..][..|ts| - i - 1] == ts[..|ts| - 1][i..];
  }

  lemma CompleteState(l: Loop, t: Event)
    requires Attempts(l, t)
    ensures Complete(t) ==> Step(l, t).lastHash == t.hash.value && Step(l, t).sinceFull == 0
  {
  }

  lemma OtherwiseState(l: Loop, t: Event)
    requires !(Attempts(l, t) && Complete(t))
    ensures Step(l, t).lastHash == l.lastHash && Step(l, t).sinceFull == l.sinceFull + (if Eligible(t) then 1 else 0)
  {
  }

  /** What a tick that earned the remembered hash leaves behind: the hash, and the eligible ticks since. */
  lemma {:induction false} EarnedState(l: Loop, ts: seq<Event>, h: string, i: nat)
    requires LastEarned(l, ts, h, i)
    ensures Run(l, ts).lastHash == h && Run(l, ts).sinceFull == EligibleCount(ts[i + 1..])
    decreases |ts|
  {
    var n := |ts| - 1;
    if i < n {
      LastEarnedBefore(l, ts, h, i);
      EarnedState(l, ts[..n], h, i);
      OtherwiseState(Run(l, ts[..n]), ts[n]);
      CountSince(ts, i + 1);
    } else {
      CompleteState(Run(l, ts[..n]), ts[n]);
      assert ts[i + 1..] == [];
    }
  }

  /** From the loop's start, an eligible tick attempts a distribution exactly unless the last complete push computed
      the very list this one did, and fewer than five eligible ticks have passed since.  So a changed list goes out at
      once. */
  lemma AttemptsIff(l: Loop, ts: seq<Event>, t: Event)
    requires l.lastHash == "" && Eligible(t) && t.hash.value != ""
    ensures Attempts(Run(l, ts), t) <==>
              forall i: nat :: LastEarned(l, ts, t.hash.value, i) ==> EligibleCount(ts[i + 1..]) >= 5
  {
    var h := t.hash.value;
    forall i: nat | LastEarned(l, ts, h, i)
      ensures Run(l, ts).lastHash == h && Run(l, ts).sinceFull == EligibleCount(ts[i + 1..])
    {
      EarnedState(l, ts, h, i);
    }
    if Run(l, ts).lastHash == h {
      var i := FindLastEarned(l, ts);
      assert LastEarned(l, ts, h, i);
    }
  }

  /** From the loop's start, a tick that finds nothing to do goes back to a complete push of a tick that computed
      the same list.  It is right about host `x` exactly when, if anything touched the host since, the last
      such distribution left that list, and otherwise, if the complete push reached the host, it had sent that
      list. */
  lemma QuietTickIff(l: Loop, ts: seq<Event>, t: Event, x: HostId) returns (i: nat)
    requires l.lastHash == "" && Eligible(t) && t.hash.value != "" && !Attempts(Run(l, ts), t)
    ensures LastEarned(l, ts, t.hash.value, i)
    ensures Holds(Run(l, ts), x, t.hash.value) <==> LastLeft(Run(l, ts[..i + 1]), ts[i + 1..], x, t.hash.value)
    ensures x in ts[i].dist.reached ==>
              (Holds(Run(l, ts[..i + 1]), x, t.hash.value) <==> ts[i].dist.sent == t.hash.value)
  {
    i := FindLastEarned(l, ts);
    assert ts == ts[..i + 1] + ts[i + 1..];
    RunSplits(l, ts[..i + 1], ts[i + 1..]);
    HeldIffLeft(Run(l, ts[..i + 1]), ts[i + 1..], x, t.hash.value);
    assert ts[..i + 1][..i] == ts[..i];
  }

  lemma RunOne(l: Loop, t: Event)
    ensures Run(l, [t]) == Step(l, t)
  {
    assert [t][..0] == [] && Run(l, []) == l;
  }

  lemma RunTwo(l: Loop, t: Event, u: Event)
    ensures Run(l, [t, u]) == Step(Step(l, t), u)
  {
    assert [t, u][..1] == [t];
    RunOne(l, t);
  }

  /** It can be wrong in three ways, each from the start of the loop: the complete push had built another list
      than was hashed; a list that reached the host but not all hosts was withdrawn; or a distribution outside
      the loop brought another list. */
  lemma QuietTickCanBeWrong(fleet: map<HostId, string>, a: string, b: string, x: HostId, y: HostId)
    requires a != b && a != "" && x != y
    ensures var l := Loop("", 0, fleet);
            var t := Tick(true, true, Some(a), NotStarted);
            var clean := Tick(true, true, Some(a), Pushed(a, {x, y}, {}, map[]));
            var rebuilt := Tick(true, true, Some(a), Pushed(b, {x, y}, {}, map[]));
            var withdrawn := Tick(true, true, Some(b), Pushed(b, {x}, {y}, map[]));
            var aside := Aside(Pushed(b, {x}, {y}, map[]));
            && !Attempts(Run(l, [rebuilt]), t) && Holds(Run(l, [rebuilt]), x, b)
            && !Attempts(Run(l, [clean, withdrawn]), t) && Holds(Run(l, [clean, withdrawn]), x, b)
            && !Attempts(Run(l, [clean, aside]), t) && Holds(Run(l, [clean, aside]), x, b)
  {
    var l := Loop("", 0, fleet);
    var clean := Tick(true, true, Some(a), Pushed(a, {x, y}, {}, map[]));
    RunOne(l, Tick(true, true, Some(a), Pushed(b, {x, y}, {}, map[])));
    RunTwo(l, clean, Tick(true, true, Some(b), Pushed(b, {x}, {y}, map[])));
    RunTwo(l, clean, Aside(Pushed(b, {x}, {y}, map[])));
  }
}
