/** One KRL distribution: a dispatcher hands enrolled hosts to workers that share eight
    semaphore slots, two counters and a wait group.  Any schedule of their steps is a
    sequence of events; an event that cannot happen in a state leaves it alone. */
module KrlPool {
  import opened Wrappers

  const CONCURRENCY: nat := 8

  /** Where one host's push stands.  `ok` is its verdict, true when the list was verified there. */
  datatype Phase =
    | Idle                  // not reached by the dispatcher
    | Skipped               // not enrolled
    | Pushing
    | Counted(ok: bool)     // counter bumped, slot still held
    | Released(ok: bool)    // slot given back, wait group not yet told
    | Finished(ok: bool)

  /** `waiting` is the dispatcher between wg.Add and getting a slot. */
  datatype Pool = Pool(next: nat, waiting: bool, phases: seq<Phase>, slots: nat, wg: int,
                       pushed: int, failed: int, returned: bool)

  datatype Event = Consider | Acquire | Count(i: nat, ok: bool) | Release(i: nat) | Done(i: nat) | Return

  function Start(enrolled: seq<bool>): Pool {
    Pool(0, false, seq(|enrolled|, _ => Idle), 0, 0, 0, 0, false)
  }

  predicate Enabled(enrolled: seq<bool>, s: Pool, e: Event) {
    match e
    case Consider => s.next < |enrolled| && !s.waiting
    case Acquire => s.waiting && s.next < |s.phases| && s.slots < CONCURRENCY
    case Count(i, _) => i < |s.phases| && s.phases[i].Pushing?
    case Release(i) => i < |s.phases| && s.phases[i].Counted?
    case Done(i) => i < |s.phases| && s.phases[i].Released?
    case Return => !s.returned && s.next >= |enrolled| && !s.waiting && s.wg == 0
  }

  function Apply(enrolled: seq<bool>, s: Pool, e: Event): Pool
    requires |s.phases| == |enrolled|
  {
    if !Enabled(enrolled, s, e) then s else
    match e
    case Consider =>
      if enrolled[s.next] then s.(wg := s.wg + 1, waiting := true)
      else s.(phases := s.phases[s.next := Skipped], next := s.next + 1)
    case Acquire => s.(phases := s.phases[s.next := Pushing], next := s.next + 1, waiting := false, slots := s.slots + 1)
    case Count(i, ok) =>
      s.(phases := s.phases[i := Counted(ok)],
         pushed := s.pushed + (if ok then 1 else 0), failed := s.failed + (if ok then 0 else 1))
    case Release(i) => s.(phases := s.phases[i := Released(s.phases[i].ok)], slots := if s.slots > 0 then s.slots - 1 else 0)
    case Done(i) => s.(phases := s.phases[i := Finished(s.phases[i].ok)], wg := s.wg - 1)
    case Return => s.(returned := true)
  }

  function Run(enrolled: seq<bool>, es: seq<Event>): (s: Pool)
    ensures |s.phases| == |enrolled|
    decreases |es|
  {
    if es == [] then Start(enrolled) else Apply(enrolled, Run(enrolled, es[..|es| - 1]), es[|es| - 1])
  }

  // ----- counting hosts -----

  /** The groups of hosts the shared counters stand for. */
  datatype Group = InFlight | Unreported | Verified | Missed

  predicate Belongs(p: Phase, g: Group) {
    match g
    case InFlight => p.Pushing? || p.Counted?
    case Unreported => p.Pushing? || p.Counted? || p.Released?
    case Verified => (p.Counted? || p.Released? || p.Finished?) && p.ok
    case Missed => (p.Counted? || p.Released? || p.Finished?) && !p.ok
  }

  function One(p: Phase, g: Group): nat { if Belongs(p, g) then 1 else 0 }

  function Tally(ps: seq<Phase>, g: Group): nat {
    if ps == [] then 0 else One(ps[0], g) + Tally(ps[1..], g)
  }

  lemma {:induction false} TallyUpdate(ps: seq<Phase>, i: nat, p: Phase, g: Group)
    requires i < |ps|
    ensures Tally(ps[i := p], g) == Tally(ps, g) - One(ps[i], g) + One(p, g)
    decreases |ps|
  {
    if i > 0 {
      assert ps[i := p][1..] == ps[1..][i - 1 := p];
      TallyUpdate(ps[1..], i - 1, p, g);
    } else {
      assert ps[i := p][1..] == ps[1..];
    }
  }

  lemma {:induction false} TallyNone(ps: seq<Phase>, g: Group)
    requires forall i :: 0 <= i < |ps| ==> !Belongs(ps[i], g)
    ensures Tally(ps, g) == 0
  {
    if ps != [] { TallyNone(ps[1..], g); }
  }

  lemma {:induction false} TallyFinds(ps: seq<Phase>, g: Group) returns (i: nat)
    requires Tally(ps, g) > 0
    ensures i < |ps| && Belongs(ps[i], g)
  {
    if Belongs(ps[0], g) { i := 0; } else {
      i := TallyFinds(ps[1..], g);
      i := i + 1;
    }
  }

  lemma {:induction false} TallyHas(ps: seq<Phase>, g: Group, i: nat)
    requires i < |ps| && Belongs(ps[i], g)
    ensures Tally(ps, g) > 0
  {
    if i > 0 { TallyHas(ps[1..], g, i - 1); }
  }

  function Enrolled(enrolled: seq<bool>): nat {
    if enrolled == [] then 0 else (if enrolled[0] then 1 else 0) + Enrolled(enrolled[1..])
  }

  // ----- what every schedule keeps -----

  /** Where the dispatcher is, and what that says about each host. */
  predicate Placed(enrolled: seq<bool>, s: Pool) {
    && |s.phases| == |enrolled| && s.next <= |enrolled|
    && (s.waiting ==> s.next < |enrolled| && enrolled[s.next])
    && (forall i :: s.next <= i < |s.phases| ==> s.phases[i].Idle?)
    && (forall i :: 0 <= i < s.next ==> (s.phases[i].Skipped? <==> !enrolled[i]) && !s.phases[i].Idle?)
  }

  /** The shared counters say exactly what the hosts' phases say. */
  predicate Accounted(s: Pool) {
    && s.slots == Tally(s.phases, InFlight) && s.slots <= CONCURRENCY
    && s.wg == Tally(s.phases, Unreported) + (if s.waiting then 1 else 0)
    && s.pushed == Tally(s.phases, Verified) && s.failed == Tally(s.phases, Missed)
  }

  predicate Inv(enrolled: seq<bool>, s: Pool) {
    && Placed(enrolled, s) && Accounted(s)
    && (s.returned ==> s.next == |enrolled| && s.wg == 0 && !s.waiting)
  }

  lemma StartInv(enrolled: seq<bool>)
    ensures Inv(enrolled, Start(enrolled))
  {
    forall g ensures Tally(Start(enrolled).phases, g) == 0 { TallyNone(Start(enrolled).phases, g); }
  }

  lemma StepPlaced(enrolled: seq<bool>, s: Pool, e: Event)
    requires Placed(enrolled, s)
    ensures Placed(enrolled, Apply(enrolled, s, e))
  {
  }

  /** Moving host `i` to phase `p` moves each tally by what that host contributes. */
  lemma Moved(ps: seq<Phase>, i: nat, p: Phase)
    requires i < |ps|
    ensures Tally(ps[i := p], InFlight) == Tally(ps, InFlight) - One(ps[i], InFlight) + One(p, InFlight)
    ensures Tally(ps[i := p], Unreported) == Tally(ps, Unreported) - One(ps[i], Unreported) + One(p, Unreported)
    ensures Tally(ps[i := p], Verified) == Tally(ps, Verified) - One(ps[i], Verified) + One(p, Verified)
    ensures Tally(ps[i := p], Missed) == Tally(ps, Missed) - One(ps[i], Missed) + One(p, Missed)
    ensures Tally(ps, InFlight) >= One(ps[i], InFlight)
  {
    TallyUpdate(ps, i, p, InFlight);
    TallyUpdate(ps, i, p, Unreported);
    TallyUpdate(ps, i, p, Verified);
    TallyUpdate(ps, i, p, Missed);
    if Belongs(ps[i], InFlight) { TallyHas(ps, InFlight, i); }
  }

  lemma DispatchAccounted(enrolled: seq<bool>, s: Pool, e: Event)
    requires Placed(enrolled, s) && Accounted(s) && (e.Consider? || e.Acquire? || e.Return?)
    ensures Accounted(Apply(enrolled, s, e))
  {
    if s.next < |enrolled| {
      Moved(s.phases, s.next, if e.Consider? then Skipped else Pushing);
    }
  }

  lemma WorkerAccounted(enrolled: seq<bool>, s: Pool, e: Event)
    requires Placed(enrolled, s) && Accounted(s) && (e.Count? || e.Release? || e.Done?)
    ensures Accounted(Apply(enrolled, s, e))
  {
    if Enabled(enrolled, s, e) {
      Moved(s.phases, e.i, Apply(enrolled, s, e).phases[e.i]);
    }
  }

  lemma StepInv(enrolled: seq<bool>, s: Pool, e: Event)
    requires Inv(enrolled, s)
    ensures Inv(enrolled, Apply(enrolled, s, e))
  {
    StepPlaced(enrolled, s, e);
    if e.Consider? || e.Acquire? || e.Return? { DispatchAccounted(enrolled, s, e); }
    else { WorkerAccounted(enrolled, s, e); }
    if s.returned && Enabled(enrolled, s, e) && (e.Count? || e.Release? || e.Done?) {
      TallyHas(s.phases, Unreported, e.i);
    }
  }

  lemma {:induction false} RunInv(enrolled: seq<bool>, es: seq<Event>)
    ensures Inv(enrolled, Run(enrolled, es))
    decreases |es|
  {
    if es == [] { StartInv(enrolled); } else {
      RunInv(enrolled, es[..|es| - 1]);
      StepInv(enrolled, Run(enrolled, es[..|es| - 1]), es[|es| - 1]);
    }
  }

  /** In every schedule at most eight pushes are in flight. */
  lemma AtMostEightInFlight(enrolled: seq<bool>, es: seq<Event>)
    ensures Tally(Run(enrolled, es).phases, InFlight) <= 8
  {
    RunInv(enrolled, es);
  }

  /** And a waiting push gets a slot exactly while fewer than eight are. */
  lemma SlotIffFewerThanEight(enrolled: seq<bool>, es: seq<Event>)
    requires Run(enrolled, es).waiting
    ensures Enabled(enrolled, Run(enrolled, es), Acquire) <==> Tally(Run(enrolled, es).phases, InFlight) < 8
  {
    RunInv(enrolled, es);
  }

  lemma {:induction false} VerdictsCover(enrolled: seq<bool>, ps: seq<Phase>)
    requires |ps| == |enrolled|
    requires forall i :: 0 <= i < |ps| ==> if enrolled[i] then ps[i].Finished? else ps[i].Skipped?
    ensures Tally(ps, Verified) + Tally(ps, Missed) == Enrolled(enrolled)
  {
    if ps != [] { VerdictsCover(enrolled[1..], ps[1..]); }
  }

  /** When the distribution returns, every enrolled host has exactly one verdict, no other host has
      one, the counters count just those verdicts, and together they make up the enrolled hosts. */
  lemma ReturnIsExact(enrolled: seq<bool>, es: seq<Event>)
    requires Run(enrolled, es).returned
    ensures var s := Run(enrolled, es);
            && (forall i :: 0 <= i < |enrolled| ==> if enrolled[i] then s.phases[i].Finished? else s.phases[i].Skipped?)
            && s.pushed == Tally(s.phases, Verified) && s.failed == Tally(s.phases, Missed)
            && s.pushed + s.failed == Enrolled(enrolled) && s.slots == 0
  {
    RunInv(enrolled, es);
    var s := Run(enrolled, es);
    forall i | 0 <= i < |enrolled| ensures if enrolled[i] then s.phases[i].Finished? else s.phases[i].Skipped? {
      if Belongs(s.phases[i], Unreported) { TallyHas(s.phases, Unreported, i); }
    }
    VerdictsCover(enrolled, s.phases);
    TallyNone(s.phases, InFlight);
  }

  // ----- every schedule that keeps going returns -----

  /** Steps one host still needs. */
  function Remaining(e: bool, p: Phase): nat {
    match p
    case Idle => if e then 5 else 1
    case Skipped => 0
    case Pushing => 3
    case Counted(_) => 2
    case Released(_) => 1
    case Finished(_) => 0
  }

  function Steps(enrolled: seq<bool>, ps: seq<Phase>): nat
    requires |enrolled| == |ps|
  {
    if ps == [] then 0 else Remaining(enrolled[0], ps[0]) + Steps(enrolled[1..], ps[1..])
  }

  /** Steps the whole distribution still needs. */
  function Work(enrolled: seq<bool>, s: Pool): int
    requires |enrolled| == |s.phases|
  {
    Steps(enrolled, s.phases) - (if s.waiting then 1 else 0) + (if s.returned then 0 else 1)
  }

  lemma {:induction false} StepsUpdate(enrolled: seq<bool>, ps: seq<Phase>, i: nat, p: Phase)
    requires |enrolled| == |ps| && i < |ps|
    ensures Steps(enrolled, ps[i := p]) == Steps(enrolled, ps) - Remaining(enrolled[i], ps[i]) + Remaining(enrolled[i], p)
    decreases |ps|
  {
    if i > 0 {
      assert ps[i := p][1..] == ps[1..][i - 1 := p];
      StepsUpdate(enrolled[1..], ps[1..], i - 1, p);
    } else {
      assert ps[i := p][1..] == ps[1..];
    }
  }

  /** Every step that happens uses up exactly one unit of work, whoever takes it. */
  lemma StepUsesOneUnit(enrolled: seq<bool>, s: Pool, e: Event)
    requires Inv(enrolled, s) && Enabled(enrolled, s, e)
    ensures Work(enrolled, Apply(enrolled, s, e)) == Work(enrolled, s) - 1
  {
    match e
    case Consider => if !enrolled[s.next] { StepsUpdate(enrolled, s.phases, s.next, Skipped); }
    case Acquire => StepsUpdate(enrolled, s.phases, s.next, Pushing);
    case Count(i, ok) => StepsUpdate(enrolled, s.phases, i, Counted(ok));
    case Release(i) => StepsUpdate(enrolled, s.phases, i, Released(s.phases[i].ok));
    case Done(i) => StepsUpdate(enrolled, s.phases, i, Finished(s.phases[i].ok));
    case Return =>
  }

  /** As long as it has not returned some step is possible: the slots cannot deadlock. */
  lemma NoDeadlock(enrolled: seq<bool>, s: Pool) returns (e: Event)
    requires Inv(enrolled, s) && !s.returned
    ensures Enabled(enrolled, s, e)
  {
    if Tally(s.phases, Unreported) > 0 {
      var i := TallyFinds(s.phases, Unreported);
      e := if s.phases[i].Pushing? then Count(i, true) else if s.phases[i].Counted? then Release(i) else Done(i);
    } else if s.waiting {
      if s.slots > 0 {
        var i := TallyFinds(s.phases, InFlight);
        TallyHas(s.phases, Unreported, i);
      }
      e := Acquire;
    } else if s.next < |enrolled| {
      e := Consider;
    } else {
      e := Return;
    }
  }

  /** A schedule in which every event really happens. */
  ghost predicate Effective(enrolled: seq<bool>, es: seq<Event>) {
    forall k :: 0 <= k < |es| ==> Enabled(enrolled, Run(enrolled, es[..k]), es[k])
  }

  lemma {:induction false} EffectiveWork(enrolled: seq<bool>, es: seq<Event>)
    requires Effective(enrolled, es)
    ensures Work(enrolled, Run(enrolled, es)) + |es| == Work(enrolled, Start(enrolled))
    decreases |es|
  {
    if es != [] {
      var init := es[..|es| - 1];
      forall k | 0 <= k < |init| ensures Enabled(enrolled, Run(enrolled, init[..k]), init[k]) {
        assert init[..k] == es[..k];
      }
      EffectiveWork(enrolled, init);
      RunInv(enrolled, init);
      StepUsesOneUnit(enrolled, Run(enrolled, init), es[|es| - 1]);
    }
  }

  lemma {:induction false} AllSettled(enrolled: seq<bool>, ps: seq<Phase>)
    requires |ps| == |enrolled|
    requires forall i :: 0 <= i < |ps| ==> if enrolled[i] then ps[i].Finished? else ps[i].Skipped?
    ensures Steps(enrolled, ps) == 0
  {
    if ps != [] { AllSettled(enrolled[1..], ps[1..]); }
  }

  /** All schedules have the same length when they return, none is longer, and a shorter one can always
      be continued: whatever the scheduler does, the distribution returns. */
  lemma EveryScheduleReturns(enrolled: seq<bool>, es: seq<Event>)
    requires Effective(enrolled, es)
    ensures |es| <= Work(enrolled, Start(enrolled))
    ensures Run(enrolled, es).returned <==> |es| == Work(enrolled, Start(enrolled))
    ensures !Run(enrolled, es).returned ==> exists e :: Enabled(enrolled, Run(enrolled, es), e)
  {
    var s := Run(enrolled, es);
    EffectiveWork(enrolled, es);
    RunInv(enrolled, es);
    if s.returned {
      ReturnIsExact(enrolled, es);
      AllSettled(enrolled, s.phases);
    } else {
      var e := NoDeadlock(enrolled, s);
      StepUsesOneUnit(enrolled, s, e);
      WaitingIsCounted(enrolled, s);
      WaitingIsCounted(enrolled, Apply(enrolled, s, e));
    }
  }

  lemma WaitingIsCounted(enrolled: seq<bool>, s: Pool)
    requires Placed(enrolled, s)
    ensures Work(enrolled, s) >= if s.returned then 0 else 1
  {
    if s.waiting { StepsUpdate(enrolled, s.phases, s.next, Skipped); }
  }

  // ----- one worker -----

  /** What dialling an address leads to. */
  datatype Dial = Unreachable | NoSession | Ran(verified: bool)

  /** `out` is `ins` without empty and repeated entries, in order of first appearance. */
  function Firsts(ins: seq<string>): (out: seq<string>)
    ensures Distinct(out) && forall v :: v in out <==> v in ins && v != ""
  {
    if ins == [] then [] else
    var v := ins[|ins| - 1];
    var out := Firsts(ins[..|ins| - 1]);
    assert ins == ins[..|ins| - 1] + [v];
    if v == "" || v in out then out else out + [v]
  }

  /** Addresses are tried in the order they first appear in. */
  lemma {:induction false} FirstsInOrder(ins: seq<string>, i: nat, j: nat) returns (p: nat)
    requires i < j < |Firsts(ins)|
    ensures p < |ins| && ins[p] == Firsts(ins)[i] && Firsts(ins)[j] !in ins[..p + 1]
    decreases |ins|
  {
    var init := ins[..|ins| - 1];
    var out := Firsts(init);
    if j < |out| {
      p := FirstsInOrder(init, i, j);
      assert init[..p + 1] == ins[..p + 1];
    } else {
      assert out[i] in init;
      p :| 0 <= p < |init| && init[p] == out[i];
      assert forall v :: v in ins[..p + 1] ==> v in init;
    }
  }

  method Dedupe(ins: seq<string>) returns (out: seq<string>)
    ensures out == Firsts(ins)
  {
    var seen: set<string> := {};
    out := [];
    for n := 0 to |ins|
      invariant out == Firsts(ins[..n]) && forall v :: v in seen <==> v in out
    {
      assert ins[..n + 1][..n] == ins[..n];
      if ins[n] == "" || ins[n] in seen { continue; }
      seen := seen + {ins[n]};
      out := out + [ins[n]];
    }
    assert ins[..|ins|] == ins;
  }

  /** A push is verified exactly when a credential was issued and the first address that answers at all
      opens a session and reports success; later addresses are never tried for a second verdict. */
  method PushHost(credential: bool, addrs: seq<string>, dial: string -> Dial) returns (ok: bool)
    ensures ok <==> credential && exists i :: 0 <= i < |Firsts(addrs)| && dial(Firsts(addrs)[i]) == Ran(true)
                                              && forall j :: 0 <= j < i ==> dial(Firsts(addrs)[j]) == Unreachable
  {
    if !credential { return false; }
    var tries := Dedupe(addrs);
    for n := 0 to |tries|
      invariant forall j :: 0 <= j < n ==> dial(tries[j]) == Unreachable
    {
      match dial(tries[n])
      case Unreachable => continue;
      case NoSession => return false;
      case Ran(verified) => return verified;
    }
    return false;
  }
}
