/** Tracking accepted connections so that shutdown can wait for them.  Accept and Close are cut at
    every shared write; any interleaving, with any number of concurrent Close calls on one
    connection, is a sequence of events.  An event that cannot happen leaves the state alone. */
module Drain {

  type ConnId = nat
  type CloserId = nat

  /** How far Accept has come with a connection. */
  datatype Intake = Raw | InGroup | Returned

  /** The connection's once: who is inside, and how far. */
  datatype Once = Fresh | Entered(who: CloserId) | Uncounted(who: CloserId) | Spent

  datatype Conn = Conn(intake: Intake, open: bool, once: Once, closing: set<CloserId>, releases: nat)

  datatype State = State(conns: map<ConnId, Conn>, count: int, wg: int)

  datatype Event =
    | Arrive(c: ConnId)                     // the listener accepted a connection
    | AddGroup(c: ConnId)                   // wg.Add(1)
    | AddCount(c: ConnId)                   // count + 1, and the wrapped connection is returned
    | CloseRaw(c: ConnId, k: CloserId)      // a Close call closes the underlying connection
    | EnterOnce(c: ConnId, k: CloserId)
    | Uncount(c: ConnId, k: CloserId)       // count - 1
    | LeaveGroup(c: ConnId, k: CloserId)    // wg.Done()

  predicate Enabled(s: State, e: Event) {
    match e
    case Arrive(c) => c !in s.conns
    case AddGroup(c) => c in s.conns && s.conns[c].intake == Raw
    case AddCount(c) => c in s.conns && s.conns[c].intake == InGroup
    case CloseRaw(c, k) => c in s.conns && s.conns[c].intake == Returned && k !in s.conns[c].closing
    case EnterOnce(c, k) => c in s.conns && k in s.conns[c].closing && (s.conns[c].once == Fresh || s.conns[c].once == Spent)
    case Uncount(c, k) => c in s.conns && s.conns[c].once == Entered(k)
    case LeaveGroup(c, k) => c in s.conns && s.conns[c].once == Uncounted(k)
  }

  function Put(s: State, c: ConnId, x: Conn): State { s.(conns := s.conns[c := x]) }

  function Apply(s: State, e: Event): State {
    if !Enabled(s, e) then s else
    match e
    case Arrive(c) => Put(s, c, Conn(Raw, true, Fresh, {}, 0))
    case AddGroup(c) => Put(s.(wg := s.wg + 1), c, s.conns[c].(intake := InGroup))
    case AddCount(c) => Put(s.(count := s.count + 1), c, s.conns[c].(intake := Returned))
    case CloseRaw(c, k) => Put(s, c, s.conns[c].(open := false, closing := s.conns[c].closing + {k}))
    case EnterOnce(c, k) =>
      Put(s, c, s.conns[c].(once := if s.conns[c].once == Fresh then Entered(k) else Spent,
                            closing := s.conns[c].closing - {k}))
    case Uncount(c, k) => Put(s.(count := s.count - 1), c, s.conns[c].(once := Uncounted(k)))
    case LeaveGroup(c, k) =>
      Put(s.(wg := s.wg - 1), c, s.conns[c].(once := Spent, releases := s.conns[c].releases + 1))
  }

  const START := State(map[], 0, 0)

  function Run(es: seq<Event>): State
    decreases |es|
  {
    if es == [] then START else Apply(Run(es[..|es| - 1]), es[|es| - 1])
  }

  // ----- what every interleaving keeps -----

  predicate CountedConn(x: Conn) { x.intake == Returned && !x.once.Uncounted? && !x.once.Spent? }
  predicate GroupedConn(x: Conn) { x.intake != Raw && !x.once.Spent? }

  /** The connections the counter stands for, and those the wait group stands for. */
  function Counted(s: State): set<ConnId> { set c | c in s.conns && CountedConn(s.conns[c]) }
  function Grouped(s: State): set<ConnId> { set c | c in s.conns && GroupedConn(s.conns[c]) }

  lemma PutMoves(s: State, c: ConnId, x: Conn, count: int, wg: int)
    ensures var s' := Put(s.(count := count, wg := wg), c, x);
            Counted(s') == (if CountedConn(x) then Counted(s) + {c} else Counted(s) - {c})
            && Grouped(s') == (if GroupedConn(x) then Grouped(s) + {c} else Grouped(s) - {c})
  {
  }

  predicate ConnSound(x: Conn) {
    && (x.intake != Returned ==> x.open && x.once == Fresh && x.closing == {})
    && (x.once != Fresh || x.closing != {} ==> !x.open)
    && (x.open ==> x.once == Fresh)
    && (!x.open ==> x.closing != {} || x.once != Fresh)
    && x.releases == if x.once == Spent then 1 else 0
  }

  predicate Inv(s: State) {
    && s.count == |Counted(s)| && s.wg == |Grouped(s)|
    && forall c :: c in s.conns ==> ConnSound(s.conns[c])
  }

  lemma ConnStep(s: State, e: Event)
    requires Enabled(s, e) && (e.c in s.conns ==> ConnSound(s.conns[e.c]))
    ensures e.c in Apply(s, e).conns && ConnSound(Apply(s, e).conns[e.c])
  {
  }

  /** A step changes one connection, and each counter by exactly what that connection's standing changes. */
  lemma StepShape(s: State, e: Event)
    requires Enabled(s, e) && (e.c in s.conns ==> ConnSound(s.conns[e.c]))
    ensures var s' := Apply(s, e);
            && e.c in s'.conns && s' == Put(s.(count := s'.count, wg := s'.wg), e.c, s'.conns[e.c])
            && s'.count == s.count + (if CountedConn(s'.conns[e.c]) then 1 else 0) - (if e.c in Counted(s) then 1 else 0)
            && s'.wg == s.wg + (if GroupedConn(s'.conns[e.c]) then 1 else 0) - (if e.c in Grouped(s) then 1 else 0)
  {
  }

  lemma PutInv(s: State, c: ConnId, x: Conn, count: int, wg: int)
    requires Inv(s) && ConnSound(x)
    requires count == s.count + (if CountedConn(x) then 1 else 0) - (if c in Counted(s) then 1 else 0)
    requires wg == s.wg + (if GroupedConn(x) then 1 else 0) - (if c in Grouped(s) then 1 else 0)
    ensures Inv(Put(s.(count := count, wg := wg), c, x))
  {
    PutMoves(s, c, x, count, wg);
  }

  lemma StepInv(s: State, e: Event)
    requires Inv(s)
    ensures Inv(Apply(s, e))
  {
    if Enabled(s, e) {
      ConnStep(s, e);
      StepShape(s, e);
      var s' := Apply(s, e);
      PutInv(s, e.c, s'.conns[e.c], s'.count, s'.wg);
    }
  }

  lemma {:induction false} RunInv(es: seq<Event>)
    ensures Inv(Run(es))
    decreases |es|
  {
    if es != [] {
      RunInv(es[..|es| - 1]);
      StepInv(Run(es[..|es| - 1]), es[|es| - 1]);
    }
  }

  /** No interleaving takes a counter below zero or releases a connection twice. */
  lemma NeverNegative(es: seq<Event>, c: ConnId)
    ensures Run(es).count >= 0 && Run(es).wg >= 0
    ensures c in Run(es).conns ==> Run(es).conns[c].releases <= 1
  {
    RunInv(es);
    if c in Run(es).conns { assert ConnSound(Run(es).conns[c]); }
  }

  /** Once every Close call on a connection has come back, it has been released exactly once. */
  lemma ClosedIsReleasedOnce(es: seq<Event>, c: ConnId)
    requires c in Run(es).conns && !Run(es).conns[c].open
    requires Run(es).conns[c].closing == {} && !Run(es).conns[c].once.Entered? && !Run(es).conns[c].once.Uncounted?
    ensures Run(es).conns[c].releases == 1
  {
    RunInv(es);
    assert ConnSound(Run(es).conns[c]);
  }

  predicate AcceptInProgress(s: State) { exists c :: c in s.conns && s.conns[c].intake != Returned }

  predicate AllClosed(s: State) { forall c :: c in s.conns ==> !s.conns[c].open }

  /** Some connection has been handed to the wait group and not released. */
  predicate SomeTracked(s: State) { exists c :: c in s.conns && s.conns[c].intake != Raw && s.conns[c].releases == 0 }

  /** A zero counter means every connection whose Accept has returned is closed, and every accepted connection
      is exactly when no Accept is under way. */
  lemma ZeroCountIff(es: seq<Event>)
    requires Run(es).count == 0
    ensures forall c :: c in Run(es).conns ==> (Run(es).conns[c].open <==> Run(es).conns[c].intake != Returned)
    ensures AllClosed(Run(es)) <==> !AcceptInProgress(Run(es))
  {
    RunInv(es);
    var s := Run(es);
    forall c | c in s.conns ensures s.conns[c].open <==> s.conns[c].intake != Returned {
      assert ConnSound(s.conns[c]) && c !in Counted(s);
    }
  }

  /** An empty wait group means every connection it was ever told of is closed and released, and every
      accepted connection is closed exactly when there is none it was not told of. */
  lemma EmptyGroupIff(es: seq<Event>)
    requires Run(es).wg == 0
    ensures var s := Run(es);
            && (forall c :: c in s.conns && s.conns[c].intake != Raw ==> !s.conns[c].open && s.conns[c].releases == 1)
            && (AllClosed(s) <==> forall c :: c in s.conns ==> s.conns[c].intake != Raw)
  {
    RunInv(es);
    var s := Run(es);
    forall c | c in s.conns
      ensures s.conns[c].intake == Raw ==> s.conns[c].open
      ensures s.conns[c].intake != Raw ==> !s.conns[c].open && s.conns[c].releases == 1
    {
      assert ConnSound(s.conns[c]) && c !in Grouped(s);
    }
  }

  /** The wait group is empty exactly when nothing tracked is left. */
  lemma GroupTracks(es: seq<Event>)
    ensures Run(es).wg == 0 <==> !SomeTracked(Run(es))
  {
    RunInv(es);
    var s := Run(es);
    if s.wg != 0 {
      var c :| c in Grouped(s);
      assert ConnSound(s.conns[c]);
    } else {
      EmptyGroupIff(es);
    }
  }

  /** While an Accept is between the wait group and the counter, the counter reads zero over an open
      connection. */
  lemma ZeroCountDuringAccept(c: ConnId)
    ensures var s := Run([Arrive(c), AddGroup(c)]);
            s.count == 0 && c in s.conns && s.conns[c].open && AcceptInProgress(s)
  {
    var es := [Arrive(c), AddGroup(c)];
    assert es[..1] == [Arrive(c)] && es[..1][..0] == [];
    var s1 := Apply(START, Arrive(c));
    assert Run(es[..1]) == s1;
    assert Run(es) == Apply(s1, AddGroup(c));
    assert Run(es).conns[c].intake != Returned;
  }

  // ----- waiting for the drain -----

  /** The listener is closed from position `n` on. */
  predicate NoArrivals(es: seq<Event>, n: nat) { forall k :: n <= k < |es| ==> !es[k].Arrive? }

  /** With the listener closed and no Accept under way, no Accept begins and nothing closed reopens. */
  lemma {:induction false} QuietStays(es: seq<Event>, n: nat, k: nat)
    requires n <= k <= |es| && NoArrivals(es, n) && !AcceptInProgress(Run(es[..n]))
    ensures !AcceptInProgress(Run(es[..k])) && Run(es[..k]).conns.Keys == Run(es[..n]).conns.Keys
    ensures forall c :: c in Run(es[..n]).conns && !Run(es[..n]).conns[c].open ==> !Run(es[..k]).conns[c].open
    decreases k
  {
    if n < k {
      QuietStays(es, n, k - 1);
      assert es[..k][..k - 1] == es[..k - 1];
      assert Run(es[..k]) == Apply(Run(es[..k - 1]), es[k - 1]);
    }
  }

  /** Positions of the run at which the waiter looks. */
  predicate Looks(es: seq<Event>, p: seq<nat>) {
    && p != [] && (forall i :: 0 <= i < |p| ==> p[i] <= |es|)
    && forall i, j :: 0 <= i < j < |p| ==> p[i] <= p[j]
  }

  /** What a report of completion is worth at the position it was made on. */
  predicate Drained(s: State, atEntry: bool) {
    if atEntry
    then (forall c :: c in s.conns && s.conns[c].intake == Returned ==> !s.conns[c].open)
         && (AllClosed(s) <==> !AcceptInProgress(s))
    else (forall c :: c in s.conns && s.conns[c].intake != Raw ==> !s.conns[c].open && s.conns[c].releases == 1)
         && (AllClosed(s) <==> forall c :: c in s.conns ==> s.conns[c].intake != Raw)
  }

  /** Once the listener is closed and no Accept is under way, a report of completion holds for good. */
  lemma DrainedForGood(es: seq<Event>, n: nat, m: nat, atEntry: bool)
    requires n <= m <= |es| && Drained(Run(es[..m]), atEntry)
    ensures NoArrivals(es, n) && !AcceptInProgress(Run(es[..n])) ==>
              forall k :: m <= k <= |es| ==> AllClosed(Run(es[..k]))
  {
    if NoArrivals(es, n) && !AcceptInProgress(Run(es[..n])) {
      QuietStays(es, n, m);
      assert AllClosed(Run(es[..m]));
      forall k | m <= k <= |es| ensures AllClosed(Run(es[..k])) {
        QuietStays(es, m, k);
      }
    }
  }

  /** Waiting for the drain while the run `es` goes on: the first look, at the counter, is on entry; the
      others are at the wait group, until it is empty or the deadline has come.

      Completion is reported on entry only when every connection whose Accept has returned is closed, and later
      only when every connection the wait group was told of is.  That is every connection there is exactly
      when no Accept stands in between; after the listener is closed, with no Accept under way, it stays so
      for the rest of the run.  Giving up means that at every look something
      tracked was still there. */
  method AwaitConnDrain(es: seq<Event>, p: seq<nat>, deadline: nat) returns (drained: bool, at: nat)
    requires Looks(es, p) && deadline < |p|
    ensures at < |p|
    ensures drained ==> Drained(Run(es[..p[at]]), at == 0)
    ensures drained && NoArrivals(es, p[0]) && !AcceptInProgress(Run(es[..p[0]])) ==>
              forall k :: p[at] <= k <= |es| ==> AllClosed(Run(es[..k]))
    ensures !drained ==> at == deadline && SomeTracked(Run(es[..p[0]]))
                         && forall i :: 0 < i < at ==> SomeTracked(Run(es[..p[i]]))
  {
    if Run(es[..p[0]]).count == 0 {
      ZeroCountIff(es[..p[0]]);
      DrainedForGood(es, p[0], p[0], true);
      return true, 0;
    }
    CountTracks(es[..p[0]]);
    at := 1;
    while at < deadline
      invariant at == 1 || at <= deadline
      invariant forall i :: 0 < i < at ==> SomeTracked(Run(es[..p[i]]))
    {
      GroupTracks(es[..p[at]]);
      if Run(es[..p[at]]).wg == 0 {
        EmptyGroupIff(es[..p[at]]);
        DrainedForGood(es, p[0], p[at], false);
        return true, at;
      }
      at := at + 1;
    }
    return false, deadline;
  }

  lemma CountTracks(es: seq<Event>)
    requires Run(es).count != 0
    ensures SomeTracked(Run(es))
  {
    RunInv(es);
    var s := Run(es);
    var c :| c in Counted(s);
    assert ConnSound(s.conns[c]);
  }
}
