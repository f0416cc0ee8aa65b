/** An action's effect runs at most once, never once the action is dead, and an action's
    status only ever moves down a rank. */
module ActionSafety {
  import opened ActionMachine

  // ----- what every run keeps -----

  /** The call holds the row: it was the one whose claim succeeded. */
  predicate Owns(call: Call) { call.phase.Claimed? || call.phase.Ran? }

  predicate HasRow(call: Call) {
    call.phase.Fetched? || call.phase.Vetting? || call.phase.Account? || call.phase.Cleared?
    || call.phase.Claimed? || call.phase.Ran?
  }

  /** Owner, kind and stored risk of an action never change. */
  predicate SameAction(a: Row, b: Row) { a.owner == b.owner && a.kind == b.kind && a.risk == b.risk }

  predicate CallSound(s: State, call: Call) {
    && (HasRow(call) ==> call.id in s.issued && (call.id in s.rows ==> SameAction(call.phase.row, s.rows[call.id])))
    && (Owns(call) ==> call.id in s.rows ==> s.rows[call.id].status == Executed)
    && (call.phase.Cleared? && call.op == RequestApproval ==>
          call.actor.id == call.phase.row.owner && call.phase.row.risk != Safe)
    && (call.phase.Vetting? || call.phase.Account? ==> call.op == Approve)
  }

  predicate EffectSound(s: State, id: ActionId) {
    id in s.issued && (id in s.rows ==> s.rows[id].status == Executed || s.rows[id].status == Failed)
  }

  predicate RowSound(row: Row) { row.status == PendingApproval ==> row.risk != Safe }

  predicate Unrun(s: State, id: ActionId) { forall k :: 0 <= k < |s.effects| ==> s.effects[k].id != id }

  ghost predicate Sound(s: State) {
    && (forall id :: id in s.rows ==> id in s.issued && RowSound(s.rows[id]))
    && (forall c :: c in s.calls ==> CallSound(s, s.calls[c]))
    && (forall c, d :: c in s.calls && d in s.calls && c != d && Owns(s.calls[c]) && Owns(s.calls[d])
                       ==> s.calls[c].id != s.calls[d].id)
    && (forall c :: c in s.calls && s.calls[c].phase.Claimed? ==> Unrun(s, s.calls[c].id))
    && (forall k :: 0 <= k < |s.effects| ==> EffectSound(s, s.effects[k].id))
    && (forall j, k :: 0 <= j < k < |s.effects| ==> s.effects[j].id != s.effects[k].id)
  }

  /** The only ways the rows may change without touching a call: each row keeps its action,
      rows in Executed or Failed stay put, and no row leaves and comes back. */
  predicate RowsTame(s: State, rows: map<ActionId, Row>) {
    forall id :: id in rows ==>
      && id in s.rows && SameAction(s.rows[id], rows[id]) && RowSound(rows[id])
      && (s.rows[id].status == Executed || s.rows[id].status == Failed ==> rows[id].status == s.rows[id].status)
  }

  lemma TameKeeps(s: State, rows: map<ActionId, Row>)
    requires Sound(s) && RowsTame(s, rows)
    ensures Sound(s.(rows := rows))
  {
  }

  /** Replacing a call by one that owns nothing keeps soundness. */
  lemma PutKeeps(s: State, c: CallId, call: Call)
    requires Sound(s) && CallSound(s, call) && !Owns(call)
    ensures Sound(Put(s, c, call))
  {
    var s' := Put(s, c, call);
    forall d | d in s'.calls ensures CallSound(s', s'.calls[d]) {
      if d != c { assert CallSound(s, s.calls[d]); }
    }
  }

  lemma ProposeKeeps(defs: Defs, s: State, uid: UserId, id: ActionId, kind: string, all: bool, dis: bool, prep: bool)
    requires Sound(s)
    ensures Sound(ProposeStep(defs, s, uid, id, kind, all, dis, prep))
  {
    var s' := ProposeStep(defs, s, uid, id, kind, all, dis, prep);
    forall c | c in s'.calls ensures CallSound(s', s'.calls[c]) {
      assert CallSound(s, s.calls[c]);
    }
    forall k | 0 <= k < |s'.effects| ensures EffectSound(s', s'.effects[k].id) {
      assert EffectSound(s, s.effects[k].id);
    }
  }

  lemma JudgeKeeps(defs: Defs, s: State, c: CallId)
    requires Sound(s)
    ensures Sound(JudgeStep(defs, s, c))
  {
    if c in s.calls && s.calls[c].phase.Fetched? {
      var k := s.calls[c];
      PutKeeps(s, c, k.(phase := JudgePhase(defs, k.op, k.actor, k.phase.row, s.now), at := k.at.(clock := s.step)));
    }
  }

  lemma LoadsKeep(defs: Defs, s: State, c: CallId, ok: bool)
    requires Sound(s)
    ensures Sound(FetchStep(s, c, ok)) && Sound(LoadAccountStep(s, c, ok)) && Sound(LoadPermissionsStep(defs, s, c, ok))
  {
    if c in s.calls {
      var k := s.calls[c];
      assert CallSound(s, k);
      if k.phase.Entered? { PutKeeps(s, c, FetchStep(s, c, ok).calls[c]); }
      if k.phase.Vetting? { PutKeeps(s, c, LoadAccountStep(s, c, ok).calls[c]); }
      if k.phase.Account? { PutKeeps(s, c, LoadPermissionsStep(defs, s, c, ok).calls[c]); }
    }
  }

  lemma WriteIsTame(s: State, c: CallId)
    requires Sound(s) && c in s.calls
    ensures RowsTame(s, WriteRows(s, s.calls[c]))
  {
    assert CallSound(s, s.calls[c]);
  }

  /** The row a claim takes was still open, so nobody owned it and nothing had run. */
  lemma ClaimKeeps(s: State, c: CallId, call: Call)
    requires Sound(s) && c in s.calls && Sound(s.(rows := WriteRows(s, s.calls[c])))
    requires WritePhase(s, s.calls[c], Acked).Claimed?
    requires call.phase == WritePhase(s, s.calls[c], Acked) && call.id == s.calls[c].id
    ensures Sound(Put(s.(rows := WriteRows(s, s.calls[c])), c, call))
  {
    var s' := s.(rows := WriteRows(s, s.calls[c]));
    assert CallSound(s, s.calls[c]) && CallSound(s', s'.calls[c]);
    assert call.id in s.rows && s.rows[call.id].status != Executed && s.rows[call.id].status != Failed;
    forall d | d in s.calls && Owns(s.calls[d]) ensures s.calls[d].id != call.id {
      assert CallSound(s, s.calls[d]);
    }
    forall k | 0 <= k < |s.effects| ensures s.effects[k].id != call.id {
      assert EffectSound(s, s.effects[k].id);
    }
    var s2 := Put(s', c, call);
    forall d | d in s2.calls ensures CallSound(s2, s2.calls[d]) {
      if d != c { assert CallSound(s', s'.calls[d]); }
    }
  }

  lemma WriteKeeps(s: State, c: CallId, reply: Reply)
    requires Sound(s)
    ensures Sound(WriteStep(s, c, reply))
  {
    if c in s.calls && (s.calls[c].phase.Cleared? || s.calls[c].phase.Lapsed? || s.calls[c].phase.Refused?) {
      WriteIsTame(s, c);
      TameKeeps(s, WriteRows(s, s.calls[c]));
      var call := WriteStep(s, c, reply).calls[c];
      if call.phase.Claimed? {
        ClaimKeeps(s, c, call);
      } else {
        PutKeeps(if reply == NotApplied then s else s.(rows := WriteRows(s, s.calls[c])), c, call);
      }
    }
  }

  lemma RunEffectKeeps(s: State, c: CallId, ok: bool)
    requires Sound(s)
    ensures Sound(RunEffectStep(s, c, ok))
  {
    if c in s.calls && s.calls[c].phase.Claimed? {
      var s' := RunEffectStep(s, c, ok);
      assert CallSound(s, s.calls[c]);
      forall d | d in s'.calls ensures CallSound(s', s'.calls[d]) {
        if d != c { assert CallSound(s, s.calls[d]); }
      }
      forall d | d in s'.calls && s'.calls[d].phase.Claimed? ensures Unrun(s', s'.calls[d].id) {
        assert Unrun(s, s.calls[d].id) && Owns(s.calls[c]) && Owns(s.calls[d]);
      }
      forall k | 0 <= k < |s'.effects| ensures EffectSound(s', s'.effects[k].id) {
        if k < |s.effects| { assert EffectSound(s, s.effects[k].id); }
      }
      assert Unrun(s, s.calls[c].id);
    }
  }

  /** The unguarded finishing write touches only the row its own call owns. */
  lemma FinishKeeps(s: State, c: CallId, written: bool)
    requires Sound(s)
    ensures Sound(FinishStep(s, c, written))
  {
    if c in s.calls && s.calls[c].phase.Ran? {
      var k := s.calls[c];
      var s1 := Put(s, c, k.(phase := Closed));
      PutKeeps(s, c, k.(phase := Closed));
      var s' := FinishStep(s, c, written);
      assert CallSound(s, k);
      forall d | d in s'.calls ensures CallSound(s', s'.calls[d]) {
        assert CallSound(s1, s1.calls[d]);
        if d != c && Owns(s'.calls[d]) { assert Owns(s.calls[c]) && Owns(s.calls[d]); }
      }
      forall j | 0 <= j < |s'.effects| ensures EffectSound(s', s'.effects[j].id) {
        assert EffectSound(s, s.effects[j].id);
      }
    }
  }

  /** Soundness is about rows, calls and effects only. */
  lemma SoundIgnoresRest(s: State, t: State)
    requires Sound(s) && t.rows == s.rows && t.calls == s.calls && t.effects == s.effects && t.issued == s.issued
    ensures Sound(t)
  {
    forall c | c in t.calls ensures CallSound(t, t.calls[c]) { assert CallSound(s, s.calls[c]); }
    forall k | 0 <= k < |t.effects| ensures EffectSound(t, t.effects[k].id) { assert EffectSound(s, s.effects[k].id); }
    forall c | c in t.calls && t.calls[c].phase.Claimed? ensures Unrun(t, t.calls[c].id) { assert Unrun(s, s.calls[c].id); }
  }

  lemma DeletionKeeps(s: State, uid: UserId)
    requires Sound(s)
    ensures Sound(s.(users := s.users - {uid}, rows := DropOwned(s.rows, uid)))
  {
    TameKeeps(s, DropOwned(s.rows, uid));
    SoundIgnoresRest(s.(rows := DropOwned(s.rows, uid)), s.(users := s.users - {uid}, rows := DropOwned(s.rows, uid)));
  }

  lemma EnvironmentKeeps(defs: Defs, s: State, e: Event)
    requires Sound(s)
    requires e.Tick? || e.SetUser? || e.DeleteUser? || e.Reap? || e.Propose?
    ensures Sound(Effectuate(defs, s, e))
  {
    match e
    case Tick(_) => SoundIgnoresRest(s, Effectuate(defs, s, e));
    case SetUser(_, _) => SoundIgnoresRest(s, Effectuate(defs, s, e));
    case DeleteUser(uid) => DeletionKeeps(s, uid);
    case Reap => TameKeeps(s, ExpireRows(s.rows, s.now));
    case Propose(uid, id, kind, all, dis, prep) => ProposeKeeps(defs, s, uid, id, kind, all, dis, prep);
  }

  lemma CallEndsKeep(s: State, c: CallId, op: Op, uid: UserId, id: ActionId)
    requires Sound(s)
    ensures Sound(BeginStep(s, c, op, uid, id)) && Sound(AbandonStep(s, c))
  {
    if BeginStep(s, c, op, uid, id) != s { PutKeeps(s, c, BeginStep(s, c, op, uid, id).calls[c]); }
    if c in s.calls { PutKeeps(s, c, s.calls[c].(phase := Closed)); }
  }

  lemma StepKeeps(defs: Defs, s: State, e: Event)
    requires Sound(s)
    ensures Sound(Apply(defs, s, e))
  {
    assert Sound(Effectuate(defs, s, e)) by {
      match e
      case Begin(c, op, uid, id) => CallEndsKeep(s, c, op, uid, id);
      case Fetch(c, ok) => LoadsKeep(defs, s, c, ok);
      case Judge(c) => JudgeKeeps(defs, s, c);
      case LoadAccount(c, ok) => LoadsKeep(defs, s, c, ok);
      case LoadPermissions(c, ok) => LoadsKeep(defs, s, c, ok);
      case Write(c, reply) => WriteKeeps(s, c, reply);
      case RunEffect(c, ok) => RunEffectKeeps(s, c, ok);
      case Finish(c, written) => FinishKeeps(s, c, written);
      case Abandon(c) => CallEndsKeep(s, c, Execute, 0, 0);
      case _ => EnvironmentKeeps(defs, s, e);
    }
    SoundIgnoresRest(Effectuate(defs, s, e), Apply(defs, s, e));
  }

  lemma {:induction false} RunKeeps(defs: Defs, s: State, es: seq<Event>)
    requires Sound(s)
    ensures Sound(Run(defs, s, es))
    decreases |es|
  {
    if es != [] {
      RunKeeps(defs, s, es[..|es| - 1]);
      StepKeeps(defs, Run(defs, s, es[..|es| - 1]), es[|es| - 1]);
    }
  }

  lemma {:induction false} RunSplits(defs: Defs, s: State, es: seq<Event>, fs: seq<Event>)
    ensures Run(defs, s, es + fs) == Run(defs, Run(defs, s, es), fs)
    decreases |fs|
  {
    if fs == [] {
      assert es + fs == es;
    } else {
      var n := |fs| - 1;
      assert (es + fs)[..|es + fs| - 1] == es + fs[..n];
      RunSplits(defs, s, es, fs[..n]);
    }
  }

  function RunsOf(effects: seq<Effect>, id: ActionId): nat {
    if effects == [] then 0
    else RunsOf(effects[..|effects| - 1], id) + (if effects[|effects| - 1].id == id then 1 else 0)
  }

  lemma {:induction false} RunsOfDistinct(effects: seq<Effect>, id: ActionId)
    requires forall j, k :: 0 <= j < k < |effects| ==> effects[j].id != effects[k].id
    ensures RunsOf(effects, id) <= 1
    ensures (forall k :: 0 <= k < |effects| ==> effects[k].id != id) ==> RunsOf(effects, id) == 0
  {
    if effects != [] { RunsOfDistinct(effects[..|effects| - 1], id); }
  }

  /** In every interleaving, every action's effect runs at most once. */
  lemma EffectRunsAtMostOnce(defs: Defs, s: State, es: seq<Event>, id: ActionId)
    requires Initial(s)
    ensures RunsOf(Run(defs, s, es).effects, id) <= 1
  {
    RunKeeps(defs, s, es);
    RunsOfDistinct(Run(defs, s, es).effects, id);
  }

  // ----- ranks -----

  function Rank(status: Status): nat {
    match status
    case Proposed => 3
    case PendingApproval => 2
    case Executed => 1
    case _ => 0
  }

  /** The row, if it is still there, was there before and has only moved down. */
  predicate OnlyLowered(before: map<ActionId, Row>, after: map<ActionId, Row>, id: ActionId) {
    id in after ==>
      id in before
      && (after[id].status != before[id].status ==> Rank(after[id].status) < Rank(before[id].status))
  }

  /** Steps that do not write rows. */
  lemma ReadersKeepRows(defs: Defs, s: State, e: Event)
    requires !(e.DeleteUser? || e.Reap? || e.Propose? || e.Write? || e.Finish?)
    ensures Apply(defs, s, e).rows == s.rows && Apply(defs, s, e).issued == s.issued
  {
  }

  lemma WritersLower(s: State, c: CallId, reply: Reply, written: bool, id: ActionId)
    requires Sound(s)
    ensures OnlyLowered(s.rows, WriteStep(s, c, reply).rows, id) && OnlyLowered(s.rows, FinishStep(s, c, written).rows, id)
  {
    if c in s.calls { assert CallSound(s, s.calls[c]); }
  }

  /** Every actual change of an action's status lowers its rank; a deleted action stays away. */
  lemma StatusChangeLowersRank(defs: Defs, s: State, e: Event, id: ActionId)
    requires Sound(s) && id in s.issued
    ensures id in Apply(defs, s, e).issued && OnlyLowered(s.rows, Apply(defs, s, e).rows, id)
  {
    match e
    case DeleteUser(_) =>
    case Reap =>
    case Propose(_, _, _, _, _, _) =>
    case Write(c, reply) => WritersLower(s, c, reply, true, id);
    case Finish(c, written) => WritersLower(s, c, Acked, written, id);
    case _ => ReadersKeepRows(defs, s, e);
  }

  /** How often the status of an action changes along a run. */
  function Changes(defs: Defs, s: State, es: seq<Event>, id: ActionId): nat
    decreases |es|
  {
    if es == [] then 0 else
    var before := Run(defs, s, es[..|es| - 1]);
    var after := Run(defs, s, es);
    Changes(defs, s, es[..|es| - 1], id)
    + (if id in before.rows && id in after.rows && before.rows[id].status != after.rows[id].status then 1 else 0)
  }

  lemma {:induction false} ChangesBound(defs: Defs, s: State, es: seq<Event>, id: ActionId)
    requires Sound(s)
    ensures var t := Run(defs, s, es);
            if id in t.rows then Changes(defs, s, es, id) + Rank(t.rows[id].status) <= 3
            else Changes(defs, s, es, id) <= 3
    ensures id !in Run(defs, s, es).issued ==> Changes(defs, s, es, id) == 0
    decreases |es|
  {
    if es != [] {
      var init := es[..|es| - 1];
      ChangesBound(defs, s, init, id);
      RunKeeps(defs, s, init);
      var t := Run(defs, s, init);
      if id in t.issued { StatusChangeLowersRank(defs, t, es[|es| - 1], id); }
    }
  }

  /** An action changes status at most three times in any run. */
  lemma AtMostThreeChanges(defs: Defs, s: State, es: seq<Event>, id: ActionId)
    requires Initial(s)
    ensures Changes(defs, s, es, id) <= 3
  {
    ChangesBound(defs, s, es, id);
  }

  // ----- dead actions stay dead -----

  predicate Dead(status: Status) { status == Denied || status == Expired || status == Cancelled }

  /** The action is closed, or deleted, and nobody holds a claim on it. */
  ghost predicate Void(s: State, id: ActionId) {
    && id in s.issued && Unrun(s, id)
    && (id in s.rows ==> Rank(s.rows[id].status) == 0)
    && (forall c :: c in s.calls && Owns(s.calls[c]) ==> s.calls[c].id != id)
  }

  /** A call comes to own an action only by claiming it while it is still open. */
  lemma OwnersComeFromClaims(defs: Defs, s: State, e: Event, c: CallId)
    requires var s' := Apply(defs, s, e); c in s'.calls && Owns(s'.calls[c])
    ensures var id := Apply(defs, s, e).calls[c].id;
            (c in s.calls && Owns(s.calls[c]) && s.calls[c].id == id)
            || (id in s.rows && (s.rows[id].status == Proposed || s.rows[id].status == PendingApproval))
  {
  }

  /** Only an owner's step adds an effect, and it adds its own action's. */
  lemma EffectsComeFromOwners(defs: Defs, s: State, e: Event)
    ensures var s' := Apply(defs, s, e);
            s'.effects == s.effects
            || exists c :: c in s.calls && Owns(s.calls[c]) && |s'.effects| == |s.effects| + 1
                           && s'.effects[..|s.effects|] == s.effects && s'.effects[|s.effects|].id == s.calls[c].id
  {
  }

  lemma StaysUnrun(defs: Defs, s: State, e: Event, id: ActionId)
    requires Void(s, id)
    ensures Unrun(Apply(defs, s, e), id)
  {
    var s' := Apply(defs, s, e);
    EffectsComeFromOwners(defs, s, e);
    forall k | 0 <= k < |s'.effects| ensures s'.effects[k].id != id {
      if k < |s.effects| { assert s'.effects[..|s.effects|][k] == s.effects[k]; }
    }
  }

  lemma VoidStays(defs: Defs, s: State, e: Event, id: ActionId)
    requires Sound(s) && Void(s, id)
    ensures Void(Apply(defs, s, e), id)
  {
    var s' := Apply(defs, s, e);
    StatusChangeLowersRank(defs, s, e, id);
    StaysUnrun(defs, s, e, id);
    forall c | c in s'.calls && Owns(s'.calls[c]) ensures s'.calls[c].id != id {
      OwnersComeFromClaims(defs, s, e, c);
    }
  }

  lemma {:induction false} VoidForever(defs: Defs, s: State, es: seq<Event>, id: ActionId)
    requires Sound(s) && Void(s, id)
    ensures Void(Run(defs, s, es), id)
    decreases |es|
  {
    if es != [] {
      VoidForever(defs, s, es[..|es| - 1], id);
      RunKeeps(defs, s, es[..|es| - 1]);
      VoidStays(defs, Run(defs, s, es[..|es| - 1]), es[|es| - 1], id);
    }
  }

  /** Once a run reaches a point where the action is denied, expired or cancelled, its effect
      has not run and never will, whatever is still in flight; and if the action still exists
      it keeps that very status. */
  lemma DeadActionsNeverRun(defs: Defs, s: State, es: seq<Event>, fs: seq<Event>, id: ActionId)
    requires Initial(s)
    requires var m := Run(defs, s, es); id in m.rows && Dead(m.rows[id].status)
    ensures var t := Run(defs, s, es + fs);
            RunsOf(t.effects, id) == 0 &&
            (id in t.rows ==> t.rows[id].status == Run(defs, s, es).rows[id].status)
  {
    var m := Run(defs, s, es);
    RunKeeps(defs, s, es);
    forall k | 0 <= k < |m.effects| ensures m.effects[k].id != id { assert EffectSound(m, m.effects[k].id); }
    forall c | c in m.calls && Owns(m.calls[c]) ensures m.calls[c].id != id { assert CallSound(m, m.calls[c]); }
    RunSplits(defs, s, es, fs);
    VoidForever(defs, m, fs, id);
    DeadStatusStays(defs, m, fs, id);
    RunKeeps(defs, s, es + fs);
    RunsOfDistinct(Run(defs, s, es + fs).effects, id);
  }

  lemma {:induction false} DeadStatusStays(defs: Defs, s: State, es: seq<Event>, id: ActionId)
    requires Sound(s) && id in s.rows && Rank(s.rows[id].status) == 0
    ensures var t := Run(defs, s, es);
            id in t.issued && (id in t.rows ==> t.rows[id].status == s.rows[id].status)
    decreases |es|
  {
    if es != [] {
      DeadStatusStays(defs, s, es[..|es| - 1], id);
      RunKeeps(defs, s, es[..|es| - 1]);
      StatusChangeLowersRank(defs, Run(defs, s, es[..|es| - 1]), es[|es| - 1], id);
    }
  }
}
