/** Where actions come from and how they end: every action goes back to the proposal that put it in, with the
    risk the policy of that moment asks for and the deadline of its stage, and every closed action to the
    step that closed it. */
module ActionOrigins {
  import opened Wrappers
  import opened ActionMachine
  import opened ActionSafety
  import opened ActionAudit

  // ----- who may run what -----

  /** A super administrator may do anything, and so may a holder of the wildcard. */
  predicate May(isSuper: bool, perms: set<string>, permission: string) {
    isSuper || permission in perms || "Admin.All" in perms
  }

  /** What each operation asks of the row it read, all of it and nothing more. */
  predicate Allows(defs: Defs, op: Op, actor: Actor, row: Row, now: nat) {
    match op
    case Execute =>
      && row.owner == actor.id && row.status == Proposed && row.risk == Safe && now <= row.expires
      && row.kind in defs && May(actor.isSuper, actor.perms, defs[row.kind].permission)
    case RequestApproval =>
      && row.owner == actor.id && row.status == Proposed && row.risk != Safe && now <= row.expires
      && row.kind in defs && May(actor.isSuper, actor.perms, defs[row.kind].permission)
    case Approve => row.owner != actor.id && row.status == PendingApproval && now <= row.expires && row.kind in defs
    case Deny => row.owner != actor.id && row.status == PendingApproval
    case Cancel => row.owner == actor.id
  }

  /** A call gets past its checks on the row exactly when all of that holds. */
  lemma GoesOnIff(defs: Defs, op: Op, actor: Actor, row: Row, now: nat)
    ensures JudgePhase(defs, op, actor, row, now) == (if op == Approve then Vetting(row) else Cleared(row))
            <==> Allows(defs, op, actor, row, now)
  {
  }

  // ----- proposals -----

  /** The proposal is accepted: a new action of a known, enabled kind with good parameters, by an account that
      may run it. */
  predicate Accepted(defs: Defs, t: State, e: Event) {
    && e.Propose? && e.id !in t.issued && e.kind in defs && !e.disabled && e.prepared && e.uid in t.users
    && May(t.users[e.uid].isSuper, t.users[e.uid].perms, defs[e.kind].permission)
  }

  /** The policy asks for a second person: the kind does, or approval is required for everything. */
  predicate NeedsSecond(defs: Defs, e: Event)
    requires e.Propose? && e.kind in defs
  {
    e.approvalForAll || defs[e.kind].risk != Safe
  }

  /** A proposal puts an action in exactly when it is accepted, for fifteen minutes, safe exactly when the
      policy asks for nobody else, and as risky as its kind otherwise. */
  lemma ProposalStores(defs: Defs, t: State, e: Event)
    requires e.Propose?
    ensures Apply(defs, t, e).rows != t.rows ==> Accepted(defs, t, e)
    ensures Accepted(defs, t, e) && e.id !in t.rows ==>
              var rows := Apply(defs, t, e).rows;
              && e.id in rows && rows == t.rows[e.id := rows[e.id]]
              && var row := rows[e.id];
                 && row.owner == e.uid && row.kind == e.kind && row.status == Proposed && row.expires == t.now + 15 * 60
                 && (row.risk == Safe <==> !NeedsSecond(defs, e))
                 && (defs[e.kind].risk != Safe ==> row.risk == defs[e.kind].risk)
  {
  }

  /** Event `i` put the action in. */
  predicate Origin(defs: Defs, h: History, es: seq<Event>, id: ActionId, row: Row, i: int) {
    && 0 <= i < |es| == |h| && Accepted(defs, h[i], es[i]) && es[i].id == id
    && row.owner == es[i].uid && row.kind == es[i].kind
    && (row.risk == Safe <==> !NeedsSecond(defs, es[i])) && (defs[es[i].kind].risk != Safe ==> row.risk == defs[es[i].kind].risk)
  }

  /** The deadline is fifteen minutes after the proposal, or a day after the owner sent it to approval. */
  predicate Deadline(h: History, es: seq<Event>, id: ActionId, row: Row, i: int, k: int)
    requires 0 <= i < |h|
  {
    if k < 0 then row.status != PendingApproval && row.expires == h[i].now + 15 * 60
    else i < k && row.status != Proposed && SentByOwner(h, es, id, row.owner, k) && row.expires == h[k].now + 24 * 60 * 60
  }

  /** What a step may do to an action that is there. */
  predicate MovesOn(a: Row, b: Row, now: nat) {
    && SameAction(a, b)
    && (b.status == Proposed ==> a.status == Proposed)
    && (if b.status == PendingApproval && a.status != PendingApproval
        then a.status == Proposed && b.expires == now + 24 * 60 * 60 else b.expires == a.expires)
  }

  lemma WriteMovesOn(t: State, c: CallId, reply: Reply, written: bool, id: ActionId)
    requires Sound(t) && id in t.rows
    ensures id in WriteStep(t, c, reply).rows && MovesOn(t.rows[id], WriteStep(t, c, reply).rows[id], t.now)
    ensures id in FinishStep(t, c, written).rows && MovesOn(t.rows[id], FinishStep(t, c, written).rows[id], t.now)
  {
    if c in t.calls { assert CallSound(t, t.calls[c]); }
  }

  lemma OutsideMovesOn(defs: Defs, t: State, e: Event, id: ActionId)
    requires Sound(t) && id in t.rows && id in Effectuate(defs, t, e).rows && (e.DeleteUser? || e.Reap? || e.Propose?)
    ensures MovesOn(t.rows[id], Effectuate(defs, t, e).rows[id], t.now)
  {
  }

  lemma RowStep(defs: Defs, t: State, e: Event, id: ActionId)
    requires Sound(t) && id in t.rows && id in Apply(defs, t, e).rows
    ensures MovesOn(t.rows[id], Apply(defs, t, e).rows[id], t.now)
  {
    match e
    case Write(c, reply) => WriteMovesOn(t, c, reply, true, id);
    case Finish(c, written) => WriteMovesOn(t, c, Acked, written, id);
    case DeleteUser(_) => OutsideMovesOn(defs, t, e, id);
    case Reap => OutsideMovesOn(defs, t, e, id);
    case Propose(_, _, _, _, _, _) => OutsideMovesOn(defs, t, e, id);
    case _ => ReadersKeepRows(defs, t, e);
  }

  lemma NewRowStep(defs: Defs, t: State, e: Event, id: ActionId)
    requires Sound(t) && id !in t.rows && id in Apply(defs, t, e).rows
    ensures e.Propose? && e.id == id && Accepted(defs, t, e)
  {
    if !(e.DeleteUser? || e.Reap? || e.Propose? || e.Write? || e.Finish?) { ReadersKeepRows(defs, t, e); }
  }

  lemma OriginGrows(defs: Defs, h: History, t: State, es: seq<Event>, e: Event, id: ActionId, row: Row, row': Row, i: int)
    requires Origin(defs, h, es, id, row, i) && SameAction(row, row')
    ensures Origin(defs, h + [t], es + [e], id, row', i)
  {
  }

  lemma SentGrows(h: History, t: State, es: seq<Event>, e: Event, id: ActionId, owner: UserId, k: int)
    requires SentByOwner(h, es, id, owner, k)
    ensures SentByOwner(h + [t], es + [e], id, owner, k)
  {
  }

  /** Every action of every run was put in by an accepted proposal, and its deadline is that of its stage. */
  lemma {:induction false} RowOrigin(defs: Defs, s: State, es: seq<Event>, id: ActionId) returns (i: int, k: int)
    requires Initial(s) && id in Run(defs, s, es).rows
    ensures Origin(defs, HistoryOf(defs, s, es), es, id, Run(defs, s, es).rows[id], i)
    ensures Deadline(HistoryOf(defs, s, es), es, id, Run(defs, s, es).rows[id], i, k)
    decreases |es|
  {
    var us, e := es[..|es| - 1], es[|es| - 1];
    var h, t := HistoryOf(defs, s, us), Run(defs, s, us);
    assert es == us + [e] && HistoryOf(defs, s, es) == h + [t];
    RunKeeps(defs, s, us);
    if id in t.rows {
      i, k := RowOrigin(defs, s, us, id);
      k := OldRowOrigin(defs, h, t, us, e, id, i, k);
    } else {
      NewRowStep(defs, t, e, id);
      ProposalStores(defs, t, e);
      i, k := |es| - 1, -1;
    }
  }

  lemma OldRowOrigin(defs: Defs, h: History, t: State, us: seq<Event>, e: Event, id: ActionId, i: int, k: int) returns (k': int)
    requires Sound(t) && id in t.rows && id in Apply(defs, t, e).rows
    requires Origin(defs, h, us, id, t.rows[id], i) && Deadline(h, us, id, t.rows[id], i, k)
    ensures Origin(defs, h + [t], us + [e], id, Apply(defs, t, e).rows[id], i)
    ensures Deadline(h + [t], us + [e], id, Apply(defs, t, e).rows[id], i, k')
  {
    var a, b := t.rows[id], Apply(defs, t, e).rows[id];
    RowStep(defs, t, e, id);
    OriginGrows(defs, h, t, us, e, id, a, b, i);
    if b.status == PendingApproval && a.status != PendingApproval {
      OnlyRequestsSend(defs, t, e, id);
      k' := |us|;
    } else {
      k' := k;
      if k >= 0 { SentGrows(h, t, us, e, id, a.owner, k); }
    }
  }

  lemma OriginStretches(defs: Defs, s: State, es: seq<Event>, n: nat, id: ActionId, row: Row, i: int)
    requires n <= |es| && Origin(defs, HistoryOf(defs, s, es[..n]), es[..n], id, row, i)
    ensures Origin(defs, HistoryOf(defs, s, es), es, id, row, i) && HistoryOf(defs, s, es)[i] == HistoryOf(defs, s, es[..n])[i]
  {
    HistoryIsTheRun(defs, s, es, i);
    HistoryIsTheRun(defs, s, es[..n], i);
    assert es[..n][..i] == es[..i];
  }

  /** Every effect goes back to the proposal that put its action in, and that proposal decides who had to let it
      run: if the kind was not safe, or approval was required for everything when it was proposed, a second
      person; otherwise the owner alone.  It ran inside the window that began with the proposal, or with the
      owner's sending it, and as the owner. */
  lemma EffectFollowsProposal(defs: Defs, s: State, es: seq<Event>, n: nat) returns (i: int)
    requires Initial(s) && n < |Run(defs, s, es).effects|
    ensures var f := Run(defs, s, es).effects[n];
            var h := HistoryOf(defs, s, es);
            && Origin(defs, h, es, f.id, f.row, i) && i < f.at.read && f.runsAs == f.row.owner == es[i].uid
            && (if NeedsSecond(defs, es[i]) then ApprovedByAnother(defs, h, es, f) else ConfirmedByOwner(defs, h, f))
            && (!NeedsSecond(defs, es[i]) ==> h[f.at.clock].now <= h[i].now + 15 * 60)
            && (NeedsSecond(defs, es[i]) ==>
                  exists k :: i < k < f.at.read && SentByOwner(h, es, f.id, f.row.owner, k)
                              && h[f.at.clock].now <= h[k].now + 24 * 60 * 60)
  {
    EveryEffectWasAuthorised(defs, s, es, n);
    EffectRunsAs(defs, s, es, n);
    var f, h := Run(defs, s, es).effects[n], HistoryOf(defs, s, es);
    var r := f.at.read;
    HistoryIsTheRun(defs, s, es, r);
    var k;
    i, k := RowOrigin(defs, s, es[..r], f.id);
    OriginStretches(defs, s, es, r, f.id, f.row, i);
    EffectReadOpen(defs, s, es, n);
    if k >= 0 { SentStretches(defs, s, es, r, f.id, f.row.owner, k); }
  }

  lemma SentStretches(defs: Defs, s: State, es: seq<Event>, n: nat, id: ActionId, owner: UserId, k: int)
    requires n <= |es| && SentByOwner(HistoryOf(defs, s, es[..n]), es[..n], id, owner, k)
    ensures SentByOwner(HistoryOf(defs, s, es), es, id, owner, k) && HistoryOf(defs, s, es)[k] == HistoryOf(defs, s, es[..n])[k]
  {
    HistoryIsTheRun(defs, s, es, k);
    HistoryIsTheRun(defs, s, es[..n], k);
    assert es[..n][..k] == es[..k];
  }

  /** What an effect's call read was open in the way its operation asks. */
  lemma EffectReadOpen(defs: Defs, s: State, es: seq<Event>, n: nat)
    requires Initial(s) && n < |Run(defs, s, es).effects|
    ensures var f := Run(defs, s, es).effects[n];
            f.row.status == (if f.op == Approve then PendingApproval else Proposed) && (f.op == Execute || f.op == Approve)
  {
    RunTraces(defs, s, es);
    assert Traced(defs, HistoryOf(defs, s, es), Runner(Run(defs, s, es).effects[n]));
  }

  lemma {:induction false} EffectRunsAs(defs: Defs, s: State, es: seq<Event>, n: nat)
    requires Initial(s) && n < |Run(defs, s, es).effects|
    ensures var f := Run(defs, s, es).effects[n]; f.runsAs == f.row.owner
    decreases |es|
  {
    var us, e := es[..|es| - 1], es[|es| - 1];
    var t := Run(defs, s, us);
    RunTraces(defs, s, us);
    if n < |t.effects| {
      EffectRunsAs(defs, s, us, n);
      EffectsStay(defs, t, e);
    } else {
      NewEffect(defs, t, e);
      assert Traced(defs, HistoryOf(defs, s, us), t.calls[e.call]);
    }
  }

  lemma EffectsStay(defs: Defs, t: State, e: Event)
    ensures t.effects <= Apply(defs, t, e).effects
  {
  }

  lemma NewEffect(defs: Defs, t: State, e: Event)
    requires |Apply(defs, t, e).effects| > |t.effects|
    ensures e.RunEffect? && e.call in t.calls && t.calls[e.call].phase.Claimed?
    ensures var k := t.calls[e.call];
            Apply(defs, t, e).effects == t.effects + [Effect(e.call, k.id, k.phase.row, k.op, k.actor, RunsAs(k), k.at)]
  {
  }

  // ----- how actions end -----

  /** Event `j` closed the action with this status, and was entitled to. */
  predicate ClosedBy(defs: Defs, h: History, es: seq<Event>, id: ActionId, status: Status, decidedBy: Option<UserId>, j: int) {
    && 0 <= j < |es| == |h| && id in h[j].rows
    && var t := h[j];
       match status
       case Denied => CallOf(t, es[j], Deny, id) && Decider(t, es[j]) != t.rows[id].owner && decidedBy == Some(Decider(t, es[j]))
                      && t.rows[id].status == PendingApproval
       case Cancelled => CallOf(t, es[j], Cancel, id) && Decider(t, es[j]) == t.rows[id].owner && t.rows[id].status == Proposed
       case Expired => (es[j] == Reap && t.now > t.rows[id].expires) || LapsedCall(h, t, es[j], id)
       case _ => true
  }

  /** The event is the conditional update of a call of this operation on this action. */
  predicate CallOf(t: State, e: Event, op: Op, id: ActionId) {
    e.Write? && e.call in t.calls && t.calls[e.call].phase.Cleared? && t.calls[e.call].op == op && t.calls[e.call].id == id
  }

  function Decider(t: State, e: Event): UserId
    requires e.Write? && e.call in t.calls
  {
    t.calls[e.call].actor.id
  }

  /** The event is the update of a call of the owner's that saw its proposal past the deadline. */
  predicate LapsedCall(h: History, t: State, e: Event, id: ActionId) {
    e.Write? && e.call in t.calls && t.calls[e.call].phase.Lapsed? && t.calls[e.call].id == id && SawLapse(h, t.calls[e.call])
  }

  predicate Closing(status: Status) { status == Denied || status == Cancelled || status == Expired }

  lemma ClosingWrite(defs: Defs, h: History, t: State, e: Event, id: ActionId)
    requires Sound(t) && AllTraced(defs, h, t) && id in t.rows && e.Write? && e.call in t.calls
    requires var b := WriteStep(t, e.call, e.reply).rows; id in b && Closing(b[id].status) && t.rows[id].status != b[id].status
    ensures EndsIt(h, t, e, id, WriteStep(t, e.call, e.reply).rows[id])
  {
    assert Traced(defs, h, t.calls[e.call]) && CallSound(t, t.calls[e.call]);
  }

  /** The event may end the action this way. */
  predicate EndsIt(h: History, t: State, e: Event, id: ActionId, b: Row)
    requires id in t.rows
  {
    && (b.status == Denied ==> CallOf(t, e, Deny, id) && Decider(t, e) != t.rows[id].owner
                               && b.decidedBy == Some(Decider(t, e)) && t.rows[id].status == PendingApproval)
    && (b.status == Cancelled ==> CallOf(t, e, Cancel, id) && Decider(t, e) == t.rows[id].owner && t.rows[id].status == Proposed)
    && (b.status == Expired ==> (e == Reap && t.now > t.rows[id].expires) || LapsedCall(h, t, e, id))
  }

  /** Only the steps named above close an action. */
  lemma ClosingStep(defs: Defs, h: History, t: State, e: Event, id: ActionId)
    requires Sound(t) && AllTraced(defs, h, t) && id in t.rows && id in Apply(defs, t, e).rows
    requires var b := Apply(defs, t, e).rows[id]; Closing(b.status) && t.rows[id].status != b.status
    ensures EndsIt(h, t, e, id, Apply(defs, t, e).rows[id])
  {
    match e
    case Write(c, _) => if c in t.calls { ClosingWrite(defs, h, t, e, id); }
    case DeleteUser(_) =>
    case Reap =>
    case Propose(_, _, _, _, _, _) =>
    case Finish(_, _) =>
    case _ => ReadersKeepRows(defs, t, e);
  }

  lemma ClosedWrites(t: State, c: CallId, reply: Reply, written: bool, id: ActionId)
    requires Sound(t) && id in t.rows && Closing(t.rows[id].status)
    ensures id in WriteStep(t, c, reply).rows && WriteStep(t, c, reply).rows[id] == t.rows[id]
    ensures id in FinishStep(t, c, written).rows && FinishStep(t, c, written).rows[id] == t.rows[id]
  {
    if c in t.calls { assert CallSound(t, t.calls[c]); }
  }

  /** A closed action stays as it is. */
  lemma ClosedStays(defs: Defs, t: State, e: Event, id: ActionId)
    requires Sound(t) && id in t.rows && Closing(t.rows[id].status) && id in Apply(defs, t, e).rows
    ensures Apply(defs, t, e).rows[id] == t.rows[id]
  {
    match e
    case Write(c, reply) => ClosedWrites(t, c, reply, true, id);
    case Finish(c, written) => ClosedWrites(t, c, Acked, written, id);
    case DeleteUser(_) =>
    case Reap =>
    case Propose(_, _, _, _, _, _) => assert id in t.issued;
    case _ => ReadersKeepRows(defs, t, e);
  }

  lemma ClosedByGrows(defs: Defs, h: History, t: State, es: seq<Event>, e: Event, id: ActionId, status: Status,
                      decidedBy: Option<UserId>, j: int)
    requires ClosedBy(defs, h, es, id, status, decidedBy, j)
    ensures ClosedBy(defs, h + [t], es + [e], id, status, decidedBy, j)
  {
  }

  /** Every denied action was denied, while pending, by somebody other than its owner, who is recorded; every
      cancelled one was cancelled, while proposed, by its owner; every expired one was past its deadline. */
  lemma {:induction false} ClosedWasEntitled(defs: Defs, s: State, es: seq<Event>, id: ActionId) returns (j: int)
    requires Initial(s) && id in Run(defs, s, es).rows && Closing(Run(defs, s, es).rows[id].status)
    ensures var row := Run(defs, s, es).rows[id];
            ClosedBy(defs, HistoryOf(defs, s, es), es, id, row.status, row.decidedBy, j)
    decreases |es|
  {
    var us, e := es[..|es| - 1], es[|es| - 1];
    var h, t := HistoryOf(defs, s, us), Run(defs, s, us);
    assert es == us + [e] && HistoryOf(defs, s, es) == h + [t];
    RunKeeps(defs, s, us);
    RunTraces(defs, s, us);
    if id !in t.rows {
      NewRowStep(defs, t, e, id);
      ProposalStores(defs, t, e);
      assert false;
    } else if Closing(t.rows[id].status) {
      ClosedStays(defs, t, e, id);
      j := ClosedWasEntitled(defs, s, us, id);
      ClosedByGrows(defs, h, t, us, e, id, t.rows[id].status, t.rows[id].decidedBy, j);
    } else {
      ClosingStep(defs, h, t, e, id);
      j := |us|;
      if LapsedCall(h, t, e, id) { LapseGrows(h, t, e, id); }
    }
  }

  lemma LapseGrows(h: History, t: State, e: Event, id: ActionId)
    requires LapsedCall(h, t, e, id)
    ensures LapsedCall(h + [t], t, e, id)
  {
  }

  /** The reaper closes exactly the open actions past their deadline, and touches nothing else. */
  lemma ReapIsExact(defs: Defs, t: State, id: ActionId)
    ensures var rows := Apply(defs, t, Reap).rows;
            && (id in rows <==> id in t.rows)
            && (id in rows ==>
                  if (t.rows[id].status == Proposed || t.rows[id].status == PendingApproval) && t.now > t.rows[id].expires
                  then rows[id] == t.rows[id].(status := Expired) else rows[id] == t.rows[id])
  {
  }
}
