/** Who let an effect run: every effect in every run can be traced back to the states in
    which its permission, deadline and account checks were made. */
module ActionAudit {
  import opened ActionMachine
  import opened ActionSafety

  /** A history: entry `j` is the state in which event `j` of the run happened. */
  type History = seq<State>

  function HistoryOf(defs: Defs, s: State, es: seq<Event>): (h: History)
    ensures |h| == |es|
    decreases |es|
  {
    if es == [] then [] else
    HistoryOf(defs, s, es[..|es| - 1]) + [Run(defs, s, es[..|es| - 1])]
  }

  lemma {:induction false} HistoryIsTheRun(defs: Defs, s: State, es: seq<Event>, j: nat)
    requires j < |es|
    ensures HistoryOf(defs, s, es)[j] == Run(defs, s, es[..j])
    decreases |es|
  {
    if j < |es| - 1 {
      HistoryIsTheRun(defs, s, es[..|es| - 1], j);
      assert es[..|es| - 1][..j] == es[..j];
    }
  }

  // ----- what is known about a call in each phase -----

  /** The actor is a faithful snapshot of an enabled account. */
  predicate Authenticated(h: History, k: Call) {
    && k.at.begun < |h|
    && var users := h[k.at.begun].users;
       k.actor.id in users && !users[k.actor.id].disabled
       && k.actor.isSuper == users[k.actor.id].isSuper && k.actor.perms == users[k.actor.id].perms
  }

  predicate ReadFrom(h: History, k: Call, row: Row) {
    k.at.begun < k.at.read < |h| && k.id in h[k.at.read].rows && h[k.at.read].rows[k.id] == row
  }

  predicate InTime(h: History, k: Call, row: Row) {
    k.at.read < k.at.clock < |h| && h[k.at.clock].now <= row.expires
  }

  /** Approve's second read: the requester's account exists and is enabled. */
  predicate RequesterEnabled(h: History, k: Call, row: Row) {
    && k.at.clock < k.at.account < |h|
    && row.owner in h[k.at.account].users && !h[k.at.account].users[row.owner].disabled
  }

  /** Approve's third read: the requester still holds the action's permission. */
  predicate RequesterPermitted(defs: Defs, h: History, k: Call, row: Row)
    requires RequesterEnabled(h, k, row)
  {
    && k.at.account < k.at.perms < |h| && row.kind in defs
    && Can(h[k.at.account].users[row.owner].isSuper, PermsOf(h[k.at.perms], row.owner), defs[row.kind].permission)
  }

  /** What Execute has established when it is ready to claim. */
  predicate ExecuteCleared(defs: Defs, h: History, k: Call, row: Row) {
    && InTime(h, k, row) && row.kind in defs
    && row.status == Proposed && row.risk == Safe && row.owner == k.actor.id
    && Can(k.actor.isSuper, k.actor.perms, defs[row.kind].permission)
  }

  predicate ApproveVetted(defs: Defs, h: History, k: Call, row: Row) {
    InTime(h, k, row) && row.kind in defs && row.status == PendingApproval && row.owner != k.actor.id
  }

  /** What Approve has established when it is ready to claim. */
  predicate ApproveCleared(defs: Defs, h: History, k: Call, row: Row) {
    ApproveVetted(defs, h, k, row) && RequesterEnabled(h, k, row) && RequesterPermitted(defs, h, k, row)
  }

  /** What RequestApproval has established when it is ready to send. */
  predicate SendCleared(defs: Defs, h: History, k: Call, row: Row) {
    && InTime(h, k, row) && row.kind in defs
    && row.status == Proposed && row.risk != Safe && row.owner == k.actor.id
    && Can(k.actor.isSuper, k.actor.perms, defs[row.kind].permission)
  }

  predicate ReadyToClaim(defs: Defs, h: History, k: Call, row: Row) {
    && (k.op == Execute ==> ExecuteCleared(defs, h, k, row))
    && (k.op == Approve ==> ApproveCleared(defs, h, k, row))
    && (k.op == RequestApproval ==> SendCleared(defs, h, k, row))
    && (k.op == Deny ==> row.status == PendingApproval && row.owner != k.actor.id)
    && (k.op == Cancel ==> row.owner == k.actor.id)
  }

  /** What a call that marks an action expired has seen: its own proposal, past its deadline. */
  predicate SawLapse(h: History, k: Call) {
    && (k.op == Execute || k.op == RequestApproval) && k.at.read < k.at.clock < |h| && k.id in h[k.at.read].rows
    && var row := h[k.at.read].rows[k.id];
       row.owner == k.actor.id && row.status == Proposed && h[k.at.clock].now > row.expires
  }

  /** The claim took the row while it was still in the state the operation asks for. */
  predicate ClaimTook(h: History, k: Call, row: Row) {
    && (k.op == Execute || k.op == Approve)
    && (if k.op == Execute then k.at.clock else k.at.perms) < k.at.claim < |h|
    && var rows := h[k.at.claim].rows;
       k.id in rows && SameAction(row, rows[k.id])
       && rows[k.id].status == (if k.op == Execute then Proposed else PendingApproval)
  }

  predicate Traced(defs: Defs, h: History, k: Call) {
    && Authenticated(h, k)
    && (HasRow(k) ==> ReadFrom(h, k, k.phase.row))
    && (k.phase.Vetting? || k.phase.Account? ==> ApproveVetted(defs, h, k, k.phase.row))
    && (k.phase.Account? ==>
          && RequesterEnabled(h, k, k.phase.row)
          && k.phase.requesterSuper == h[k.at.account].users[k.phase.row.owner].isSuper)
    && (k.phase.Lapsed? ==> SawLapse(h, k))
    && (k.phase.Cleared? || Owns(k) ==> ReadyToClaim(defs, h, k, k.phase.row))
    && (Owns(k) ==> ClaimTook(h, k, k.phase.row))
  }

  /** The call as it stood when it ran the effect. */
  function Runner(f: Effect): Call { Call(f.op, f.actor, f.id, Claimed(f.row), f.at) }

  ghost predicate AllTraced(defs: Defs, h: History, t: State) {
    && t.step == |h|
    && (forall c :: c in t.calls ==> Traced(defs, h, t.calls[c]))
    && (forall i :: 0 <= i < |t.effects| ==> Traced(defs, h, Runner(t.effects[i])))
  }

  // ----- each step of a call extends its trace -----

  lemma TracedGrows(defs: Defs, h: History, t: State, k: Call)
    requires Traced(defs, h, k)
    ensures Traced(defs, h + [t], k)
  {
  }

  lemma BeginTraces(defs: Defs, h: History, t: State, c: CallId, op: Op, uid: UserId, id: ActionId)
    requires AllTraced(defs, h, t)
    ensures c in BeginStep(t, c, op, uid, id).calls ==> Traced(defs, h + [t], BeginStep(t, c, op, uid, id).calls[c])
  {
    if c in t.calls { TracedGrows(defs, h, t, t.calls[c]); }
  }

  lemma FetchTraces(defs: Defs, h: History, t: State, c: CallId, ok: bool)
    requires AllTraced(defs, h, t) && c in t.calls
    ensures Traced(defs, h + [t], FetchStep(t, c, ok).calls[c])
  {
    TracedGrows(defs, h, t, t.calls[c]);
  }

  lemma AbandonTraces(defs: Defs, h: History, t: State, c: CallId)
    requires AllTraced(defs, h, t) && c in t.calls
    ensures Traced(defs, h + [t], AbandonStep(t, c).calls[c])
  {
    TracedGrows(defs, h, t, t.calls[c]);
  }

  lemma JudgeTraces(defs: Defs, h: History, t: State, c: CallId)
    requires AllTraced(defs, h, t) && c in t.calls
    ensures Traced(defs, h + [t], JudgeStep(defs, t, c).calls[c])
  {
    TracedGrows(defs, h, t, t.calls[c]);
  }

  lemma AccountTraces(defs: Defs, h: History, t: State, c: CallId, ok: bool)
    requires AllTraced(defs, h, t) && c in t.calls
    ensures Traced(defs, h + [t], LoadAccountStep(t, c, ok).calls[c])
  {
    TracedGrows(defs, h, t, t.calls[c]);
  }

  lemma PermissionsTrace(defs: Defs, h: History, t: State, c: CallId, ok: bool)
    requires AllTraced(defs, h, t) && c in t.calls && Sound(t)
    ensures Traced(defs, h + [t], LoadPermissionsStep(defs, t, c, ok).calls[c])
  {
    TracedGrows(defs, h, t, t.calls[c]);
    assert CallSound(t, t.calls[c]);
  }

  lemma WriteTraces(defs: Defs, h: History, t: State, c: CallId, reply: Reply)
    requires AllTraced(defs, h, t) && c in t.calls && Sound(t)
    ensures Traced(defs, h + [t], WriteStep(t, c, reply).calls[c])
  {
    TracedGrows(defs, h, t, t.calls[c]);
    assert CallSound(t, t.calls[c]);
  }

  lemma RunEffectTraces(defs: Defs, h: History, t: State, c: CallId, ok: bool)
    requires AllTraced(defs, h, t) && c in t.calls
    ensures Traced(defs, h + [t], RunEffectStep(t, c, ok).calls[c])
  {
    TracedGrows(defs, h, t, t.calls[c]);
  }

  lemma FinishTraces(defs: Defs, h: History, t: State, c: CallId, written: bool)
    requires AllTraced(defs, h, t) && c in t.calls
    ensures Traced(defs, h + [t], FinishStep(t, c, written).calls[c])
  {
    TracedGrows(defs, h, t, t.calls[c]);
  }

  predicate OfCall(e: Event, c: CallId) {
    (e.Begin? || e.Fetch? || e.Judge? || e.LoadAccount? || e.LoadPermissions? || e.Write? || e.RunEffect?
     || e.Finish? || e.Abandon?) && e.call == c
  }

  /** A step leaves every other call as it was. */
  lemma OthersUntouched(defs: Defs, s: State, e: Event, c: CallId)
    requires !OfCall(e, c)
    ensures c in Apply(defs, s, e).calls <==> c in s.calls
    ensures c in s.calls ==> Apply(defs, s, e).calls[c] == s.calls[c]
  {
  }

  /** A call that a step of its own reaches was there before, unless the step began it. */
  lemma OwnCallExists(defs: Defs, s: State, e: Event, c: CallId)
    requires OfCall(e, c) && !e.Begin? && c in Apply(defs, s, e).calls
    ensures c in s.calls
  {
  }

  lemma EarlyStepTraces(defs: Defs, h: History, t: State, e: Event, c: CallId)
    requires AllTraced(defs, h, t) && OfCall(e, c) && c in Apply(defs, t, e).calls
    requires e.Begin? || e.Fetch? || e.Abandon? || e.Judge? || e.LoadAccount?
    ensures Traced(defs, h + [t], Apply(defs, t, e).calls[c])
  {
    if !e.Begin? { OwnCallExists(defs, t, e, c); }
    match e
    case Begin(_, op, uid, id) => BeginTraces(defs, h, t, c, op, uid, id);
    case Fetch(_, ok) => FetchTraces(defs, h, t, c, ok);
    case Abandon(_) => AbandonTraces(defs, h, t, c);
    case Judge(_) => JudgeTraces(defs, h, t, c);
    case LoadAccount(_, ok) => AccountTraces(defs, h, t, c, ok);
  }

  lemma LateStepTraces(defs: Defs, h: History, t: State, e: Event, c: CallId)
    requires AllTraced(defs, h, t) && Sound(t) && OfCall(e, c) && c in t.calls && (e.LoadPermissions? || e.Write?)
    ensures c in Apply(defs, t, e).calls && Traced(defs, h + [t], Apply(defs, t, e).calls[c])
  {
    match e
    case LoadPermissions(_, ok) => PermissionsTrace(defs, h, t, c, ok);
    case Write(_, reply) => WriteTraces(defs, h, t, c, reply);
  }

  lemma LastStepTraces(defs: Defs, h: History, t: State, e: Event, c: CallId)
    requires AllTraced(defs, h, t) && OfCall(e, c) && c in t.calls && (e.RunEffect? || e.Finish?)
    ensures c in Apply(defs, t, e).calls && Traced(defs, h + [t], Apply(defs, t, e).calls[c])
  {
    match e
    case RunEffect(_, ok) => RunEffectTraces(defs, h, t, c, ok);
    case Finish(_, written) => FinishTraces(defs, h, t, c, written);
  }

  lemma CallTraces(defs: Defs, h: History, t: State, e: Event, c: CallId)
    requires AllTraced(defs, h, t) && Sound(t) && c in Apply(defs, t, e).calls
    ensures Traced(defs, h + [t], Apply(defs, t, e).calls[c])
  {
    if OfCall(e, c) {
      if e.LoadPermissions? || e.Write? {
        OwnCallExists(defs, t, e, c);
        LateStepTraces(defs, h, t, e, c);
      } else if e.RunEffect? || e.Finish? {
        OwnCallExists(defs, t, e, c);
        LastStepTraces(defs, h, t, e, c);
      } else {
        EarlyStepTraces(defs, h, t, e, c);
      }
    } else {
      OthersUntouched(defs, t, e, c);
      TracedGrows(defs, h, t, t.calls[c]);
    }
  }

  lemma EffectTraces(defs: Defs, h: History, t: State, e: Event, i: nat)
    requires AllTraced(defs, h, t) && i < |Apply(defs, t, e).effects|
    ensures Traced(defs, h + [t], Runner(Apply(defs, t, e).effects[i]))
  {
    var t' := Apply(defs, t, e);
    if i < |t.effects| {
      assert t'.effects[i] == t.effects[i];
      TracedGrows(defs, h, t, Runner(t.effects[i]));
    } else {
      assert e.RunEffect? && e.call in t.calls && t.calls[e.call].phase.Claimed?;
      TracedGrows(defs, h, t, t.calls[e.call]);
    }
  }

  lemma {:induction false} RunTraces(defs: Defs, s: State, es: seq<Event>)
    requires Initial(s)
    ensures AllTraced(defs, HistoryOf(defs, s, es), Run(defs, s, es))
    decreases |es|
  {
    if es != [] {
      var init, e := es[..|es| - 1], es[|es| - 1];
      RunTraces(defs, s, init);
      RunKeeps(defs, s, init);
      var h, t := HistoryOf(defs, s, init), Run(defs, s, init);
      var t' := Apply(defs, t, e);
      forall c | c in t'.calls ensures Traced(defs, h + [t], t'.calls[c]) { CallTraces(defs, h, t, e, c); }
      forall i | 0 <= i < |t'.effects| ensures Traced(defs, h + [t], Runner(t'.effects[i])) {
        EffectTraces(defs, h, t, e, i);
      }
    }
  }

  // ----- how an action came to await approval -----

  /** Event `i` of the run is the action's own requester sending it to approval. */
  predicate SentByOwner(h: History, es: seq<Event>, id: ActionId, owner: UserId, i: int) {
    && 0 <= i < |es| == |h| && es[i].Write?
    && var t := h[i];
       es[i].call in t.calls && t.calls[es[i].call].phase.Cleared? && t.calls[es[i].call].id == id
       && t.calls[es[i].call].op == RequestApproval && t.calls[es[i].call].actor.id == owner
       && id in t.rows && t.rows[id].status == Proposed && t.rows[id].owner == owner
  }

  lemma OnlyRequestsSend(defs: Defs, s: State, e: Event, id: ActionId)
    requires Sound(s)
    requires var s' := Apply(defs, s, e); id in s'.rows && s'.rows[id].status == PendingApproval
    ensures id in s.rows && s.rows[id].owner == Apply(defs, s, e).rows[id].owner
    ensures s.rows[id].status == PendingApproval
            || (e.Write? && e.call in s.calls && s.calls[e.call].phase.Cleared? && s.calls[e.call].id == id
                && s.calls[e.call].op == RequestApproval && s.calls[e.call].actor.id == s.rows[id].owner
                && s.rows[id].status == Proposed)
  {
    match e
    case Write(c, _) => if c in s.calls { assert CallSound(s, s.calls[c]); }
    case Finish(c, _) => if c in s.calls { assert CallSound(s, s.calls[c]); }
    case _ =>
  }

  lemma {:induction false} PendingWasSent(defs: Defs, s: State, es: seq<Event>, id: ActionId) returns (i: nat)
    requires Initial(s)
    requires id in Run(defs, s, es).rows && Run(defs, s, es).rows[id].status == PendingApproval
    ensures SentByOwner(HistoryOf(defs, s, es), es, id, Run(defs, s, es).rows[id].owner, i)
    decreases |es|
  {
    var init, e := es[..|es| - 1], es[|es| - 1];
    var t := Run(defs, s, init);
    RunKeeps(defs, s, init);
    OnlyRequestsSend(defs, t, e, id);
    if t.rows[id].status == PendingApproval {
      i := PendingWasSent(defs, s, init, id);
    } else {
      i := |es| - 1;
    }
  }

  // ----- the theorem -----

  /** A safe action ran on its owner's confirm: the owner's account, enabled and holding the
      permission when the request came in, read the proposal, found its window open and
      claimed it, in that order. */
  ghost predicate ConfirmedByOwner(defs: Defs, h: History, f: Effect) {
    var k := Runner(f);
    && f.op == Execute && f.actor.id == f.row.owner && f.row.kind in defs
    && Authenticated(h, k) && ReadFrom(h, k, f.row) && InTime(h, k, f.row) && ClaimTook(h, k, f.row)
    && var owner := h[f.at.begun].users[f.row.owner];
       Can(owner.isSuper, owner.perms, defs[f.row.kind].permission)
  }

  /** Any other action ran on a second person's approval: its owner sent it to approval, a
      different user claimed it, and between that user's read and claim the deadline was
      open and the requester's account existed, was enabled and held the permission. */
  ghost predicate ApprovedByAnother(defs: Defs, h: History, es: seq<Event>, f: Effect) {
    var k := Runner(f);
    && f.op == Approve && f.actor.id != f.row.owner
    && Authenticated(h, k) && ReadFrom(h, k, f.row) && InTime(h, k, f.row)
    && RequesterEnabled(h, k, f.row) && RequesterPermitted(defs, h, k, f.row)
    && ClaimTook(h, k, f.row)
    && exists i :: i < f.at.read && SentByOwner(h, es, f.id, f.row.owner, i)
  }

  lemma ReadPendingWasSent(defs: Defs, s: State, es: seq<Event>, f: Effect) returns (i: nat)
    requires Initial(s) && ReadFrom(HistoryOf(defs, s, es), Runner(f), f.row) && f.row.status == PendingApproval
    ensures i < f.at.read && SentByOwner(HistoryOf(defs, s, es), es, f.id, f.row.owner, i)
  {
    var early := es[..f.at.read];
    HistoryIsTheRun(defs, s, es, f.at.read);
    i := PendingWasSent(defs, s, early, f.id);
    HistoryIsTheRun(defs, s, es, i);
    HistoryIsTheRun(defs, s, early, i);
    assert early[..i] == es[..i] && early[i] == es[i];
  }

  /** Every effect of every run was authorised in the way its stored risk demands. */
  lemma EveryEffectWasAuthorised(defs: Defs, s: State, es: seq<Event>, n: nat)
    requires Initial(s) && n < |Run(defs, s, es).effects|
    ensures var f := Run(defs, s, es).effects[n];
            var h := HistoryOf(defs, s, es);
            if f.row.risk == Safe then ConfirmedByOwner(defs, h, f) else ApprovedByAnother(defs, h, es, f)
  {
    RunTraces(defs, s, es);
    var f := Run(defs, s, es).effects[n];
    var h := HistoryOf(defs, s, es);
    assert Traced(defs, h, Runner(f));
    HistoryIsTheRun(defs, s, es, f.at.read);
    RunKeeps(defs, s, es[..f.at.read]);
    assert RowSound(h[f.at.read].rows[f.id]);
    if f.op == Approve {
      var i := ReadPendingWasSent(defs, s, es, f);
    }
  }
}
