/** Execute checks the permission of the caller as authenticated, and Approve that of the requester as read in
    two steps, not as the account stands when the effect is claimed.  When the two agree, and when not. */
module ActionStanding {
  import opened Wrappers
  import opened ActionMachine
  import opened ActionSafety
  import opened ActionAudit

  /** The account exists, is enabled and holds the permission. */
  predicate Stands(s: State, uid: UserId, permission: string) {
    uid in s.users && !s.users[uid].disabled && Can(s.users[uid].isSuper, s.users[uid].perms, permission)
  }

  /** The event takes the account, or its right to the permission, away. */
  predicate Unseats(e: Event, uid: UserId, permission: string) {
    || e == DeleteUser(uid)
    || (e.SetUser? && e.uid == uid && (e.user.disabled || !Can(e.user.isSuper, e.user.perms, permission)))
  }

  /** Nothing between the two positions of the run does. */
  predicate Undisturbed(es: seq<Event>, from: nat, to: nat, uid: UserId, permission: string)
    requires to <= |es|
  {
    forall i :: from <= i < to ==> !Unseats(es[i], uid, permission)
  }

  predicate StandsThroughout(h: History, from: nat, to: nat, uid: UserId, permission: string)
    requires to < |h|
  {
    forall j :: from <= j <= to ==> Stands(h[j], uid, permission)
  }

  /** An account loses its standing exactly by an event that takes it away. */
  lemma StandingStep(defs: Defs, s: State, e: Event, uid: UserId, permission: string)
    requires Stands(s, uid, permission)
    ensures Stands(Apply(defs, s, e), uid, permission) <==> !Unseats(e, uid, permission)
  {
  }

  lemma {:induction false} StandsIfUndisturbed(defs: Defs, s: State, es: seq<Event>, from: nat, j: nat, uid: UserId,
                                               permission: string)
    requires from <= j < |es| && Undisturbed(es, from, j, uid, permission)
    requires Stands(HistoryOf(defs, s, es)[from], uid, permission)
    ensures Stands(HistoryOf(defs, s, es)[j], uid, permission)
    decreases j
  {
    if from < j {
      StandsIfUndisturbed(defs, s, es, from, j - 1, uid, permission);
      HistoryStep(defs, s, es, j - 1);
      StandingStep(defs, HistoryOf(defs, s, es)[j - 1], es[j - 1], uid, permission);
    }
  }

  lemma HistoryStep(defs: Defs, s: State, es: seq<Event>, j: nat)
    requires j + 1 < |es|
    ensures HistoryOf(defs, s, es)[j + 1] == Apply(defs, HistoryOf(defs, s, es)[j], es[j])
  {
    HistoryIsTheRun(defs, s, es, j);
    HistoryIsTheRun(defs, s, es, j + 1);
    assert es[..j + 1][..j] == es[..j];
  }

  /** An account that stands at one point of a run stands from there to another exactly when no event in
      between takes its standing away. */
  lemma StandsThroughoutIff(defs: Defs, s: State, es: seq<Event>, from: nat, to: nat, uid: UserId, permission: string)
    requires from <= to < |es| && Stands(HistoryOf(defs, s, es)[from], uid, permission)
    ensures StandsThroughout(HistoryOf(defs, s, es), from, to, uid, permission) <==> Undisturbed(es, from, to, uid, permission)
  {
    var h := HistoryOf(defs, s, es);
    if Undisturbed(es, from, to, uid, permission) {
      forall j | from <= j <= to ensures Stands(h[j], uid, permission) {
        StandsIfUndisturbed(defs, s, es, from, j, uid, permission);
      }
    }
    if StandsThroughout(h, from, to, uid, permission) {
      forall i | from <= i < to ensures !Unseats(es[i], uid, permission) {
        HistoryStep(defs, s, es, i);
        StandingStep(defs, h[i], es[i], uid, permission);
        assert Stands(h[i + 1], uid, permission);
      }
    }
  }

  /** For every effect that ran on its owner's confirm: from the moment the request came in to the claim, the
      owner was enabled and permitted all along exactly when nothing in between disabled, stripped or deleted
      the account. */
  lemma LiveOwnerIff(defs: Defs, s: State, es: seq<Event>, n: nat)
    requires Initial(s) && n < |Run(defs, s, es).effects| && Run(defs, s, es).effects[n].row.risk == Safe
    ensures var f := Run(defs, s, es).effects[n];
            && f.at.begun < f.at.claim < |es| && f.row.kind in defs
            && (StandsThroughout(HistoryOf(defs, s, es), f.at.begun, f.at.claim, f.row.owner, defs[f.row.kind].permission)
                <==> Undisturbed(es, f.at.begun, f.at.claim, f.row.owner, defs[f.row.kind].permission))
  {
    EveryEffectWasAuthorised(defs, s, es, n);
    var f := Run(defs, s, es).effects[n];
    StandsThroughoutIff(defs, s, es, f.at.begun, f.at.claim, f.row.owner, defs[f.row.kind].permission);
  }

  /** Since the first state the account is unchanged, or it was given a standing of its own. */
  lemma {:induction false} KeptOrGiven(defs: Defs, s: State, es: seq<Event>, from: nat, j: nat, uid: UserId, permission: string)
    requires from <= j < |es| && Undisturbed(es, from, j, uid, permission)
    requires uid in HistoryOf(defs, s, es)[from].users && !HistoryOf(defs, s, es)[from].users[uid].disabled
    ensures var h := HistoryOf(defs, s, es);
            Stands(h[j], uid, permission) || (uid in h[j].users && h[j].users[uid] == h[from].users[uid])
    decreases j
  {
    if from < j {
      KeptOrGiven(defs, s, es, from, j - 1, uid, permission);
      HistoryStep(defs, s, es, j - 1);
      var h := HistoryOf(defs, s, es);
      if Stands(h[j - 1], uid, permission) { StandingStep(defs, h[j - 1], es[j - 1], uid, permission); }
    }
  }

  /** For every effect that ran on a second person's approval: from the read of the requester's account to the
      claim, the requester was enabled and permitted all along exactly when they were at that read and nothing
      in between disabled, stripped or deleted the account.  And if nothing did, they were from the read of
      their permissions on. */
  lemma LiveRequesterIff(defs: Defs, s: State, es: seq<Event>, n: nat)
    requires Initial(s) && n < |Run(defs, s, es).effects| && Run(defs, s, es).effects[n].row.risk != Safe
    ensures var f := Run(defs, s, es).effects[n];
            var h := HistoryOf(defs, s, es);
            && f.at.account < f.at.perms < f.at.claim < |es| && f.row.kind in defs
            && var permission := defs[f.row.kind].permission;
               && (StandsThroughout(h, f.at.account, f.at.claim, f.row.owner, permission)
                   <==> Stands(h[f.at.account], f.row.owner, permission)
                        && Undisturbed(es, f.at.account, f.at.claim, f.row.owner, permission))
               && (Undisturbed(es, f.at.account, f.at.claim, f.row.owner, permission)
                   ==> StandsThroughout(h, f.at.perms, f.at.claim, f.row.owner, permission))
  {
    EveryEffectWasAuthorised(defs, s, es, n);
    var f := Run(defs, s, es).effects[n];
    var h, at, uid, permission := HistoryOf(defs, s, es), f.at, f.row.owner, defs[f.row.kind].permission;
    if Stands(h[at.account], uid, permission) {
      StandsThroughoutIff(defs, s, es, at.account, at.claim, uid, permission);
    }
    if Undisturbed(es, at.account, at.claim, uid, permission) {
      KeptOrGiven(defs, s, es, at.account, at.perms, uid, permission);
      assert Stands(h[at.perms], uid, permission);
      StandsThroughoutIff(defs, s, es, at.perms, at.claim, uid, permission);
    }
  }

  // ----- a run in which it fails -----

  lemma RunNext(defs: Defs, s: State, es: seq<Event>, e: Event)
    ensures Run(defs, s, es + [e]) == Apply(defs, Run(defs, s, es), e)
  {
    assert (es + [e])[..|es|] == es;
  }

  function Stripped(u: User): User { u.(isSuper := false, disabled := true, perms := {}) }

  /** The owner proposes and confirms; the account is then disabled and stripped, before the call has even
      read the proposal. */
  function Overtaken(uid: UserId, id: ActionId, kind: string, c: CallId, u: User): seq<Event> {
    [Propose(uid, id, kind, false, false, true)] + [Begin(c, Execute, uid, id)] + [SetUser(uid, Stripped(u))]
    + [Fetch(c, true)] + [Judge(c)] + [Write(c, Acked)] + [RunEffect(c, true)]
  }

  /** Proposed, authenticated, then stripped. */
  lemma StripsEarly(defs: Defs, s: State, uid: UserId, id: ActionId, kind: string, c: CallId) returns (t: State)
    requires Initial(s) && uid in s.users && kind in defs && defs[kind].risk == Safe
    requires Stands(s, uid, defs[kind].permission)
    ensures t == Run(defs, s, Overtaken(uid, id, kind, c, s.users[uid])[..3])
    ensures t.users == s.users[uid := Stripped(s.users[uid])] && t.now == s.now && t.effects == [] && t.step == 3
    ensures id in t.rows && t.rows[id] == Row(uid, kind, Safe, Proposed, s.now + PROPOSAL_WINDOW, None)
    ensures c in t.calls && t.calls[c] == Call(Execute, Actor(uid, s.users[uid].isSuper, s.users[uid].perms), id, Entered,
                                               Times(1, 0, 0, 0, 0, 0))
  {
    var u := s.users[uid];
    var e0, e1, e2 := Propose(uid, id, kind, false, false, true), Begin(c, Execute, uid, id), SetUser(uid, Stripped(u));
    RunNext(defs, s, [], e0);
    RunNext(defs, s, [e0], e1);
    RunNext(defs, s, [e0] + [e1], e2);
    assert [] + [e0] == [e0];
    assert Overtaken(uid, id, kind, c, u)[..3] == [e0] + [e1] + [e2];
    t := Run(defs, s, [e0] + [e1] + [e2]);
  }

  function Reads(c: CallId): seq<Event> { [Fetch(c, true)] + [Judge(c)] }
  function Runs(c: CallId): seq<Event> { [Write(c, Acked)] + [RunEffect(c, true)] }

  /** From there the call reads and judges. */
  lemma ReadsOn(defs: Defs, t: State, c: CallId) returns (t': State)
    requires c in t.calls && t.calls[c].phase == Entered && t.calls[c].op == Execute && t.calls[c].id in t.rows
    requires var row := t.rows[t.calls[c].id]; JudgePhase(defs, Execute, t.calls[c].actor, row, t.now) == Cleared(row)
    ensures t' == Run(defs, t, Reads(c)) && t'.rows == t.rows && t'.effects == t.effects && t'.users == t.users
    ensures c in t'.calls && t'.calls[c] == t.calls[c].(phase := Cleared(t.rows[t.calls[c].id]),
                                                        at := t.calls[c].at.(read := t.step, clock := t.step + 1))
    ensures t'.step == t.step + 2
  {
    RunNext(defs, t, [], Fetch(c, true));
    assert [] + [Fetch(c, true)] == [Fetch(c, true)];
    RunNext(defs, t, [Fetch(c, true)], Judge(c));
    t' := Apply(defs, Apply(defs, t, Fetch(c, true)), Judge(c));
  }

  /** Then it claims and runs. */
  lemma RunsOn(defs: Defs, t: State, c: CallId) returns (f: Effect)
    requires t.effects == [] && c in t.calls && t.calls[c].phase.Cleared? && t.calls[c].op == Execute
    requires t.calls[c].id in t.rows && t.rows[t.calls[c].id].status == Proposed
    ensures Run(defs, t, Runs(c)).effects == [f]
    ensures f.id == t.calls[c].id && f.at == t.calls[c].at.(claim := t.step)
  {
    RunNext(defs, t, [], Write(c, Acked));
    assert [] + [Write(c, Acked)] == [Write(c, Acked)];
    var t1 := Apply(defs, t, Write(c, Acked));
    assert t1.rows[t.calls[c].id].status == Executed;
    RunNext(defs, t, [Write(c, Acked)], RunEffect(c, true));
    f := Effect(c, t1.calls[c].id, t1.calls[c].phase.row, Execute, t1.calls[c].actor, RunsAs(t1.calls[c]), t1.calls[c].at);
  }

  lemma OvertakenParts(uid: UserId, id: ActionId, kind: string, c: CallId, u: User)
    ensures var es := Overtaken(uid, id, kind, c, u);
            |es| == 7 && es == es[..3] + Reads(c) + Runs(c) && es[..5] == es[..3] + Reads(c) && es[3] == Fetch(c, true)
  {
  }

  /** So the effect of a safe action runs for an owner whose account was disabled and stripped of every
      permission before the proposal was read, and who had no standing at the claim either. */
  lemma StrippedOwnerStillRuns(defs: Defs, s: State, uid: UserId, id: ActionId, kind: string, c: CallId)
    requires Initial(s) && uid in s.users && kind in defs && defs[kind].risk == Safe
    requires Stands(s, uid, defs[kind].permission)
    ensures var es := Overtaken(uid, id, kind, c, s.users[uid]);
            var fs := Run(defs, s, es).effects;
            && |fs| == 1 && fs[0].id == id && fs[0].at.read == 3 && fs[0].at.claim == 5 < |es|
            && !Stands(HistoryOf(defs, s, es)[3], uid, defs[kind].permission)
            && !Stands(HistoryOf(defs, s, es)[5], uid, defs[kind].permission)
  {
    var es := Overtaken(uid, id, kind, c, s.users[uid]);
    OvertakenParts(uid, id, kind, c, s.users[uid]);
    var t := StripsEarly(defs, s, uid, id, kind, c);
    var t' := ReadsOn(defs, t, c);
    var f := RunsOn(defs, t', c);
    RunSplits(defs, s, es[..3], Reads(c));
    RunSplits(defs, s, es[..5], Runs(c));
    HistoryIsTheRun(defs, s, es, 3);
    HistoryIsTheRun(defs, s, es, 5);
  }

  // ----- the same for an approval -----

  /** An action of the requester's that another user may now approve. */
  predicate AwaitsApproval(defs: Defs, t: State, uid: UserId, id: ActionId, kind: string) {
    && id in t.rows && t.rows[id].owner == uid && t.rows[id].kind == kind && t.rows[id].status == PendingApproval
    && t.now <= t.rows[id].expires && kind in defs && Stands(t, uid, defs[kind].permission)
  }

  /** The requester proposes a risky action and sends it to approval. */
  function Sending(uid: UserId, id: ActionId, kind: string, c: CallId): seq<Event> {
    [Propose(uid, id, kind, false, false, true)] + [Begin(c, RequestApproval, uid, id)] + [Fetch(c, true)] + [Judge(c)]
    + [Write(c, Acked)]
  }

  lemma ProposedAndBegun(defs: Defs, s: State, uid: UserId, id: ActionId, kind: string, c: CallId) returns (t: State)
    requires Initial(s) && uid in s.users && kind in defs && defs[kind].risk != Safe
    requires Stands(s, uid, defs[kind].permission)
    ensures t == Run(defs, s, [Propose(uid, id, kind, false, false, true)] + [Begin(c, RequestApproval, uid, id)])
    ensures t.users == s.users && t.now == s.now && t.effects == [] && t.step == 2
    ensures id in t.rows && t.rows[id] == Row(uid, kind, defs[kind].risk, Proposed, s.now + PROPOSAL_WINDOW, None)
    ensures t.calls == map[c := Call(RequestApproval, Actor(uid, s.users[uid].isSuper, s.users[uid].perms), id, Entered,
                                     Times(1, 0, 0, 0, 0, 0))]
  {
    var e0, e1 := Propose(uid, id, kind, false, false, true), Begin(c, RequestApproval, uid, id);
    RunNext(defs, s, [], e0);
    RunNext(defs, s, [e0], e1);
    assert [] + [e0] == [e0];
    t := Apply(defs, Apply(defs, s, e0), e1);
  }

  lemma SendingParts(uid: UserId, id: ActionId, kind: string, c: CallId)
    ensures Sending(uid, id, kind, c) == [Propose(uid, id, kind, false, false, true)] + [Begin(c, RequestApproval, uid, id)]
                                         + ([Fetch(c, true)] + [Judge(c)] + [Write(c, Acked)])
  {
  }

  lemma Sends(defs: Defs, s: State, uid: UserId, id: ActionId, kind: string, c: CallId) returns (t: State)
    requires Initial(s) && uid in s.users && kind in defs && defs[kind].risk != Safe
    requires Stands(s, uid, defs[kind].permission)
    ensures t == Run(defs, s, Sending(uid, id, kind, c))
    ensures AwaitsApproval(defs, t, uid, id, kind) && t.users == s.users && t.effects == [] && t.calls.Keys == {c} && t.step == 5
  {
    SendingParts(uid, id, kind, c);
    var t0 := ProposedAndBegun(defs, s, uid, id, kind, c);
    var first := [Propose(uid, id, kind, false, false, true)] + [Begin(c, RequestApproval, uid, id)];
    RunSplits(defs, s, first, [Fetch(c, true)] + [Judge(c)] + [Write(c, Acked)]);
    t := SendsOn(defs, t0, c);
  }

  lemma SendsOn(defs: Defs, t0: State, c: CallId) returns (t: State)
    requires c in t0.calls && t0.calls[c].phase == Entered && t0.calls[c].op == RequestApproval && t0.calls[c].id in t0.rows
    requires var row := t0.rows[t0.calls[c].id];
             row.status == Proposed && JudgePhase(defs, RequestApproval, t0.calls[c].actor, row, t0.now) == Cleared(row)
    ensures t == Run(defs, t0, [Fetch(c, true)] + [Judge(c)] + [Write(c, Acked)])
    ensures t.rows == SendToApproval(t0.rows, t0.calls[c].id, t0.now) && t.users == t0.users && t.now == t0.now
    ensures t.effects == t0.effects && t.calls.Keys == t0.calls.Keys && t.step == t0.step + 3
  {
    RunNext(defs, t0, [], Fetch(c, true));
    assert [] + [Fetch(c, true)] == [Fetch(c, true)];
    var t1 := Apply(defs, t0, Fetch(c, true));
    RunNext(defs, t0, [Fetch(c, true)], Judge(c));
    var t2 := Apply(defs, t1, Judge(c));
    assert t2.calls[c].phase == Cleared(t0.rows[t0.calls[c].id]);
    RunNext(defs, t0, [Fetch(c, true)] + [Judge(c)], Write(c, Acked));
    t := Apply(defs, t2, Write(c, Acked));
  }

  /** Another user begins to approve, and every check passes. */
  function Vets(c: CallId, other: UserId, id: ActionId): seq<Event> {
    [Begin(c, Approve, other, id)] + [Fetch(c, true)] + [Judge(c)] + [LoadAccount(c, true)] + [LoadPermissions(c, true)]
  }

  lemma BeginsToApprove(defs: Defs, t: State, other: UserId, id: ActionId, c: CallId) returns (t': State)
    requires id in t.rows && c !in t.calls && other in t.users && !t.users[other].disabled
    ensures t' == Run(defs, t, [Begin(c, Approve, other, id)] + [Fetch(c, true)])
    ensures t'.rows == t.rows && t'.effects == t.effects && t'.users == t.users && t'.step == t.step + 2 && t'.now == t.now
    ensures c in t'.calls && t'.calls[c].op == Approve && t'.calls[c].id == id && t'.calls[c].phase == Fetched(t.rows[id])
    ensures t'.calls[c].actor.id == other
  {
    var e0 := Begin(c, Approve, other, id);
    RunNext(defs, t, [], e0);
    assert [] + [e0] == [e0];
    RunNext(defs, t, [e0], Fetch(c, true));
    t' := Apply(defs, Apply(defs, t, e0), Fetch(c, true));
  }

  lemma VetsRead(defs: Defs, t: State, uid: UserId, other: UserId, id: ActionId, kind: string, c: CallId) returns (t': State)
    requires AwaitsApproval(defs, t, uid, id, kind) && other != uid && c !in t.calls
    requires other in t.users && !t.users[other].disabled
    ensures t' == Run(defs, t, [Begin(c, Approve, other, id)] + [Fetch(c, true)] + [Judge(c)])
    ensures t'.rows == t.rows && t'.effects == t.effects && t'.users == t.users && t'.step == t.step + 3
    ensures c in t'.calls && t'.calls[c].op == Approve && t'.calls[c].id == id && t'.calls[c].phase == Vetting(t.rows[id])
    ensures t'.calls[c].actor.id == other
  {
    var t1 := BeginsToApprove(defs, t, other, id, c);
    RunNext(defs, t, [Begin(c, Approve, other, id)] + [Fetch(c, true)], Judge(c));
    t' := Apply(defs, t1, Judge(c));
  }

  lemma VetsPass(defs: Defs, t: State, c: CallId) returns (t': State)
    requires c in t.calls && t.calls[c].phase.Vetting? && t.calls[c].phase.row.kind in defs
    requires Stands(t, t.calls[c].phase.row.owner, defs[t.calls[c].phase.row.kind].permission)
    ensures t' == Run(defs, t, [LoadAccount(c, true)] + [LoadPermissions(c, true)])
    ensures t'.rows == t.rows && t'.effects == t.effects && t'.users == t.users && t'.step == t.step + 2
    ensures c in t'.calls && t'.calls[c].op == t.calls[c].op && t'.calls[c].id == t.calls[c].id
    ensures t'.calls[c].phase == Cleared(t.calls[c].phase.row) && t'.calls[c].actor == t.calls[c].actor
  {
    RunNext(defs, t, [], LoadAccount(c, true));
    assert [] + [LoadAccount(c, true)] == [LoadAccount(c, true)];
    RunNext(defs, t, [LoadAccount(c, true)], LoadPermissions(c, true));
    t' := Apply(defs, Apply(defs, t, LoadAccount(c, true)), LoadPermissions(c, true));
  }

  lemma StripClaimRun(defs: Defs, t: State, c: CallId, uid: UserId) returns (f: Effect)
    requires t.effects == [] && c in t.calls && t.calls[c].phase.Cleared? && t.calls[c].op == Approve && uid in t.users
    requires t.calls[c].id in t.rows && t.rows[t.calls[c].id].status == PendingApproval
    ensures Run(defs, t, [SetUser(uid, Stripped(t.users[uid]))] + Runs(c)).effects == [f]
    ensures f.id == t.calls[c].id && f.op == Approve && f.at.claim == t.step + 1
    ensures Run(defs, t, [SetUser(uid, Stripped(t.users[uid]))]).users[uid] == Stripped(t.users[uid])
  {
    var e := SetUser(uid, Stripped(t.users[uid]));
    RunNext(defs, t, [], e);
    assert [] + [e] == [e];
    var t1 := Apply(defs, t, e);
    RunSplits(defs, t, [e], Runs(c));
    RunNext(defs, t1, [], Write(c, Acked));
    assert [] + [Write(c, Acked)] == [Write(c, Acked)];
    var t2 := Apply(defs, t1, Write(c, Acked));
    assert t2.rows[t.calls[c].id].status == Executed;
    assert t2.calls[c].phase.Claimed?;
    RunNext(defs, t1, [Write(c, Acked)], RunEffect(c, true));
    f := Effect(c, t2.calls[c].id, t2.calls[c].phase.row, Approve, t2.calls[c].actor, RunsAs(t2.calls[c]), t2.calls[c].at);
  }

  /** Sent, vetted, then the requester is disabled and stripped before the claim. */
  function OvertakenApproval(uid: UserId, other: UserId, id: ActionId, kind: string, c: CallId, d: CallId, u: User): seq<Event> {
    Sending(uid, id, kind, c) + Vets(d, other, id) + ([SetUser(uid, Stripped(u))] + Runs(d))
  }

  /** So the effect of a risky action runs for a requester whose account was disabled and stripped of every
      permission before the claim. */
  lemma StrippedRequesterStillRuns(defs: Defs, s: State, uid: UserId, other: UserId, id: ActionId, kind: string, c: CallId,
                                   d: CallId)
    requires Initial(s) && uid in s.users && kind in defs && defs[kind].risk != Safe && c != d
    requires Stands(s, uid, defs[kind].permission) && other != uid && other in s.users && !s.users[other].disabled
    ensures var es := OvertakenApproval(uid, other, id, kind, c, d, s.users[uid]);
            var fs := Run(defs, s, es).effects;
            && |es| == 13 && |fs| == 1 && fs[0].id == id && fs[0].op == Approve && fs[0].at.claim == 11
            && !Stands(HistoryOf(defs, s, es)[11], uid, defs[kind].permission)
  {
    var es := OvertakenApproval(uid, other, id, kind, c, d, s.users[uid]);
    var sending, vets, last := Sending(uid, id, kind, c), Vets(d, other, id), [SetUser(uid, Stripped(s.users[uid]))] + Runs(d);
    var t := Sends(defs, s, uid, id, kind, c);
    var t1 := VetsRead(defs, t, uid, other, id, kind, d);
    var t2 := VetsPass(defs, t1, d);
    var read := [Begin(d, Approve, other, id)] + [Fetch(d, true)] + [Judge(d)];
    var load := [LoadAccount(d, true)] + [LoadPermissions(d, true)];
    assert vets == read + load;
    RunSplits(defs, t, read, load);
    RunSplits(defs, s, sending, vets);
    var f := StripClaimRun(defs, t2, d, uid);
    RunSplits(defs, s, sending + vets, last);
    AtTheClaim(defs, s, sending + vets, SetUser(uid, Stripped(s.users[uid])), Runs(d));
  }

  lemma AtTheClaim(defs: Defs, s: State, es: seq<Event>, e: Event, more: seq<Event>)
    requires |more| >= 1
    ensures HistoryOf(defs, s, es + ([e] + more))[|es| + 1] == Run(defs, Run(defs, s, es), [e])
  {
    var all := es + ([e] + more);
    HistoryIsTheRun(defs, s, all, |es| + 1);
    assert all[..|es| + 1] == es + [e];
    RunSplits(defs, s, es, [e]);
  }
}
