/** The registry's calls as they are written, one statement after another, with anything at all
    happening between two accesses to the store.  Each call is shown to take exactly the steps of
    the machine, so what is proved of all runs holds of every mix of these calls. */
module ActionRegistry {
  import opened Wrappers
  import opened ActionMachine
  import opened ActionSafety
  import opened ActionAudit

  datatype Answer =
    | Ran(ok: bool)        // the effect was run; `ok` is its outcome
    | Sent                 // sent to approval
    | Decided              // denied or cancelled
    | NotFound | NotPending | WindowClosed | Unknown | NeedsApproval | NoApprovalNeeded | NotPermitted
    | SelfApproval | RequesterRefused | StoreError | Unauthenticated

  /** What happens at each point where a call lets others run. */
  type Others = nat -> seq<Event>

  /** No effect so far was run by this call. */
  predicate NoneBy(effects: seq<Effect>, c: CallId) { forall k :: 0 <= k < |effects| ==> effects[k].call != c }

  function After(past: seq<State>, last: State, k: nat): State { if k + 1 < |past| then past[k + 1] else last }

  /** The events, each in its state, lead from the first state to the last. */
  ghost predicate Follows(defs: Defs, first: State, trace: seq<Event>, past: seq<State>, last: State) {
    && Initial(first) && |past| == |trace|
    && first == (if past == [] then last else past[0])
    && forall k {:trigger trace[k]} :: 0 <= k < |trace| ==> After(past, last, k) == Apply(defs, past[k], trace[k])
  }

  lemma FollowsBefore(defs: Defs, first: State, trace: seq<Event>, past: seq<State>, last: State)
    requires Follows(defs, first, trace, past, last) && trace != []
    ensures var n := |trace| - 1;
            |past| == |trace| && Follows(defs, first, trace[..n], past[..n], past[n]) && last == Apply(defs, past[n], trace[n])
  {
  }

  /** So the present state is the one the machine reaches by those events. */
  lemma {:induction false} FollowsIsRun(defs: Defs, first: State, trace: seq<Event>, past: seq<State>, last: State)
    requires Follows(defs, first, trace, past, last)
    ensures last == Run(defs, first, trace)
    decreases |trace|
  {
    if trace != [] {
      var n := |trace| - 1;
      FollowsBefore(defs, first, trace, past, last);
      FollowsIsRun(defs, first, trace[..n], past[..n], past[n]);
    }
  }

  lemma FollowsOn(defs: Defs, first: State, trace: seq<Event>, past: seq<State>, last: State, e: Event)
    requires Follows(defs, first, trace, past, last)
    ensures Follows(defs, first, trace + [e], past + [last], Apply(defs, last, e))
  {
  }

  /** A cleared request for approval is the owner's. */
  lemma SenderOwns(defs: Defs, first: State, trace: seq<Event>, past: seq<State>, last: State, c: CallId)
    requires Follows(defs, first, trace, past, last) && c in last.calls
    requires last.calls[c].op == Op.RequestApproval && last.calls[c].phase.Cleared?
    ensures var k := last.calls[c]; k.id in last.rows ==> last.rows[k.id].owner == k.actor.id
  {
    FollowsIsRun(defs, first, trace, past, last);
    RunKeeps(defs, first, trace);
  }

  // ----- what a call answers -----

  function RowOf(s: State, id: ActionId): Option<Row> { if id in s.rows then Some(s.rows[id]) else None }

  /** The account as the authenticated caller, when it exists and is enabled. */
  function Snapshot(s: State, uid: UserId): Option<Actor> {
    if uid in s.users && !s.users[uid].disabled then Some(Actor(uid, s.users[uid].isSuper, s.users[uid].perms)) else None
  }

  /** The first check on the row read that fails. */
  function Stop(defs: Defs, op: Op, actor: Actor, found: Option<Row>, now: nat): (r: Option<Answer>)
    ensures r.None? <==> found.Some? && (JudgePhase(defs, op, actor, found.value, now) == Cleared(found.value)
                                         || JudgePhase(defs, op, actor, found.value, now) == Vetting(found.value))
    ensures r == Some(WindowClosed) && op != Op.Approve
            <==> found.Some? && JudgePhase(defs, op, actor, found.value, now) == Lapsed
  {
    if found.None? then Some(NotFound)
    else if op == Op.Approve || op == Op.Deny then StopSecond(defs, op, actor, found.value, now)
    else StopOwner(defs, op, actor, found.value, now)
  }

  function StopOwner(defs: Defs, op: Op, actor: Actor, row: Row, now: nat): Option<Answer> {
    if row.owner != actor.id then Some(NotFound)
    else if op == Op.Cancel then None
    else if row.status != Proposed then Some(NotPending)
    else if now > row.expires then Some(WindowClosed)
    else if row.kind !in defs then Some(Unknown)
    else if op == Op.Execute && row.risk != Safe then Some(NeedsApproval)
    else if op == Op.RequestApproval && row.risk == Safe then Some(NoApprovalNeeded)
    else if !Can(actor.isSuper, actor.perms, defs[row.kind].permission) then Some(NotPermitted)
    else None
  }

  function StopSecond(defs: Defs, op: Op, actor: Actor, row: Row, now: nat): Option<Answer> {
    if row.status != PendingApproval then Some(NotPending)
    else if actor.id == row.owner then Some(SelfApproval)
    else if op == Op.Deny then None
    else if now > row.expires then Some(WindowClosed)
    else if row.kind !in defs then Some(Unknown)
    else None
  }

  /** A refusal names something that is so, and an owner's call learns nothing of another user's action: it is
      answered as one that does not exist. */
  lemma RefusalIsTrue(defs: Defs, op: Op, actor: Actor, found: Option<Row>, now: nat)
    ensures var r := Stop(defs, op, actor, found, now);
            && (found.None? ==> r == Some(NotFound))
            && (found.Some? && r.Some? ==>
                  var row := found.value;
                  match r.value
                  case NotFound => row.owner != actor.id && op != Op.Approve && op != Op.Deny
                  case NotPending =>
                    op != Op.Cancel && row.status != if op == Op.Approve || op == Op.Deny then PendingApproval else Proposed
                  case WindowClosed => now > row.expires
                  case Unknown => row.kind !in defs
                  case NeedsApproval => op == Op.Execute && row.risk != Safe
                  case NoApprovalNeeded => op == Op.RequestApproval && row.risk == Safe
                  case NotPermitted => row.kind in defs && !actor.isSuper && defs[row.kind].permission !in actor.perms
                  case SelfApproval => row.owner == actor.id && (op == Op.Approve || op == Op.Deny)
                  case _ => false)
            && (found.Some? && found.value.owner != actor.id && op != Op.Approve && op != Op.Deny ==> r == Some(NotFound))
  {
  }

  /** Which of a call's reads the store answers. */
  datatype Reads = Reads(row: bool, account: bool, perms: bool)

  /** Approve's look at the requester: the account in one state, the permissions in a later one. */
  predicate RequesterStands(defs: Defs, got: Reads, row: Row, account: State, perms: State) {
    got.account && row.owner in account.users && !account.users[row.owner].disabled && row.kind in defs
    && Can(account.users[row.owner].isSuper, if got.perms then PermsOf(perms, row.owner) else {}, defs[row.kind].permission)
  }

  predicate Within(t: Times, n: nat) { t.read < n && t.clock < n && t.account < n && t.perms < n && t.claim < n }

  /** What stops a call whose reads fell at the given times. */
  function Verdict(defs: Defs, past: seq<State>, got: Reads, op: Op, actor: Actor, id: ActionId, t: Times): Option<Answer>
    requires Within(t, |past|)
  {
    var found := if got.row then RowOf(past[t.read], id) else None;
    var stop := Stop(defs, op, actor, found, past[t.clock].now);
    if stop.Some? || op != Op.Approve then stop
    else if RequesterStands(defs, got, found.value, past[t.account], past[t.perms]) then None
    else Some(RequesterRefused)
  }

  /** The row is where the operation's conditional update wants it. */
  predicate Open(s: State, op: Op, id: ActionId) {
    id in s.rows && s.rows[id].status == if op == Op.Approve || op == Op.Deny then PendingApproval else Proposed
  }

  function Reported(defs: Defs, past: seq<State>, got: Reads, op: Op, actor: Actor, id: ActionId, t: Times, reply: Reply,
                    done: Answer): Answer
    requires Within(t, |past|)
  {
    var stop := Verdict(defs, past, got, op, actor, id, t);
    if stop.Some? then stop.value
    else if reply != Acked then StoreError
    else if Open(past[t.claim], op, id) then done else NotPending
  }

  /** Later events and the claim itself do not touch the verdict. */
  lemma VerdictSteady(defs: Defs, p: seq<State>, q: seq<State>, got: Reads, op: Op, actor: Actor, id: ActionId, t: Times,
                      claim: nat)
    requires Within(t, |p|) && p <= q && claim < |q|
    ensures Verdict(defs, q, got, op, actor, id, t.(claim := claim)) == Verdict(defs, p, got, op, actor, id, t)
  {
  }

  function Done(op: Op, works: bool): Answer {
    match op
    case Execute => Answer.Ran(works)
    case Approve => Answer.Ran(works)
    case RequestApproval => Sent
    case Deny => Decided
    case Cancel => Decided
  }

  lemma UpdateTakesOpen(s: State, call: Call)
    requires call.phase.Cleared?
    ensures WriteRows(s, call) != s.rows <==> Open(s, call.op, call.id)
  {
    if Open(s, call.op, call.id) {
      assert WriteRows(s, call)[call.id].status != s.rows[call.id].status;
    }
  }

  class Registry {
    const defs: Defs
    ghost const first: State
    var st: State
    ghost var trace: seq<Event>
    ghost var past: seq<State>    // the state each of these events happened in

    constructor (kinds: Defs, s: State)
      requires Initial(s)
      ensures Valid() && st == s && defs == kinds
    {
      defs, first, st := kinds, s, s;
      trace, past := [], [];
    }

    /** The state is what the events so far lead to. */
    ghost predicate Valid()
      reads this
    {
      Follows(defs, first, trace, past, st) && st.step == |past|
    }

    /** The answer to a call that began at step `begun`: it follows from what the call saw at the times it
        looked, each of them within the call. */
    ghost predicate Concluded(c: CallId, op: Op, actor: Actor, id: ActionId, begun: nat, got: Reads, reply: Reply,
                              done: Answer, r: Answer)
      reads this
    {
      c in st.calls && Looked(c, begun) && r == Reported(defs, past, got, op, actor, id, st.calls[c].at, reply, done)
    }

    /** The call is authenticated and has not looked at anything yet. */
    ghost predicate Arrived(c: CallId, op: Op, actor: Actor, id: ActionId, begun: nat)
      reads this
    {
      InPhase(c, op, actor, id, Entered) && st.calls[c].at == Times(begun, 0, 0, 0, 0, 0) && begun < |past|
    }

    ghost predicate Looked(c: CallId, begun: nat)
      requires c in st.calls
      reads this
    {
      var t := st.calls[c].at;
      Within(t, |past|) && begun == t.begun < t.read && (t.clock == 0 || t.read < t.clock)
    }

    /** The call's checks are over, with this verdict. */
    ghost predicate Checked(c: CallId, op: Op, actor: Actor, id: ActionId, begun: nat, got: Reads, r: Option<Answer>)
      reads this
    {
      c in st.calls && st.calls[c].op == op && st.calls[c].actor == actor && st.calls[c].id == id
      && Looked(c, begun) && r == Verdict(defs, past, got, op, actor, id, st.calls[c].at)
      && (r.None? ==> st.calls[c].phase.Cleared?)
    }

    /** One step of anybody. */
    method Perform(e: Event)
      requires Valid()
      modifies this
      ensures Valid() && st == Apply(defs, old(st), e) && past == old(past) + [old(st)]
    {
      FollowsOn(defs, first, trace, past, st, e);
      trace, past := trace + [e], past + [st];
      st := Apply(defs, st, e);
    }

    /** Others run: their events happen, those of call `c` do not. */
    method LetOthersRun(c: CallId, es: seq<Event>)
      requires Valid()
      modifies this
      ensures Valid() && old(past) <= past
      ensures c in st.calls <==> c in old(st.calls)
      ensures c in st.calls ==> st.calls[c] == old(st.calls)[c]
      ensures old(st.effects) <= st.effects && (NoneBy(old(st.effects), c) ==> NoneBy(st.effects, c))
    {
      for n := 0 to |es|
        invariant Valid() && old(past) <= past
        invariant c in st.calls <==> c in old(st.calls)
        invariant c in st.calls ==> st.calls[c] == old(st.calls)[c]
        invariant old(st.effects) <= st.effects && (NoneBy(old(st.effects), c) ==> NoneBy(st.effects, c))
      {
        if !OfCall(es[n], c) {
          OthersUntouched(defs, st, es[n], c);
          EffectsByOthers(defs, st, es[n], c);
          Perform(es[n]);
        }
      }
    }

    // ----- the store, as the calls use it -----

    /** Authenticates the caller; `None` when the account is gone or disabled. */
    method Authenticate(c: CallId, op: Op, uid: UserId, id: ActionId) returns (actor: Option<Actor>)
      requires Valid() && c !in st.calls
      modifies this
      ensures Valid() && st.effects == old(st.effects)
      ensures actor == Snapshot(old(st), uid) && (actor.None? ==> st == old(st))
      ensures actor.Some? ==> Arrived(c, op, actor.value, id, old(st.step))
    {
      if uid !in st.users || st.users[uid].disabled { return None; }
      Perform(Begin(c, op, uid, id));
      return Some(st.calls[c].actor);
    }

    predicate InPhase(c: CallId, op: Op, actor: Actor, id: ActionId, p: Phase)
      reads this
    {
      c in st.calls && st.calls[c].op == op && st.calls[c].actor == actor && st.calls[c].id == id && st.calls[c].phase == p
    }

    method GetAssistantAction(c: CallId, op: Op, actor: Actor, id: ActionId, readable: bool) returns (row: Option<Row>)
      requires Valid() && InPhase(c, op, actor, id, Entered)
      modifies this
      ensures Valid() && st.effects == old(st.effects) && past == old(past) + [old(st)]
      ensures InPhase(c, op, actor, id, if row.Some? then Fetched(row.value) else Closed)
      ensures st.calls[c].at == old(st.calls)[c].at.(read := |old(past)|)
      ensures row == if readable then RowOf(old(st), id) else None
    {
      row := if readable && id in st.rows then Some(st.rows[id]) else None;
      Perform(Fetch(c, readable));
    }

    /** Reads the clock, for the calls that look at it; from here on the call's checks are decided. */
    method Clock(c: CallId, op: Op, actor: Actor, id: ActionId, row: Row) returns (now: nat)
      requires Valid() && InPhase(c, op, actor, id, Fetched(row))
      modifies this
      ensures Valid() && st.effects == old(st.effects) && past == old(past) + [old(st)]
      ensures now == old(st.now) && InPhase(c, op, actor, id, JudgePhase(defs, op, actor, row, now))
      ensures st.calls[c].at == old(st.calls)[c].at.(clock := |old(past)|)
    {
      now := st.now;
      Perform(Judge(c));
    }

    method GetRequester(c: CallId, actor: Actor, id: ActionId, row: Row, readable: bool) returns (u: Option<User>)
      requires Valid() && InPhase(c, Op.Approve, actor, id, Vetting(row))
      modifies this
      ensures Valid() && st.effects == old(st.effects) && past == old(past) + [old(st)]
      ensures u == if readable && row.owner in old(st.users) then Some(old(st.users)[row.owner]) else None
      ensures InPhase(c, Op.Approve, actor, id,
                    if u.Some? && !u.value.disabled then Account(row, u.value.isSuper) else Refused)
      ensures st.calls[c].at == old(st.calls)[c].at.(account := |old(past)|)
    {
      u := if readable && row.owner in st.users then Some(st.users[row.owner]) else None;
      Perform(LoadAccount(c, readable));
    }

    method UserPermissions(c: CallId, actor: Actor, id: ActionId, row: Row, isSuper: bool, readable: bool)
      returns (perms: set<string>)
      requires Valid() && InPhase(c, Op.Approve, actor, id, Account(row, isSuper)) && row.kind in defs
      modifies this
      ensures Valid() && st.effects == old(st.effects) && past == old(past) + [old(st)]
      ensures perms == if readable then PermsOf(old(st), row.owner) else {}
      ensures InPhase(c, Op.Approve, actor, id,
                    if Can(isSuper, perms, defs[row.kind].permission) then Cleared(row) else Refused)
      ensures st.calls[c].at == old(st.calls)[c].at.(perms := |old(past)|)
    {
      perms := if readable then PermsOf(st, row.owner) else {};
      Perform(LoadPermissions(c, readable));
    }

    /** The conditional update the call has come to: `took` when the reply says it changed the row. */
    method Update(c: CallId, reply: Reply) returns (took: bool, err: bool)
      requires Valid() && c in st.calls
      requires st.calls[c].phase.Cleared? || st.calls[c].phase.Lapsed? || st.calls[c].phase.Refused?
      modifies this
      ensures Valid() && st.effects == old(st.effects) && past == old(past) + [old(st)]
      ensures st.rows == if reply == NotApplied then old(st.rows) else WriteRows(old(st), old(st.calls)[c])
      ensures err <==> reply != Acked
      ensures old(st.calls)[c].phase.Cleared? ==> (took <==>
                !err && Open(old(st), old(st.calls)[c].op, old(st.calls)[c].id))
      ensures c in st.calls && st.calls[c].op == old(st.calls)[c].op && st.calls[c].actor == old(st.calls)[c].actor
              && st.calls[c].id == old(st.calls)[c].id && st.calls[c].at == old(st.calls)[c].at.(claim := |old(past)|)
      ensures st.calls[c].phase == WritePhase(old(st), old(st.calls)[c], reply)
      ensures st.calls[c].phase.Claimed? <==> old(st.calls)[c].phase.Cleared? && took
                                              && (st.calls[c].op == Op.Execute || st.calls[c].op == Op.Approve)
    {
      if st.calls[c].phase.Cleared? { UpdateTakesOpen(st, st.calls[c]); }
      err := reply != Acked;
      took := !err && WriteRows(st, st.calls[c]) != st.rows;
      Perform(Write(c, reply));
    }

    /** Runs the effect of an action this call has claimed, once, then records the outcome. */
    method RunAndFinish(c: CallId, ok: bool, written: bool, others: seq<Event>)
      requires Valid() && c in st.calls && st.calls[c].phase.Claimed?
      modifies this
      ensures Valid() && !NoneBy(st.effects, c)
      ensures old(past) <= past && c in st.calls && st.calls[c] == old(st.calls)[c].(phase := Closed)
      ensures var id := st.calls[c].id;
              written && id in st.rows ==> st.rows[id].status == if ok then Executed else Failed
    {
      Perform(RunEffect(c, ok));
      ghost var ran := st.effects;
      assert ran[|ran| - 1].call == c;
      LetOthersRun(c, others);
      assert st.effects[|ran| - 1].call == c;
      Perform(Finish(c, written));
    }

    /** Others run, then the call reads its action. */
    method ReadAction(c: CallId, op: Op, actor: Actor, id: ActionId, ghost begun: nat, before: seq<Event>,
                      readable: bool)
      returns (found: Option<Row>)
      requires Valid() && Arrived(c, op, actor, id, begun)
      modifies this
      ensures Valid() && (NoneBy(old(st.effects), c) ==> NoneBy(st.effects, c))
      ensures InPhase(c, op, actor, id, if found.Some? then Fetched(found.value) else Closed)
      ensures Looked(c, begun) && st.calls[c].at.clock == 0
      ensures found == if readable then RowOf(past[st.calls[c].at.read], id) else None
    {
      LetOthersRun(c, before);
      found := GetAssistantAction(c, op, actor, id, readable);
    }

    /** The owner's window: an action past its deadline is marked expired on the way out. */
    method CheckWindow(c: CallId, op: Op, actor: Actor, id: ActionId, action: Row, before: seq<Event>,
                       after: seq<Event>, reply: Reply)
      returns (closed: bool)
      requires Valid() && (op == Op.Execute || op == Op.RequestApproval)
      requires InPhase(c, op, actor, id, Fetched(action)) && action.owner == actor.id && action.status == Proposed
      requires Within(st.calls[c].at, |past|)
      modifies this
      ensures Valid() && old(past) <= past && (NoneBy(old(st.effects), c) ==> NoneBy(st.effects, c))
      ensures c in st.calls && Within(st.calls[c].at, |past|) && |old(past)| <= st.calls[c].at.clock
      ensures st.calls[c].at.begun == old(st.calls)[c].at.begun && st.calls[c].at.read == old(st.calls)[c].at.read
      ensures closed <==> past[st.calls[c].at.clock].now > action.expires
      ensures InPhase(c, op, actor, id,
                    if closed then Closed else JudgePhase(defs, op, actor, action, past[st.calls[c].at.clock].now))
      ensures closed && reply != NotApplied && id in st.rows ==> st.rows[id].status != Proposed
    {
      LetOthersRun(c, before);
      var now := Clock(c, op, actor, id, action);
      LetOthersRun(c, after);
      closed := now > action.expires;
      if closed { var _, _ := Update(c, reply); }
    }

    /** Claims the action and, having got it, runs it. */
    method ClaimAndRun(c: CallId, before: seq<Event>, after: seq<Event>, reply: Reply, works: bool, written: bool)
      returns (r: Answer)
      requires Valid() && c in st.calls && NoneBy(st.effects, c) && st.calls[c].phase.Cleared?
      requires st.calls[c].op == Op.Execute || st.calls[c].op == Op.Approve
      modifies this
      ensures Valid() && |old(past)| < |past| && past[..|old(past)|] == old(past) && past[|old(past)|] == old(st)
      ensures c in st.calls && st.calls[c].at == old(st.calls)[c].at.(claim := |old(past)|)
      ensures r == if reply != Acked then StoreError
                   else if Open(old(st), old(st.calls)[c].op, old(st.calls)[c].id) then Answer.Ran(works) else NotPending
      ensures r.Ran? <==> !NoneBy(st.effects, c)
      ensures var id := old(st.calls)[c].id;
              r.Ran? && written && id in st.rows ==> st.rows[id].status == if works then Executed else Failed
    {
      var claimed, err := Update(c, reply);
      if err { return StoreError; }
      if !claimed { return NotPending; }
      LetOthersRun(c, before);
      RunAndFinish(c, works, written, after);
      return Answer.Ran(works);
    }

    /** The last step of the calls that only move the action on. */
    method Conclude(c: CallId, op: Op, actor: Actor, id: ActionId, ghost begun: nat, got: Reads, reply: Reply,
                    done: Answer)
      returns (r: Answer)
      requires Valid() && Checked(c, op, actor, id, begun, got, None) && done != StoreError && done != NotPending
      modifies this
      ensures Valid() && st.effects == old(st.effects) && Concluded(c, op, actor, id, begun, got, reply, done, r)
      ensures r == done <==> reply == Acked && Open(old(st), op, id)
      ensures r == done ==> st.rows == WriteRows(old(st), old(st.calls)[c])
      ensures r == done || r == StoreError || r == NotPending
    {
      ghost var seen, at := past, st.calls[c].at;
      var moved, err := Update(c, reply);
      VerdictSteady(defs, seen, past, got, op, actor, id, at, |seen|);
      if err { return StoreError; }
      if !moved { return NotPending; }
      return done;
    }

    // ----- the calls -----

    /** Execute up to its claim.  Without an answer every check has passed. */
    method ExecuteChecks(c: CallId, actor: Actor, id: ActionId, ghost begun: nat, others: Others, got: Reads,
                         reply: Reply)
      returns (r: Option<Answer>)
      requires Valid() && Arrived(c, Op.Execute, actor, id, begun)
      modifies this
      ensures Valid() && (NoneBy(old(st.effects), c) ==> NoneBy(st.effects, c))
      ensures Checked(c, Op.Execute, actor, id, begun, got, r)
      ensures r == Some(WindowClosed) && reply != NotApplied ==> id in st.rows ==> st.rows[id].status != Proposed
    {
      var found := ReadAction(c, Op.Execute, actor, id, begun, others(0), got.row);
      if found.None? || found.value.owner != actor.id { return Some(NotFound); }
      var action := found.value;
      if action.status != Proposed { return Some(NotPending); }
      var closed := CheckWindow(c, Op.Execute, actor, id, action, others(1), others(2), reply);
      if closed { return Some(WindowClosed); }
      if action.kind !in defs { return Some(Unknown); }
      if action.risk != Safe { return Some(NeedsApproval); }
      if !Can(actor.isSuper, actor.perms, defs[action.kind].permission) { return Some(NotPermitted); }
      return None;
    }

    method Execute(c: CallId, actor: Actor, id: ActionId, ghost begun: nat, others: Others, got: Reads, reply: Reply,
                   works: bool, written: bool)
      returns (r: Answer)
      requires Valid() && NoneBy(st.effects, c) && Arrived(c, Op.Execute, actor, id, begun)
      modifies this
      ensures Valid() && Concluded(c, Op.Execute, actor, id, begun, got, reply, Answer.Ran(works), r)
      ensures r.Ran? <==> !NoneBy(st.effects, c)
      ensures r.Ran? && written && id in st.rows ==> st.rows[id].status == if works then Executed else Failed
      ensures r == WindowClosed && reply != NotApplied && id in st.rows ==> st.rows[id].status != Proposed
    {
      var stop := ExecuteChecks(c, actor, id, begun, others, got, reply);
      if stop.Some? { return stop.value; }
      ghost var seen, at := past, st.calls[c].at;
      r := ClaimAndRun(c, others(3), others(4), reply, works, written);
      VerdictSteady(defs, seen, past, got, Op.Execute, actor, id, at, |seen|);
    }

    /** RequestApproval up to its update. */
    method RequestChecks(c: CallId, actor: Actor, id: ActionId, ghost begun: nat, others: Others, got: Reads,
                         reply: Reply)
      returns (r: Option<Answer>)
      requires Valid() && Arrived(c, Op.RequestApproval, actor, id, begun)
      modifies this
      ensures Valid() && (NoneBy(old(st.effects), c) ==> NoneBy(st.effects, c))
      ensures Checked(c, Op.RequestApproval, actor, id, begun, got, r)
      ensures r == Some(WindowClosed) && reply != NotApplied ==> id in st.rows ==> st.rows[id].status != Proposed
    {
      var found := ReadAction(c, Op.RequestApproval, actor, id, begun, others(0), got.row);
      if found.None? || found.value.owner != actor.id { return Some(NotFound); }
      var action := found.value;
      if action.status != Proposed { return Some(NotPending); }
      var closed := CheckWindow(c, Op.RequestApproval, actor, id, action, others(1), others(2), reply);
      if closed { return Some(WindowClosed); }
      if action.kind !in defs { return Some(Unknown); }
      if action.risk == Safe { return Some(NoApprovalNeeded); }
      if !Can(actor.isSuper, actor.perms, defs[action.kind].permission) { return Some(NotPermitted); }
      return None;
    }

    /** The owner hands a risky action to a second person.  Nothing runs here. */
    method RequestApproval(c: CallId, actor: Actor, id: ActionId, ghost begun: nat, others: Others, got: Reads,
                           reply: Reply)
      returns (r: Answer)
      requires Valid() && NoneBy(st.effects, c) && Arrived(c, Op.RequestApproval, actor, id, begun)
      modifies this
      ensures Valid() && NoneBy(st.effects, c) && !r.Ran?
      ensures Concluded(c, Op.RequestApproval, actor, id, begun, got, reply, Sent, r)
      ensures r.Sent? ==> id in st.rows && st.rows[id].status == PendingApproval && st.rows[id].owner == actor.id
      ensures r == WindowClosed && reply != NotApplied && id in st.rows ==> st.rows[id].status != Proposed
    {
      var stop := RequestChecks(c, actor, id, begun, others, got, reply);
      if stop.Some? { return stop.value; }
      SenderOwns(defs, first, trace, past, st, c);
      r := Conclude(c, Op.RequestApproval, actor, id, begun, got, reply, Sent);
    }

    /** Approve up to its claim: its own checks, then the requester's account and permissions as they are
        now.  A requester who fails them fails the action. */
    method ApproveChecks(c: CallId, actor: Actor, id: ActionId, ghost begun: nat, others: Others, got: Reads,
                         reply: Reply)
      returns (r: Option<Answer>)
      requires Valid() && Arrived(c, Op.Approve, actor, id, begun)
      modifies this
      ensures Valid() && (NoneBy(old(st.effects), c) ==> NoneBy(st.effects, c))
      ensures Checked(c, Op.Approve, actor, id, begun, got, r)
      ensures r == Some(RequesterRefused) && reply != NotApplied ==> id in st.rows ==>
                st.rows[id].status != PendingApproval
    {
      var found := ReadAction(c, Op.Approve, actor, id, begun, others(0), got.row);
      if found.None? { return Some(NotFound); }
      var action := found.value;
      if action.status != PendingApproval { return Some(NotPending); }
      if actor.id == action.owner { return Some(SelfApproval); }
      r := VetAction(c, actor, id, action, others, got, reply);
    }

    /** Deadline, kind and requester of a pending action of somebody else's. */
    method VetAction(c: CallId, actor: Actor, id: ActionId, action: Row, others: Others, got: Reads, reply: Reply)
      returns (r: Option<Answer>)
      requires Valid() && InPhase(c, Op.Approve, actor, id, Fetched(action)) && Within(st.calls[c].at, |past|)
      requires action.status == PendingApproval && actor.id != action.owner
      modifies this
      ensures Valid() && old(past) <= past && (NoneBy(old(st.effects), c) ==> NoneBy(st.effects, c))
      ensures c in st.calls && Within(st.calls[c].at, |past|) && |old(past)| <= st.calls[c].at.clock
      ensures var t, t0 := st.calls[c].at, old(st.calls)[c].at;
              t.begun == t0.begun && t.read == t0.read
              && r == if past[t.clock].now > action.expires then Some(WindowClosed)
                      else if action.kind !in defs then Some(Unknown)
                      else if RequesterStands(defs, got, action, past[t.account], past[t.perms]) then None
                      else Some(RequesterRefused)
      ensures st.calls[c].op == Op.Approve && st.calls[c].actor == actor && st.calls[c].id == id
      ensures r.None? ==> st.calls[c].phase.Cleared?
      ensures r == Some(RequesterRefused) && reply != NotApplied ==> id in st.rows ==>
                st.rows[id].status != PendingApproval
    {
      var open := CheckDeadline(c, actor, id, action, others(1), others(2));
      if !open { return Some(WindowClosed); }
      if action.kind !in defs { return Some(Unknown); }
      r := VetRequester(c, actor, id, action, others(3), others(4), got, reply);
    }

    method CheckDeadline(c: CallId, actor: Actor, id: ActionId, action: Row, before: seq<Event>, after: seq<Event>)
      returns (open: bool)
      requires Valid() && InPhase(c, Op.Approve, actor, id, Fetched(action)) && Within(st.calls[c].at, |past|)
      modifies this
      ensures Valid() && old(past) <= past && (NoneBy(old(st.effects), c) ==> NoneBy(st.effects, c))
      ensures c in st.calls && Within(st.calls[c].at, |past|) && |old(past)| <= st.calls[c].at.clock
      ensures st.calls[c].at == old(st.calls)[c].at.(clock := st.calls[c].at.clock)
      ensures open <==> past[st.calls[c].at.clock].now <= action.expires
      ensures InPhase(c, Op.Approve, actor, id, JudgePhase(defs, Op.Approve, actor, action, past[st.calls[c].at.clock].now))
    {
      LetOthersRun(c, before);
      var now := Clock(c, Op.Approve, actor, id, action);
      LetOthersRun(c, after);
      open := now <= action.expires;
    }

    method VetRequester(c: CallId, actor: Actor, id: ActionId, action: Row, between: seq<Event>, after: seq<Event>,
                        got: Reads, reply: Reply)
      returns (r: Option<Answer>)
      requires Valid() && InPhase(c, Op.Approve, actor, id, Vetting(action)) && action.kind in defs
      requires Within(st.calls[c].at, |past|)
      modifies this
      ensures Valid() && (NoneBy(old(st.effects), c) ==> NoneBy(st.effects, c))
      ensures old(past) <= past && c in st.calls && Within(st.calls[c].at, |past|)
      ensures var t, t0 := st.calls[c].at, old(st.calls)[c].at;
              t.begun == t0.begun && t.read == t0.read && t.clock == t0.clock
              && r == if RequesterStands(defs, got, action, past[t.account], past[t.perms]) then None else Some(RequesterRefused)
      ensures st.calls[c].op == Op.Approve && st.calls[c].actor == actor && st.calls[c].id == id
      ensures r.None? ==> st.calls[c].phase == Cleared(action)
      ensures r.Some? && reply != NotApplied ==> id in st.rows ==> st.rows[id].status != PendingApproval
    {
      var u := GetRequester(c, actor, id, action, got.account);
      LetOthersRun(c, between);
      if u.None? || u.value.disabled {
        var _, _ := Update(c, reply);
        return Some(RequesterRefused);
      }
      var ok := VetPermissions(c, actor, id, action, u.value.isSuper, after, got, reply);
      return if ok then None else Some(RequesterRefused);
    }

    method VetPermissions(c: CallId, actor: Actor, id: ActionId, action: Row, isSuper: bool, after: seq<Event>,
                          got: Reads, reply: Reply)
      returns (ok: bool)
      requires Valid() && InPhase(c, Op.Approve, actor, id, Account(action, isSuper)) && action.kind in defs
      requires Within(st.calls[c].at, |past|)
      modifies this
      ensures Valid() && old(past) <= past && (NoneBy(old(st.effects), c) ==> NoneBy(st.effects, c))
      ensures c in st.calls && Within(st.calls[c].at, |past|)
      ensures st.calls[c].at == old(st.calls)[c].at.(perms := st.calls[c].at.perms, claim := st.calls[c].at.claim)
      ensures ok <==>
                Can(isSuper, if got.perms then PermsOf(past[st.calls[c].at.perms], action.owner) else {}, defs[action.kind].permission)
      ensures InPhase(c, Op.Approve, actor, id, if ok then Cleared(action) else Closed)
      ensures !ok && reply != NotApplied && id in st.rows ==> st.rows[id].status != PendingApproval
    {
      var perms := UserPermissions(c, actor, id, action, isSuper, got.perms);
      LetOthersRun(c, after);
      ok := Can(isSuper, perms, defs[action.kind].permission);
      if !ok { var _, _ := Update(c, reply); }
    }

    method Approve(c: CallId, actor: Actor, id: ActionId, ghost begun: nat, others: Others, got: Reads, reply: Reply,
                   works: bool, written: bool)
      returns (r: Answer)
      requires Valid() && NoneBy(st.effects, c) && Arrived(c, Op.Approve, actor, id, begun)
      modifies this
      ensures Valid() && Concluded(c, Op.Approve, actor, id, begun, got, reply, Answer.Ran(works), r)
      ensures r.Ran? <==> !NoneBy(st.effects, c)
      ensures r.Ran? && written && id in st.rows ==> st.rows[id].status == if works then Executed else Failed
      ensures r == RequesterRefused && reply != NotApplied && id in st.rows ==> st.rows[id].status != PendingApproval
    {
      var stop := ApproveChecks(c, actor, id, begun, others, got, reply);
      if stop.Some? { return stop.value; }
      ghost var seen, at := past, st.calls[c].at;
      r := ClaimAndRun(c, others(5), others(6), reply, works, written);
      VerdictSteady(defs, seen, past, got, Op.Approve, actor, id, at, |seen|);
    }

    /** Deny up to its update. */
    method DenyChecks(c: CallId, actor: Actor, id: ActionId, ghost begun: nat, others: Others, got: Reads)
      returns (r: Option<Answer>)
      requires Valid() && Arrived(c, Op.Deny, actor, id, begun)
      modifies this
      ensures Valid() && (NoneBy(old(st.effects), c) ==> NoneBy(st.effects, c))
      ensures Checked(c, Op.Deny, actor, id, begun, got, r)
    {
      var found := ReadAction(c, Op.Deny, actor, id, begun, others(0), got.row);
      if found.None? { return Some(NotFound); }
      var action := found.value;
      if action.status != PendingApproval { return Some(NotPending); }
      if actor.id == action.owner { return Some(SelfApproval); }
      var _ := Clock(c, Op.Deny, actor, id, action);
      LetOthersRun(c, others(1));
      return None;
    }

    /** A second person turns a pending action down. */
    method Deny(c: CallId, actor: Actor, id: ActionId, ghost begun: nat, others: Others, got: Reads, reply: Reply)
      returns (r: Answer)
      requires Valid() && NoneBy(st.effects, c) && Arrived(c, Op.Deny, actor, id, begun)
      modifies this
      ensures Valid() && NoneBy(st.effects, c) && !r.Ran?
      ensures Concluded(c, Op.Deny, actor, id, begun, got, reply, Decided, r)
      ensures r.Decided? ==> id in st.rows && st.rows[id].status == Denied && st.rows[id].decidedBy == Some(actor.id)
    {
      var stop := DenyChecks(c, actor, id, begun, others, got);
      if stop.Some? { return stop.value; }
      r := Conclude(c, Op.Deny, actor, id, begun, got, reply, Decided);
    }

    /** Cancel up to its update. */
    method CancelChecks(c: CallId, actor: Actor, id: ActionId, ghost begun: nat, others: Others, got: Reads)
      returns (r: Option<Answer>)
      requires Valid() && Arrived(c, Op.Cancel, actor, id, begun)
      modifies this
      ensures Valid() && (NoneBy(old(st.effects), c) ==> NoneBy(st.effects, c))
      ensures Checked(c, Op.Cancel, actor, id, begun, got, r)
    {
      var found := ReadAction(c, Op.Cancel, actor, id, begun, others(0), got.row);
      if found.None? || found.value.owner != actor.id { return Some(NotFound); }
      var _ := Clock(c, Op.Cancel, actor, id, found.value);
      LetOthersRun(c, others(1));
      return None;
    }

    /** The owner withdraws a proposal. */
    method Cancel(c: CallId, actor: Actor, id: ActionId, ghost begun: nat, others: Others, got: Reads, reply: Reply)
      returns (r: Answer)
      requires Valid() && NoneBy(st.effects, c) && Arrived(c, Op.Cancel, actor, id, begun)
      modifies this
      ensures Valid() && NoneBy(st.effects, c) && !r.Ran?
      ensures Concluded(c, Op.Cancel, actor, id, begun, got, reply, Decided, r)
      ensures r.Decided? ==> id in st.rows && st.rows[id].status == Cancelled
    {
      var stop := CancelChecks(c, actor, id, begun, others, got);
      if stop.Some? { return stop.value; }
      r := Conclude(c, Op.Cancel, actor, id, begun, got, reply, Decided);
    }

    /** A request as it is served: the caller is authenticated, then the operation runs. */
    method Serve(c: CallId, op: Op, uid: UserId, id: ActionId, others: Others, got: Reads, reply: Reply, works: bool,
                 written: bool)
      returns (r: Answer)
      requires Valid() && c !in st.calls && NoneBy(st.effects, c)
      modifies this
      ensures Valid() && (r.Ran? <==> !NoneBy(st.effects, c))
      ensures Snapshot(old(st), uid).None? ==> r == Unauthenticated && st == old(st)
      ensures Snapshot(old(st), uid).Some? ==>
                Concluded(c, op, Snapshot(old(st), uid).value, id, old(st.step), got, reply, Done(op, works), r)
    {
      ghost var begun := st.step;
      var who := Authenticate(c, op, uid, id);
      if who.None? { return Unauthenticated; }
      var actor := who.value;
      match op
      case Execute => r := Execute(c, actor, id, begun, others, got, reply, works, written);
      case RequestApproval => r := RequestApproval(c, actor, id, begun, others, got, reply);
      case Approve => r := Approve(c, actor, id, begun, others, got, reply, works, written);
      case Deny => r := Deny(c, actor, id, begun, others, got, reply);
      case Cancel => r := Cancel(c, actor, id, begun, others, got, reply);
    }
  }

  /** Only a call's own step adds an effect in its name, and effects are never taken away. */
  lemma EffectsByOthers(defs: Defs, s: State, e: Event, c: CallId)
    requires !OfCall(e, c)
    ensures var s' := Apply(defs, s, e);
            s.effects <= s'.effects && (NoneBy(s.effects, c) ==> NoneBy(s'.effects, c))
  {
  }

  /** Whatever mix of calls and other events a registry has seen, no action's effect has run twice. */
  lemma RegistryRunsOnce(r: Registry, id: ActionId)
    requires r.Valid()
    ensures RunsOf(r.st.effects, id) <= 1
  {
    FollowsIsRun(r.defs, r.first, r.trace, r.past, r.st);
    EffectRunsAtMostOnce(r.defs, r.first, r.trace, id);
  }
}
