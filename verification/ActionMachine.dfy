/** The assistant's action registry as a machine of atomic steps.

    Every registry call (Execute, RequestApproval, Approve, Deny, Cancel) is cut at each
    place where it touches the store or the clock.  An `Event` is one such cut taken by
    one in-flight call, or something else that can happen in between: time passing, an
    account or its permissions changing, an account being deleted together with its
    actions, the expiry reaper, a new proposal.  An event that is not possible in a
    state leaves it alone, so every sequence of events is a run and a statement about
    all runs is a statement about all event sequences. */
module ActionMachine {
  import opened Wrappers

  type UserId = nat
  type ActionId = nat
  type CallId = nat

  datatype Status = Proposed | PendingApproval | Executed | Failed | Denied | Expired | Cancelled
  datatype Risk = Safe | Guarded | Destructive
  datatype ActionDef = ActionDef(permission: string, risk: Risk)
  type Defs = map<string, ActionDef>

  datatype User = User(isSuper: bool, disabled: bool, perms: set<string>)
  datatype Row = Row(owner: UserId, kind: string, risk: Risk, status: Status, expires: nat, decidedBy: Option<UserId>)

  /** The authenticated caller: a snapshot of the account taken when the request arrived. */
  datatype Actor = Actor(id: UserId, isSuper: bool, perms: set<string>)

  const PROPOSAL_WINDOW: nat := 15 * 60
  const APPROVAL_WINDOW: nat := 24 * 60 * 60

  predicate Can(isSuper: bool, perms: set<string>, permission: string) {
    isSuper || "Admin.All" in perms || permission in perms
  }

  datatype Op = Execute | RequestApproval | Approve | Deny | Cancel

  /** How far a call has come.  `row` is the action as the call read it. */
  datatype Phase =
    | Entered                                  // authenticated, row not yet read
    | Fetched(row: Row)                        // row read, nothing checked
    | Vetting(row: Row)                        // Approve: own checks passed, requester not yet read
    | Account(row: Row, requesterSuper: bool)  // Approve: requester exists and is enabled
    | Cleared(row: Row)                        // every check passed, the row is not yet claimed
    | Lapsed                                   // window closed: about to void the proposal
    | Refused                                  // requester check failed: about to record that
    | Claimed(row: Row)                        // this call owns the row, effect not yet run
    | Ran(row: Row, ok: bool)                  // effect run, outcome not yet recorded
    | Closed

  /** When a call did what, as positions in the run. */
  datatype Times = Times(begun: nat, read: nat, clock: nat, account: nat, perms: nat, claim: nat)

  datatype Call = Call(op: Op, actor: Actor, id: ActionId, phase: Phase, at: Times)

  /** One run of an action's effect: what was run, through which operation, by whom, and as whom. */
  datatype Effect = Effect(call: CallId, id: ActionId, row: Row, op: Op, actor: Actor, runsAs: UserId, at: Times)

  datatype State = State(
    rows: map<ActionId, Row>, users: map<UserId, User>, now: nat,
    calls: map<CallId, Call>, effects: seq<Effect>,
    issued: set<ActionId>,   // every action id ever handed out
    step: nat)               // number of events so far

  predicate Initial(s: State) {
    s.rows == map[] && s.calls == map[] && s.effects == [] && s.issued == {} && s.step == 0
  }

  /** What a conditional update told its caller: it worked, the reply was lost after the
      update was applied, or it failed and nothing was applied. */
  datatype Reply = Acked | LostReply | NotApplied

  datatype Event =
    | Tick(seconds: nat)
    | SetUser(uid: UserId, user: User)
    | DeleteUser(uid: UserId)
    | Reap
    | Propose(uid: UserId, id: ActionId, kind: string, approvalForAll: bool, disabled: bool, prepared: bool)
    | Begin(call: CallId, op: Op, uid: UserId, id: ActionId)
    | Fetch(call: CallId, readable: bool)
    | Judge(call: CallId)
    | LoadAccount(call: CallId, readable: bool)
    | LoadPermissions(call: CallId, readable: bool)
    | Write(call: CallId, reply: Reply)
    | RunEffect(call: CallId, ok: bool)
    | Finish(call: CallId, written: bool)
    | Abandon(call: CallId)

  // ----- the store's conditional updates -----

  function SetStatus(rows: map<ActionId, Row>, id: ActionId, to: Status): map<ActionId, Row> {
    if id in rows && rows[id].status == Proposed then rows[id := rows[id].(status := to)] else rows
  }

  function SetDecision(rows: map<ActionId, Row>, id: ActionId, to: Status, decider: UserId): map<ActionId, Row> {
    if id in rows && rows[id].status == PendingApproval
    then rows[id := rows[id].(status := to, decidedBy := Some(decider))] else rows
  }

  function SendToApproval(rows: map<ActionId, Row>, id: ActionId, now: nat): map<ActionId, Row> {
    if id in rows && rows[id].status == Proposed
    then rows[id := rows[id].(status := PendingApproval, expires := now + APPROVAL_WINDOW)] else rows
  }

  function FinishRow(rows: map<ActionId, Row>, id: ActionId, to: Status): map<ActionId, Row> {
    if id in rows then rows[id := rows[id].(status := to)] else rows
  }

  function ExpireRows(rows: map<ActionId, Row>, now: nat): map<ActionId, Row> {
    map id | id in rows ::
      if (rows[id].status == Proposed || rows[id].status == PendingApproval) && rows[id].expires < now
      then rows[id].(status := Expired) else rows[id]
  }

  function DropOwned(rows: map<ActionId, Row>, uid: UserId): map<ActionId, Row> {
    map id | id in rows && rows[id].owner != uid :: rows[id]
  }

  // ----- the checks a call makes on the row it read -----

  function JudgePhase(defs: Defs, op: Op, actor: Actor, row: Row, now: nat): Phase {
    match op
    case Execute =>
      if row.owner != actor.id || row.status != Proposed then Closed
      else if now > row.expires then Lapsed
      else if row.kind !in defs || row.risk != Safe then Closed
      else if !Can(actor.isSuper, actor.perms, defs[row.kind].permission) then Closed
      else Cleared(row)
    case RequestApproval =>
      if row.owner != actor.id || row.status != Proposed then Closed
      else if now > row.expires then Lapsed
      else if row.kind !in defs || row.risk == Safe then Closed
      else if !Can(actor.isSuper, actor.perms, defs[row.kind].permission) then Closed
      else Cleared(row)
    case Approve =>
      if row.status != PendingApproval || actor.id == row.owner then Closed
      else if now > row.expires || row.kind !in defs then Closed
      else Vetting(row)
    case Deny =>
      if row.status != PendingApproval || actor.id == row.owner then Closed else Cleared(row)
    case Cancel =>
      if row.owner != actor.id then Closed else Cleared(row)
  }

  /** The conditional update a call issues in its present phase. */
  function WriteRows(s: State, call: Call): map<ActionId, Row> {
    match call.phase
    case Lapsed => SetStatus(s.rows, call.id, Expired)
    case Refused => SetDecision(s.rows, call.id, Failed, call.actor.id)
    case Cleared(_) => (
      match call.op
      case Execute => SetStatus(s.rows, call.id, Executed)
      case RequestApproval => SendToApproval(s.rows, call.id, s.now)
      case Approve => SetDecision(s.rows, call.id, Executed, call.actor.id)
      case Deny => SetDecision(s.rows, call.id, Denied, call.actor.id)
      case Cancel => SetStatus(s.rows, call.id, Cancelled))
    case _ => s.rows
  }

  /** Execute and Approve go on to run the effect exactly when they learn that their own
      update took the row. */
  function WritePhase(s: State, call: Call, reply: Reply): Phase {
    if call.phase.Cleared? && (call.op == Execute || call.op == Approve) && reply == Acked
       && WriteRows(s, call) != s.rows
    then Claimed(call.phase.row) else Closed
  }

  // ----- one function per kind of step -----

  function Put(s: State, c: CallId, call: Call): State { s.(calls := s.calls[c := call]) }

  function ProposeStep(defs: Defs, s: State, uid: UserId, id: ActionId, kind: string,
                       approvalForAll: bool, disabled: bool, prepared: bool): State
  {
    if id !in s.issued && kind in defs && !disabled && prepared && uid in s.users
       && Can(s.users[uid].isSuper, s.users[uid].perms, defs[kind].permission)
    then
      var risk := if approvalForAll && defs[kind].risk == Safe then Guarded else defs[kind].risk;
      s.(rows := s.rows[id := Row(uid, kind, risk, Proposed, s.now + PROPOSAL_WINDOW, None)],
         issued := s.issued + {id})
    else s
  }

  function BeginStep(s: State, c: CallId, op: Op, uid: UserId, id: ActionId): State {
    if c !in s.calls && uid in s.users && !s.users[uid].disabled then
      var u := s.users[uid];
      Put(s, c, Call(op, Actor(uid, u.isSuper, u.perms), id, Entered, Times(s.step, 0, 0, 0, 0, 0)))
    else s
  }

  /** A row that cannot be read is reported as not found. */
  function FetchStep(s: State, c: CallId, readable: bool): State {
    if c in s.calls && s.calls[c].phase.Entered? then
      var k := s.calls[c];
      Put(s, c, k.(phase := if readable && k.id in s.rows then Fetched(s.rows[k.id]) else Closed,
                   at := k.at.(read := s.step)))
    else s
  }

  function JudgeStep(defs: Defs, s: State, c: CallId): State {
    if c in s.calls && s.calls[c].phase.Fetched? then
      var k := s.calls[c];
      Put(s, c, k.(phase := JudgePhase(defs, k.op, k.actor, k.phase.row, s.now), at := k.at.(clock := s.step)))
    else s
  }

  /** An account that cannot be read is treated as one that does not exist. */
  function LoadAccountStep(s: State, c: CallId, readable: bool): State {
    if c in s.calls && s.calls[c].phase.Vetting? then
      var k := s.calls[c];
      var owner := k.phase.row.owner;
      Put(s, c, k.(phase := if readable && owner in s.users && !s.users[owner].disabled
                            then Account(k.phase.row, s.users[owner].isSuper) else Refused,
                   at := k.at.(account := s.step)))
    else s
  }

  function PermsOf(s: State, uid: UserId): set<string> {
    if uid in s.users then s.users[uid].perms else {}
  }

  /** Permissions that cannot be read count as none. */
  function LoadPermissionsStep(defs: Defs, s: State, c: CallId, readable: bool): State {
    if c in s.calls && s.calls[c].phase.Account? then
      var k := s.calls[c];
      var row := k.phase.row;
      var ok := row.kind in defs
                && Can(k.phase.requesterSuper, if readable then PermsOf(s, row.owner) else {}, defs[row.kind].permission);
      Put(s, c, k.(phase := if ok then Cleared(row) else Refused, at := k.at.(perms := s.step)))
    else s
  }

  function WriteStep(s: State, c: CallId, reply: Reply): State {
    if c in s.calls && (s.calls[c].phase.Cleared? || s.calls[c].phase.Lapsed? || s.calls[c].phase.Refused?) then
      var k := s.calls[c];
      var k' := k.(phase := WritePhase(s, k, reply), at := k.at.(claim := s.step));
      Put(s.(rows := if reply == NotApplied then s.rows else WriteRows(s, k)), c, k')
    else s
  }

  /** Execute runs the effect as its caller, Approve as the requester. */
  function RunsAs(call: Call): UserId
    requires call.phase.Claimed?
  {
    if call.op == Approve then call.phase.row.owner else call.actor.id
  }

  function RunEffectStep(s: State, c: CallId, ok: bool): State {
    if c in s.calls && s.calls[c].phase.Claimed? then
      var k := s.calls[c];
      Put(s.(effects := s.effects + [Effect(c, k.id, k.phase.row, k.op, k.actor, RunsAs(k), k.at)]),
          c, k.(phase := Ran(k.phase.row, ok)))
    else s
  }

  function FinishStep(s: State, c: CallId, written: bool): State {
    if c in s.calls && s.calls[c].phase.Ran? then
      var k := s.calls[c];
      Put(s.(rows := if written then FinishRow(s.rows, k.id, if k.phase.ok then Executed else Failed) else s.rows),
          c, k.(phase := Closed))
    else s
  }

  function AbandonStep(s: State, c: CallId): State {
    if c in s.calls then Put(s, c, s.calls[c].(phase := Closed)) else s
  }

  function Effectuate(defs: Defs, s: State, e: Event): State {
    match e
    case Tick(dt) => s.(now := s.now + dt)
    case SetUser(uid, u) => s.(users := s.users[uid := u])
    case DeleteUser(uid) => s.(users := s.users - {uid}, rows := DropOwned(s.rows, uid))
    case Reap => s.(rows := ExpireRows(s.rows, s.now))
    case Propose(uid, id, kind, all, disabled, prepared) => ProposeStep(defs, s, uid, id, kind, all, disabled, prepared)
    case Begin(c, op, uid, id) => BeginStep(s, c, op, uid, id)
    case Fetch(c, ok) => FetchStep(s, c, ok)
    case Judge(c) => JudgeStep(defs, s, c)
    case LoadAccount(c, ok) => LoadAccountStep(s, c, ok)
    case LoadPermissions(c, ok) => LoadPermissionsStep(defs, s, c, ok)
    case Write(c, reply) => WriteStep(s, c, reply)
    case RunEffect(c, ok) => RunEffectStep(s, c, ok)
    case Finish(c, written) => FinishStep(s, c, written)
    case Abandon(c) => AbandonStep(s, c)
  }

  function Apply(defs: Defs, s: State, e: Event): State {
    Effectuate(defs, s, e).(step := s.step + 1)
  }

  function Run(defs: Defs, s: State, es: seq<Event>): State
    decreases |es|
  {
    if es == [] then s else Apply(defs, Run(defs, s, es[..|es| - 1]), es[|es| - 1])
  }
}
