/** The circle of one node: its route of steps, the ledger of their executions and the bids on them.
    Every act is one transaction; a refused act changes nothing. */
module Circle {
  import opened Wrappers
  import opened Forest

  type StepId = nat
  type ActorId = nat
  type ExecId = nat

  datatype StepKind = Human | Api | Script | Module

  /** `Started` is the stored status "active". */
  datatype StepStatus = Pending | Ready | Assigned | Started | Completed | Failed

  datatype Mode = Inherit | Simple | Exchange

  /** `selectedBid` names the bid by its actor: a step has one bid per actor. */
  datatype WorkStep = WorkStep(
    position: nat,
    kind: StepKind,
    status: StepStatus,
    claimedBy: Option<ActorId>,
    selectedBid: Option<ActorId>,
    mode: Mode,
    requirements: set<nat>)

  datatype ExecStatus = Running | Succeeded | Returned | Superseded | Broken | Cancelled | TimedOut

  datatype Execution = Execution(
    step: StepId,
    attempt: nat,
    status: ExecStatus,
    startedBy: ActorId,
    bid: Option<ActorId>,
    promise: Option<nat>,
    startedAt: int,
    finishedAt: Option<int>)

  /** `Offered` is the stored status "active". */
  datatype BidStatus = Offered | Withdrawn | Won | Lost

  datatype Bid = Bid(promise: nat, status: BidStatus, submittedAt: int)

  type Steps = map<StepId, WorkStep>
  type Ledger = map<ExecId, Execution>
  type Bids = map<(StepId, ActorId), Bid>

  datatype Circle = Circle(live: bool, lifecycle: Lifecycle, steps: Steps, ledger: Ledger, bids: Bids)

  /** When the constraint that positions of a node are distinct is checked. The table declares it so that every row is
      checked as it is written, in the order the update visits the rows; deferred, only the outcome would count. */
  datatype Check = Immediate(order: seq<StepId>) | Deferred

  datatype Act =
    | AddStep(id: StepId, kind: StepKind, mode: Mode, requirements: set<nat>)
    | EditStep(id: StepId, newMode: Option<Mode>, requirements: set<nat>)
    | MoveStep(id: StepId, later: bool, check: Check)
    | DeleteStep(id: StepId, check: Check)
    | PutBid(id: StepId, actor: ActorId, minutes: nat, skills: set<nat>, policy: Mode, now: int)
    | WithdrawBid(id: StepId, actor: ActorId)
    | SelectBid(id: StepId, requester: bool, policy: Mode)
    | Claim(actor: ActorId, skills: set<nat>, policy: Mode, exec: ExecId, now: int)
    | Submit(actor: ActorId, now: int)
    | Close(requester: bool, openBelow: bool)
    | Return(requester: bool, id: StepId, now: int)
    | ReopenTask(requester: bool, now: int)
    | RetryStep(requester: bool)
    | Cancel(requester: bool, now: int)
    | Lease(kind: StepKind, allowed: bool, exec: ExecId, actor: ActorId, now: int)
    | Complete(exec: ExecId, result: ExecStatus, now: int)
    | SetLive(live: bool) // the node is removed or restored with its branch

  const MAX_PROMISE := 525600

  // ----- queries -----

  ghost function MaxOf(s: set<nat>): (m: nat)
    ensures s == {} ==> m == 0
    ensures s != {} ==> m in s
    ensures forall x :: x in s ==> x <= m
  {
    if s == {} then 0
    else
      var x :| x in s;
      var rest := MaxOf(s - {x});
      assert forall y :: y in s ==> y == x || y in s - {x};
      if rest > x then rest else x
  }

  predicate IsFirst(steps: Steps, among: set<StepId>, s: StepId) {
    s in among && s in steps && forall t :: t in among && t in steps ==> steps[s].position <= steps[t].position
  }

  /** ORDER BY position LIMIT 1. */
  ghost function First(steps: Steps, among: set<StepId>): (first: Option<StepId>)
    ensures first.Some? ==> IsFirst(steps, among, first.value)
    ensures among * steps.Keys != {} ==> first.Some?
  {
    FirstExists(steps, among * steps.Keys);
    assert forall s :: IsFirst(steps, among * steps.Keys, s) ==> IsFirst(steps, among, s);
    if s :| IsFirst(steps, among, s) then Some(s) else None
  }

  lemma {:induction false} FirstExists(steps: Steps, among: set<StepId>)
    requires among <= steps.Keys
    ensures among == {} || exists s :: IsFirst(steps, among, s)
  {
    if among != {} {
      var x :| x in among;
      FirstExists(steps, among - {x});
      if among - {x} == {} {
        assert among == {x};
        assert IsFirst(steps, among, x);
      } else {
        var y :| IsFirst(steps, among - {x}, y);
        assert forall t :: t in among ==> t == x || t in among - {x};
        assert IsFirst(steps, among, if steps[x].position <= steps[y].position then x else y);
      }
    }
  }

  predicate IsLast(steps: Steps, s: StepId) {
    s in steps && forall t :: t in steps ==> steps[t].position <= steps[s].position
  }

  function With(steps: Steps, status: StepStatus): set<StepId> {
    set s | s in steps && steps[s].status == status
  }

  function Claimable(steps: Steps): set<StepId> {
    With(steps, Ready) + With(steps, Assigned)
  }

  function HeldBy(steps: Steps, actor: ActorId): set<StepId> {
    set s | s in With(steps, Started) && s in steps && steps[s].claimedBy == Some(actor)
  }

  function ReadyOf(steps: Steps, kind: StepKind): set<StepId> {
    set s | s in With(steps, Ready) && s in steps && steps[s].kind == kind
  }

  function Automated(steps: Steps): set<StepId> {
    set s | s in steps && (steps[s].kind.Api? || steps[s].kind.Script?)
  }

  function Attempts(ledger: Ledger, s: StepId): set<nat> {
    set e | e in ledger && ledger[e].step == s :: ledger[e].attempt
  }

  predicate Runs(ledger: Ledger, e: ExecId, s: StepId) {
    e in ledger && ledger[e].step == s && ledger[e].status.Running?
  }

  function RunningOf(ledger: Ledger, s: StepId): set<ExecId> {
    set e | e in ledger && Runs(ledger, e, s)
  }

  ghost function RunningAutomated(c: Circle): set<StepId> {
    set s | s in With(c.steps, Started) * Automated(c.steps) && exists e :: Runs(c.ledger, e, s)
  }

  predicate Succeeds(ledger: Ledger, e: ExecId, s: StepId) {
    e in ledger && ledger[e].step == s && ledger[e].status.Succeeded?
  }

  function Effective(mode: Mode, policy: Mode): Mode {
    if mode.Inherit? then policy else mode
  }

  /** An actor may claim a ready step directly when it is distributed simply and states requirements the actor meets. */
  predicate MayClaim(st: WorkStep, actor: ActorId, skills: set<nat>, policy: Mode) {
    || (st.status.Assigned? && st.claimedBy == Some(actor))
    || (st.status.Ready? && Effective(st.mode, policy).Simple? && st.requirements != {} && st.requirements <= skills)
  }

  /** The promise of the selected bid, as the left join reads it. */
  function PromiseOf(c: Circle, s: StepId): Option<nat>
    requires s in c.steps
  {
    var w := c.steps[s].selectedBid;
    if w.Some? && (s, w.value) in c.bids then Some(c.bids[(s, w.value)].promise) else None
  }

  /** The shortest promise wins; then the earlier submission, then the smaller actor id. */
  predicate Beats(a: ActorId, x: Bid, b: ActorId, y: Bid) {
    || x.promise < y.promise
    || (x.promise == y.promise && (x.submittedAt < y.submittedAt || (x.submittedAt == y.submittedAt && a <= b)))
  }

  ghost predicate IsWinner(bids: Bids, s: StepId, a: ActorId) {
    && (s, a) in bids && bids[(s, a)].status.Offered?
    && forall b :: (s, b) in bids && bids[(s, b)].status.Offered? ==> Beats(a, bids[(s, a)], b, bids[(s, b)])
  }

  // ----- acts -----

  ghost function StartStep(c: Circle, s: StepId, actor: ActorId, exec: ExecId, bid: Option<ActorId>,
                           promise: Option<nat>, now: int): Circle
    requires s in c.steps
  {
    var row := Execution(s, MaxOf(Attempts(c.ledger, s)) + 1, Running, actor, bid, promise, now, None);
    c.(lifecycle := Active,
       steps := c.steps[s := c.steps[s].(status := Started, claimedBy := Some(actor))],
       ledger := c.ledger[exec := row])
  }

  ghost function ClaimStep(c: Circle, actor: ActorId, skills: set<nat>, policy: Mode, exec: ExecId,
                           now: int): Option<Circle>
  {
    var first := First(c.steps, Claimable(c.steps));
    if !c.live || !c.lifecycle.Planned? || first.None? || exec in c.ledger then None
    else if !MayClaim(c.steps[first.value], actor, skills, policy) then None
    else Some(StartStep(c, first.value, actor, exec, c.steps[first.value].selectedBid, PromiseOf(c, first.value), now))
  }

  ghost function LeaseStep(c: Circle, kind: StepKind, allowed: bool, exec: ExecId, actor: ActorId,
                           now: int): Option<Circle>
  {
    var first := First(c.steps, ReadyOf(c.steps, kind));
    if !c.live || !c.lifecycle.Planned? || !(kind.Api? || kind.Script?) || !allowed || first.None? ||
      exec in c.ledger then None
    else Some(StartStep(c, first.value, actor, exec, None, None, now))
  }

  /** The step is done: the first pending step becomes ready, or the node goes to review. */
  ghost function FinishStep(c: Circle, s: StepId, ledger: Ledger): Circle
    requires s in c.steps
  {
    var steps := c.steps[s := c.steps[s].(status := Completed)];
    var next := First(steps, With(steps, Pending));
    if next.None? then c.(lifecycle := Review, steps := steps, ledger := ledger)
    else c.(lifecycle := Planned, steps := steps[next.value := steps[next.value].(status := Ready)], ledger := ledger)
  }

  function Settle(ledger: Ledger, s: StepId, status: ExecStatus, now: int): Ledger {
    map e | e in ledger :: if Runs(ledger, e, s) then ledger[e].(status := status, finishedAt := Some(now))
                           else ledger[e]
  }

  ghost function SubmitStep(c: Circle, actor: ActorId, now: int): Option<Circle> {
    var first := First(c.steps, HeldBy(c.steps, actor));
    if !c.live || !c.lifecycle.Active? || first.None? then None
    else if |RunningOf(c.ledger, first.value)| != 1 then None
    else Some(FinishStep(c, first.value, Settle(c.ledger, first.value, Succeeded, now)))
  }

  ghost function CompleteStep(c: Circle, exec: ExecId, result: ExecStatus, now: int): Option<Circle> {
    if exec !in c.ledger || !c.ledger[exec].status.Running? || !c.live ||
      !(result.Succeeded? || result.Broken? || result.TimedOut?) then None
    else
      var s := c.ledger[exec].step;
      var ledger := c.ledger[exec := c.ledger[exec].(status := result, finishedAt := Some(now))];
      if s !in c.steps then None
      else if result.Succeeded? then Some(FinishStep(c, s, ledger))
      else Some(c.(lifecycle := Blocked, steps := c.steps[s := c.steps[s].(status := Failed)], ledger := ledger))
  }

  ghost function CloseTask(c: Circle, requester: bool, openBelow: bool): Option<Circle> {
    if !c.live || !requester || !c.lifecycle.Review? || openBelow then None else Some(c.(lifecycle := Closed))
  }

  function Rewound(steps: Steps, from: nat): Steps {
    map s | s in steps ::
      if steps[s].position >= from then
        steps[s].(status := if steps[s].position == from then Ready else Pending, claimedBy := None)
      else steps[s]
  }

  function RewoundLedger(steps: Steps, ledger: Ledger, from: nat, returned: StepId, now: int): Ledger {
    map e | e in ledger ::
      if ledger[e].status.Succeeded? && ledger[e].step in steps && steps[ledger[e].step].position >= from then
        ledger[e].(status := if ledger[e].step == returned then Returned else Superseded,
                   finishedAt := if ledger[e].finishedAt.None? then Some(now) else ledger[e].finishedAt)
      else ledger[e]
  }

  ghost function ReturnStep(c: Circle, requester: bool, s: StepId, now: int): Option<Circle> {
    if !c.live || !requester || !c.lifecycle.Review? || s !in c.steps || !c.steps[s].status.Completed? then None
    else
      var from := c.steps[s].position;
      Some(c.(lifecycle := Planned, steps := Rewound(c.steps, from),
              ledger := RewoundLedger(c.steps, c.ledger, from, s, now)))
  }

  /** Takes back the success of one step. */
  function Retire(ledger: Ledger, s: StepId, now: int): Ledger {
    map e | e in ledger ::
      if Succeeds(ledger, e, s) then
        ledger[e].(status := Returned,
                   finishedAt := if ledger[e].finishedAt.None? then Some(now) else ledger[e].finishedAt)
      else ledger[e]
  }

  /** Only the last step is opened again. */
  ghost function Reopened(c: Circle, requester: bool, now: int): Option<Circle> {
    if !c.live || !requester || !c.lifecycle.Closed? then None
    else if s :| IsLast(c.steps, s) then
      Some(c.(lifecycle := Planned, steps := c.steps[s := c.steps[s].(status := Ready, claimedBy := None)],
              ledger := Retire(c.ledger, s, now)))
    else None
  }

  ghost function Retried(c: Circle, requester: bool): Option<Circle> {
    var first := First(c.steps, With(c.steps, Failed) * Automated(c.steps));
    if !c.live || !requester || !c.lifecycle.Blocked? || first.None? then None
    else
      var s := first.value;
      Some(c.(lifecycle := Planned, steps := c.steps[s := c.steps[s].(status := Ready, claimedBy := None)]))
  }

  ghost function CancelStep(c: Circle, requester: bool, now: int): Option<Circle> {
    var first := First(c.steps, RunningAutomated(c));
    if !c.live || !requester || !c.lifecycle.Active? || first.None? then None
    else
      var s := first.value;
      var e :| Runs(c.ledger, e, s);
      Some(c.(lifecycle := Blocked,
              steps := c.steps[s := c.steps[s].(status := Failed)],
              ledger := c.ledger[e := c.ledger[e].(status := Cancelled, finishedAt := Some(now))]))
  }

  function Positions(steps: Steps): set<nat> {
    set s | s in steps :: steps[s].position
  }

  ghost function AddedStep(c: Circle, id: StepId, kind: StepKind, mode: Mode, requirements: set<nat>): Option<Circle> {
    if !c.live || !c.lifecycle.Planned? || id in c.steps then None
    else
      var row := WorkStep(MaxOf(Positions(c.steps)) + 1, kind, if c.steps == map[] then Ready else Pending,
                          None, None, if kind.Human? then mode else Inherit, requirements);
      Some(c.(steps := c.steps[id := row]))
  }

  ghost function EditedStep(c: Circle, id: StepId, newMode: Option<Mode>, requirements: set<nat>): Option<Circle> {
    if !c.live || !c.lifecycle.Planned? || id !in c.steps then None
    else
      var st := c.steps[id];
      Some(c.(steps := c.steps[id := st.(mode := if newMode.None? then st.mode else newMode.value,
                                         requirements := if st.kind.Human? then requirements else st.requirements)]))
  }

  predicate Adjacent(steps: Steps, id: StepId, other: StepId, later: bool)
    requires id in steps
  {
    other in steps && steps[other].position == if later then steps[id].position + 1 else steps[id].position - 1
  }

  /** What an update of positions is meant to do: every row takes its target. */
  function Renumbered(steps: Steps, target: map<StepId, nat>): Steps {
    map s | s in steps :: if s in target then steps[s].(position := target[s]) else steps[s]
  }

  predicate Occupied(steps: Steps, p: nat, s: StepId) {
    exists t :: t in steps && t != s && steps[t].position == p
  }

  /** The rows one at a time: the statement fails as soon as a target is still stored in another row. */
  function WrittenInOrder(steps: Steps, order: seq<StepId>, target: map<StepId, nat>): Option<Steps>
    requires forall s :: s in order ==> s in steps && s in target
  {
    if order == [] then Some(steps)
    else
      var s := order[0];
      if Occupied(steps, target[s], s) then None
      else WrittenInOrder(steps[s := steps[s].(position := target[s])], order[1..], target)
  }

  /** Every row of the update, once. */
  predicate Visits(order: seq<StepId>, rows: set<StepId>) {
    (set s | s in order) == rows && forall i, j :: 0 <= i < j < |order| ==> order[i] != order[j]
  }

  function Rewritten(steps: Steps, target: map<StepId, nat>, check: Check): Option<Steps> {
    match check
    case Deferred => Some(Renumbered(steps, target))
    case Immediate(order) =>
      if Visits(order, target.Keys) && target.Keys <= steps.Keys then WrittenInOrder(steps, order, target) else None
  }

  function Exchanged(steps: Steps, id: StepId, other: StepId): map<StepId, nat>
    requires id in steps && other in steps
  {
    map[id := steps[other].position, other := steps[id].position]
  }

  /** Asks for the positions of two neighbours to be exchanged; at the end of the route nothing changes. */
  ghost function MovedStep(c: Circle, id: StepId, later: bool, check: Check): Option<Circle> {
    if !c.lifecycle.Planned? || id !in c.steps then None
    else if other :| Adjacent(c.steps, id, other, later) then
      match Rewritten(c.steps, Exchanged(c.steps, id, other), check)
      case None => None
      case Some(steps) => Some(c.(steps := steps))
    else Some(c)
  }

  /** The rows behind a gap, and where each moves up to. */
  function MovedUp(steps: Steps, gap: nat): map<StepId, nat> {
    map s | s in steps && steps[s].position > gap :: steps[s].position - 1
  }

  function LedgerWithout(ledger: Ledger, id: StepId): Ledger {
    map e | e in ledger && ledger[e].step != id :: ledger[e]
  }

  function BidsWithout(bids: Bids, id: StepId): Bids {
    map b | b in bids && b.0 != id :: bids[b]
  }

  /** Deleting a step deletes its executions and bids with it and closes the gap in the positions. */
  ghost function DeletedStep(c: Circle, id: StepId, check: Check): Option<Circle> {
    if !c.lifecycle.Planned? || id !in c.steps then None
    else
      var rest := c.steps - {id};
      match Rewritten(rest, MovedUp(rest, c.steps[id].position), check)
      case None => None
      case Some(steps) =>
        Some(c.(steps := steps,
                ledger := LedgerWithout(c.ledger, id),
                bids := BidsWithout(c.bids, id)))
  }

  ghost function BidPut(c: Circle, s: StepId, actor: ActorId, minutes: nat, skills: set<nat>, policy: Mode,
                        now: int): Option<Circle>
  {
    if !c.live || !(1 <= minutes <= MAX_PROMISE) || s !in c.steps then None
    else
      var st := c.steps[s];
      if !st.kind.Human? || !st.status.Ready? || st.claimedBy.Some? || !Effective(st.mode, policy).Exchange? ||
        !(st.requirements <= skills) then None
      else
        var submitted := if (s, actor) in c.bids then c.bids[(s, actor)].submittedAt else now;
        Some(c.(bids := c.bids[(s, actor) := Bid(minutes, Offered, submitted)]))
  }

  ghost function BidWithdrawn(c: Circle, s: StepId, actor: ActorId): Option<Circle> {
    if (s, actor) !in c.bids || !c.bids[(s, actor)].status.Offered? then None
    else Some(c.(bids := c.bids[(s, actor) := c.bids[(s, actor)].(status := Withdrawn)]))
  }

  function Decided(bids: Bids, s: StepId, winner: ActorId): Bids {
    map b | b in bids ::
      if b.0 == s && bids[b].status.Offered? then bids[b].(status := if b.1 == winner then Won else Lost) else bids[b]
  }

  ghost function BidSelected(c: Circle, s: StepId, requester: bool, policy: Mode): Option<Circle> {
    if s !in c.steps || !c.steps[s].kind.Human? || !c.steps[s].status.Ready? || c.steps[s].claimedBy.Some? then None
    else if !requester || !Effective(c.steps[s].mode, policy).Exchange? then None
    else if w :| IsWinner(c.bids, s, w) then
      Some(c.(steps := c.steps[s := c.steps[s].(status := Assigned, claimedBy := Some(w), selectedBid := Some(w))],
              bids := Decided(c.bids, s, w)))
    else None
  }

  ghost function Attempt(c: Circle, a: Act): Option<Circle> {
    match a
    case AddStep(id, kind, mode, requirements) => AddedStep(c, id, kind, mode, requirements)
    case EditStep(id, newMode, requirements) => EditedStep(c, id, newMode, requirements)
    case MoveStep(id, later, check) => MovedStep(c, id, later, check)
    case DeleteStep(id, check) => DeletedStep(c, id, check)
    case PutBid(id, actor, minutes, skills, policy, now) => BidPut(c, id, actor, minutes, skills, policy, now)
    case WithdrawBid(id, actor) => BidWithdrawn(c, id, actor)
    case SelectBid(id, requester, policy) => BidSelected(c, id, requester, policy)
    case Claim(actor, skills, policy, exec, now) => ClaimStep(c, actor, skills, policy, exec, now)
    case Submit(actor, now) => SubmitStep(c, actor, now)
    case Close(requester, openBelow) => CloseTask(c, requester, openBelow)
    case Return(requester, id, now) => ReturnStep(c, requester, id, now)
    case ReopenTask(requester, now) => Reopened(c, requester, now)
    case RetryStep(requester) => Retried(c, requester)
    case Cancel(requester, now) => CancelStep(c, requester, now)
    case Lease(kind, allowed, exec, actor, now) => LeaseStep(c, kind, allowed, exec, actor, now)
    case Complete(exec, result, now) => CompleteStep(c, exec, result, now)
    case SetLive(live) => if c.lifecycle.Planned? then Some(c.(live := live)) else None
  }

  ghost function After(c: Circle, a: Act): Circle {
    match Attempt(c, a)
    case Some(c') => c'
    case None => c
  }

  /** The circle after a sequence of acts, refused ones included. */
  ghost function Played(c: Circle, acts: seq<Act>): Circle {
    if acts == [] then c else After(Played(c, acts[..|acts| - 1]), acts[|acts| - 1])
  }

  lemma {:induction false} PlayedSoFar(c: Circle, acts: seq<Act>, i: nat)
    requires i < |acts|
    ensures Played(c, acts[..i + 1]) == After(Played(c, acts[..i]), acts[i])
  {
    hide After;
    assert acts[..i + 1][..i] == acts[..i];
  }

  const EMPTY := Circle(true, Planned, map[], map[], map[])
}
