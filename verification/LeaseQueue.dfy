/** The queue runners poll: the ready automated steps of the whole installation, oldest node first. The queue does not
    ask whether a node has been removed, the read of the chosen node does. */
module LeaseQueue {
  import opened Wrappers
  import opened Forest
  import opened Circle
  import opened CircleInvariant
  import opened CircleActs
  import opened Renumbering

  datatype Entry = Entry(created: int, circle: Circle)

  type Board = map<NodeId, Entry>

  /** What a runner asks for: the kind of step, and which steps have their module installed, enabled and trusted. */
  datatype Poll = Poll(kind: StepKind, enabled: set<(NodeId, StepId)>)

  predicate Queued(b: Board, p: Poll, n: NodeId, s: StepId) {
    && n in b && b[n].circle.lifecycle.Planned? && (n, s) in p.enabled
    && s in b[n].circle.steps && b[n].circle.steps[s].status.Ready? && b[n].circle.steps[s].kind == p.kind
  }

  predicate NotLater(b: Board, n: NodeId, s: StepId, k: NodeId, t: StepId)
    requires n in b && s in b[n].circle.steps && k in b && t in b[k].circle.steps
  {
    b[n].created < b[k].created ||
    (b[n].created == b[k].created && b[n].circle.steps[s].position <= b[k].circle.steps[t].position)
  }

  /** ORDER BY created_at, position LIMIT 1. */
  ghost predicate IsHead(b: Board, p: Poll, n: NodeId, s: StepId) {
    Queued(b, p, n, s) && forall k, t :: Queued(b, p, k, t) ==> NotLater(b, n, s, k, t)
  }

  /** A lease of the head. A removed node cannot be read, and a policy may forbid the module. */
  ghost function Leased(b: Board, p: Poll, n: NodeId, allowed: bool, exec: ExecId, actor: ActorId,
                        now: int): Option<Circle>
    requires n in b
  {
    LeaseStep(b[n].circle, p.kind, allowed, exec, actor, now)
  }

  ghost predicate AllQueued(b: Board, p: Poll, entries: set<(NodeId, StepId)>) {
    forall e :: e in entries ==> Queued(b, p, e.0, e.1)
  }

  lemma {:induction false} OneStandsFirst(b: Board, p: Poll, entries: set<(NodeId, StepId)>)
    returns (h: (NodeId, StepId))
    requires entries != {} && AllQueued(b, p, entries)
    ensures h in entries && forall e :: e in entries ==> NotLater(b, h.0, h.1, e.0, e.1)
  {
    var x :| x in entries;
    if entries == {x} {
      h := x;
    } else {
      var y := OneStandsFirst(b, p, entries - {x});
      h := if NotLater(b, x.0, x.1, y.0, y.1) then x else y;
    }
  }

  /** Whenever a step waits, one is at the head: none waits on an older node, and on nodes of one age none waits at a
      smaller position. */
  lemma {:induction false} SomethingIsServed(b: Board, p: Poll, k: NodeId, t: StepId) returns (n: NodeId, s: StepId)
    requires Queued(b, p, k, t)
    ensures IsHead(b, p, n, s)
    ensures forall n', s' :: IsHead(b, p, n', s') ==>
      && b[n'].created <= b[k].created
      && (b[n'].created == b[k].created ==> b[n'].circle.steps[s'].position <= b[k].circle.steps[t].position)
  {
    var entries := set e | e in p.enabled && Queued(b, p, e.0, e.1);
    assert (k, t) in entries;
    var h := OneStandsFirst(b, p, entries);
    n, s := h.0, h.1;
    forall k': NodeId, t': StepId | Queued(b, p, k', t') ensures NotLater(b, n, s, k', t') {
      assert (k', t') in entries;
    }
  }

  /** A node has at most one ready step, so the head is the step the node's own lease starts. */
  lemma {:induction false} HeadIsTheReadyStep(b: Board, p: Poll, n: NodeId, s: StepId)
    requires Queued(b, p, n, s) && OneCurrent(b[n].circle.steps)
    ensures First(b[n].circle.steps, ReadyOf(b[n].circle.steps, p.kind)) == Some(s)
  {
    var steps := b[n].circle.steps;
    assert s in ReadyOf(steps, p.kind) * steps.Keys;
  }

  /** The head of the queue is leased exactly if its node is live and the policy allows it; it then starts running and
      nothing else of its node changes. */
  lemma {:induction false} LeaseIsGrantedExactlyWhen(b: Board, p: Poll, n: NodeId, s: StepId, allowed: bool,
                                                     exec: ExecId, actor: ActorId, now: int)
    requires Queued(b, p, n, s) && Sound(b[n].circle) && (p.kind.Api? || p.kind.Script?) && exec !in b[n].circle.ledger
    ensures Leased(b, p, n, allowed, exec, actor, now).Some? <==> b[n].circle.live && allowed
    ensures Leased(b, p, n, allowed, exec, actor, now).Some? ==>
      var c, c' := b[n].circle, Leased(b, p, n, allowed, exec, actor, now).value;
      && Runs(c'.ledger, exec, s) && c'.lifecycle.Active? && s in c'.steps
      && c'.steps == c.steps[s := c.steps[s].(status := Started, claimedBy := Some(actor))] && c'.bids == c.bids
  {
    HeadIsTheReadyStep(b, p, n, s);
  }

  // ----- runs -----

  datatype Turn =
    | Appear(node: NodeId, created: int)
    | Play(node: NodeId, act: Act)
    | Ask(poll: Poll, node: NodeId, step: StepId, allowed: bool, exec: ExecId, actor: ActorId, now: int)

  ghost predicate Granted(b: Board, t: Turn)
    requires t.Ask?
  {
    IsHead(b, t.poll, t.node, t.step) && Leased(b, t.poll, t.node, t.allowed, t.exec, t.actor, t.now).Some?
  }

  /** Leases come from asking; every other act is played on its node. */
  ghost function Turned(b: Board, t: Turn): Board {
    match t
    case Appear(n, created) => if n in b then b else b[n := Entry(created, EMPTY)]
    case Play(n, a) => if n !in b || a.Lease? then b else b[n := b[n].(circle := After(b[n].circle, a))]
    case Ask(p, n, _, allowed, exec, actor, now) =>
      if Granted(b, t) then b[n := b[n].(circle := Leased(b, p, n, allowed, exec, actor, now).value)] else b
  }

  ghost function Through(b: Board, turns: seq<Turn>): Board {
    if turns == [] then b else Turned(Through(b, turns[..|turns| - 1]), turns[|turns| - 1])
  }

  /** Nodes keep their age and their place in the board, whatever is leased, played or created. */
  lemma {:induction false} AgesNeverChange(b: Board, turns: seq<Turn>, n: NodeId)
    requires n in b
    ensures n in Through(b, turns) && Through(b, turns)[n].created == b[n].created
  {
    if turns != [] {
      AgesNeverChange(b, turns[..|turns| - 1], n);
    }
  }

  /** A removed node with a ready automated step. */
  ghost predicate Blocked(b: Board, n: NodeId, s: StepId) {
    && n in b && Sound(b[n].circle) && !b[n].circle.live && b[n].circle.lifecycle.Planned?
    && Has(b[n].circle.steps, s, Ready) && (b[n].circle.steps[s].kind.Api? || b[n].circle.steps[s].kind.Script?)
  }

  /** Only restoring the node or deleting the step ends it. */
  predicate Frees(t: Turn, n: NodeId, s: StepId) {
    t.Play? && t.node == n && (t.act == SetLive(true) || (t.act.DeleteStep? && t.act.id == s))
  }

  lemma {:induction false} RemovedRefuses(c: Circle, a: Act)
    requires !c.live
    requires !a.MoveStep? && !a.DeleteStep? && !a.WithdrawBid? && !a.SelectBid? && !a.SetLive?
    ensures After(c, a) == c
  {
  }

  /** What can still happen to a removed node's route touches no ready automated step. */
  lemma {:induction false} EditSparesReady(c: Circle, a: Act, s: StepId)
    requires Has(c.steps, s, Ready) && !c.steps[s].kind.Human? && !(a.DeleteStep? && a.id == s)
    requires a.MoveStep? || a.DeleteStep? || a.WithdrawBid? || a.SelectBid? || a.SetLive?
    ensures var c' := After(c, a);
      && c'.lifecycle == c.lifecycle && (c'.live == c.live || a == SetLive(true) || !c'.live)
      && Has(c'.steps, s, Ready) && c'.steps[s].kind == c.steps[s].kind
  {
    if Attempt(c, a).Some? {
      if a.MoveStep? {
        var other := MoveIs(c, a.id, a.later, a.check);
      } else if a.DeleteStep? {
        DeletionIs(c, a.id, a.check);
      }
    }
  }

  lemma {:induction false} BlockedStaysReady(c: Circle, a: Act, s: StepId)
    requires !c.live && c.lifecycle.Planned? && Has(c.steps, s, Ready) && !c.steps[s].kind.Human?
    requires a != SetLive(true) && !(a.DeleteStep? && a.id == s)
    ensures var c' := After(c, a);
      !c'.live && c'.lifecycle.Planned? && Has(c'.steps, s, Ready) && c'.steps[s].kind == c.steps[s].kind
  {
    hide After;
    if a.MoveStep? || a.DeleteStep? || a.WithdrawBid? || a.SelectBid? || a.SetLive? {
      EditSparesReady(c, a, s);
    } else {
      RemovedRefuses(c, a);
    }
  }

  lemma {:induction false} BlockedStaysBlocked(b: Board, t: Turn, n: NodeId, s: StepId)
    requires Blocked(b, n, s) && !Frees(t, n, s)
    ensures Blocked(Turned(b, t), n, s) && Turned(b, t)[n].created == b[n].created
  {
    hide Sound, Attempt;
    match t
    case Appear(_, _) =>
    case Play(k, a) =>
      if k == n && !a.Lease? {
        BlockedStaysReady(b[n].circle, a, s);
        ActKeepsSound(b[n].circle, a);
      }
    case Ask(_, _, _, _, _, _, _) =>
  }

  /** The turn serves neither this step nor a younger node. */
  ghost predicate PassesOver(b: Board, t: Turn, n: NodeId, s: StepId) {
    t.Ask? && Granted(b, t) && n in b && s in b[n].circle.steps && t.poll.kind == b[n].circle.steps[s].kind &&
    (n, s) in t.poll.enabled ==>
      t.node != n && t.node in b && b[t.node].created <= b[n].created
  }

  /** While a removed node stands in the queue, no lease of its kind goes to it or to a younger node. */
  lemma {:induction false} YoungerNodesWait(b: Board, t: Turn, n: NodeId, s: StepId)
    requires Blocked(b, n, s)
    ensures PassesOver(b, t, n, s)
  {
    hide Sound;
    if t.Ask? && (n, s) in t.poll.enabled && t.poll.kind == b[n].circle.steps[s].kind {
      assert Queued(b, t.poll, n, s);
    }
  }

  /** It stays so over any run that neither restores the node nor deletes the step: only nodes at least as old are
      served, whatever else is created, edited or finished. */
  lemma {:induction false} QueueStarves(b: Board, turns: seq<Turn>, n: NodeId, s: StepId)
    requires Blocked(b, n, s) && forall i :: 0 <= i < |turns| ==> !Frees(turns[i], n, s)
    ensures Blocked(Through(b, turns), n, s) && Through(b, turns)[n].created == b[n].created
    ensures forall i :: 0 <= i < |turns| ==> PassesOver(Through(b, turns[..i]), turns[i], n, s)
  {
    hide Blocked, PassesOver, Turned;
    if turns != [] {
      var earlier, last := turns[..|turns| - 1], turns[|turns| - 1];
      QueueStarves(b, earlier, n, s);
      BlockedStaysBlocked(Through(b, earlier), last, n, s);
      YoungerNodesWait(Through(b, earlier), last, n, s);
      forall i | 0 <= i < |turns| ensures PassesOver(Through(b, turns[..i]), turns[i], n, s) {
        assert i < |earlier| ==> earlier[..i] == turns[..i];
      }
    }
  }

  const REMOVED_TASK := [Appear(1, 0), Play(1, AddStep(1, Script, Inherit, {})), Play(1, SetLive(false))]

  const SCRIPTED := EMPTY.(steps := map[1 := WorkStep(1, Script, Ready, None, None, Inherit, {})])

  lemma {:induction false} ScriptStepAdded()
    ensures After(EMPTY, AddStep(1, Script, Inherit, {})) == SCRIPTED
  {
    assert Positions(map[]) == {};
    assert AddedStep(EMPTY, 1, Script, Inherit, {}) == Some(SCRIPTED);
  }

  lemma {:induction false} ScriptedIsSound()
    ensures Sound(SCRIPTED) && Sound(After(SCRIPTED, SetLive(false)))
  {
    ScriptStepAdded();
    PlayedSoFar(EMPTY, [AddStep(1, Script, Inherit, {})], 0);
    PlayKeepsSound([AddStep(1, Script, Inherit, {})]);
    hide Sound, After;
    assert [AddStep(1, Script, Inherit, {})][..1] == [AddStep(1, Script, Inherit, {})];
    ActKeepsSound(SCRIPTED, SetLive(false));
  }

  lemma {:induction false} RemovalBlocks()
    ensures Blocked(Turned(map[1 := Entry(0, SCRIPTED)], REMOVED_TASK[2]), 1, 1)
  {
    hide Sound, AddedStep;
    ScriptedIsSound();
  }

  lemma {:induction false} ThroughSoFar(b: Board, turns: seq<Turn>, i: nat)
    requires i < |turns|
    ensures Through(b, turns[..i + 1]) == Turned(Through(b, turns[..i]), turns[i])
  {
    hide Turned;
    assert turns[..i + 1][..i] == turns[..i];
  }

  /** A concrete case: a task gets a script step, which is ready at once, and is removed. */
  lemma {:induction false} RemovedTaskBlocks()
    ensures Blocked(Through(map[], REMOVED_TASK), 1, 1)
  {
    hide Blocked, After, Through;
    ThroughSoFar(map[], REMOVED_TASK, 0);
    ThroughSoFar(map[], REMOVED_TASK, 1);
    ThroughSoFar(map[], REMOVED_TASK, 2);
    ScriptStepAdded();
    RemovalBlocks();
    NothingTurned(map[]);
    assert REMOVED_TASK[..0] == [] && REMOVED_TASK[..3] == REMOVED_TASK;
    assert Through(map[], REMOVED_TASK[..2]) == map[1 := Entry(0, SCRIPTED)];
  }

  lemma {:induction false} NothingTurned(b: Board)
    ensures Through(b, []) == b
  {
  }
}
