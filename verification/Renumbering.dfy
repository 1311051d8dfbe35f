/** What the unique positions of a node's steps allow an update to do. The constraint is checked row by row, so whether
    a renumbering commits depends on the order its rows are visited in. */
module Renumbering {
  import opened Wrappers
  import opened Circle
  import opened CircleInvariant

  // ----- any renumbering -----

  lemma {:induction false} VisitsEach(order: seq<StepId>, rows: set<StepId>)
    requires Visits(order, rows)
    ensures forall s :: s in order <==> s in rows
  {
    forall s ensures s in order <==> s in rows {
      assert s in order <==> s in (set t | t in order);
    }
  }

  lemma {:induction false} RowsTakeTheirTargets(steps: Steps, order: seq<StepId>, target: map<StepId, nat>)
    requires (forall s :: s in order ==> s in steps && s in target) && WrittenInOrder(steps, order, target).Some?
    ensures var steps' := WrittenInOrder(steps, order, target).value;
      && steps'.Keys == steps.Keys
      && forall s :: s in steps ==> steps'[s] == if s in order then steps[s].(position := target[s]) else steps[s]
  {
    if order != [] {
      RowsTakeTheirTargets(steps[order[0] := steps[order[0]].(position := target[order[0]])], order[1..], target);
    }
  }

  /** Whatever is checked and in whatever order, an update that commits gives every row its target. */
  lemma {:induction false} RewrittenIsRenumbered(steps: Steps, target: map<StepId, nat>, check: Check)
    requires Rewritten(steps, target, check).Some?
    ensures Rewritten(steps, target, check).value == Renumbered(steps, target)
  {
    match check
    case Deferred =>
    case Immediate(order) =>
      RowsTakeTheirTargets(steps, order, target);
      assert forall s :: s in order <==> s in target.Keys;
  }

  /** When the update comes to row `i`, no other row stores the target of row `i`: neither one already written nor one
      still to be written. */
  ghost predicate FreeWhenVisited(steps: Steps, order: seq<StepId>, target: map<StepId, nat>, i: nat)
    requires i < |order| && forall s :: s in order ==> s in steps && s in target
  {
    forall t :: t in steps && t != order[i] ==>
      (if t in order[..i] then target[t] else steps[t].position) != target[order[i]]
  }

  lemma {:induction false} FreeAfterFirst(steps: Steps, order: seq<StepId>, target: map<StepId, nat>, i: nat)
    requires 0 < i < |order| && forall s :: s in order ==> s in steps && s in target
    ensures var steps1 := steps[order[0] := steps[order[0]].(position := target[order[0]])];
      FreeWhenVisited(steps, order, target, i) <==> FreeWhenVisited(steps1, order[1..], target, i - 1)
  {
    var rest := order[1..];
    assert order[i] == rest[i - 1];
    forall t ensures t in order[..i] <==> t == order[0] || t in rest[..i - 1] {
      assert order[..i] == [order[0]] + rest[..i - 1];
    }
  }

  /** An update commits exactly if the target of every row is free when that row is visited. */
  lemma {:induction false} CommitsExactlyWhenFree(steps: Steps, order: seq<StepId>, target: map<StepId, nat>)
    requires forall s :: s in order ==> s in steps && s in target
    ensures WrittenInOrder(steps, order, target).Some? <==>
      forall i :: 0 <= i < |order| ==> FreeWhenVisited(steps, order, target, i)
  {
    if order != [] {
      var s := order[0];
      assert Occupied(steps, target[s], s) <==> !FreeWhenVisited(steps, order, target, 0);
      if !Occupied(steps, target[s], s) {
        var steps1 := steps[s := steps[s].(position := target[s])];
        CommitsExactlyWhenFree(steps1, order[1..], target);
        forall i | 0 < i < |order|
          ensures FreeWhenVisited(steps, order, target, i) <==> FreeWhenVisited(steps1, order[1..], target, i - 1)
        {
          FreeAfterFirst(steps, order, target, i);
        }
        assert forall i :: 0 <= i < |order[1..]| ==>
          (FreeWhenVisited(steps1, order[1..], target, i) <==> FreeWhenVisited(steps, order, target, i + 1));
      }
    }
  }

  // ----- moving a step -----

  function Swapped(steps: Steps, id: StepId, other: StepId): Steps
    requires id in steps && other in steps
  {
    steps[id := steps[id].(position := steps[other].position)][other := steps[other].(position := steps[id].position)]
  }

  lemma {:induction false} ExchangeSwaps(steps: Steps, id: StepId, other: StepId, check: Check)
    requires id in steps && other in steps && id != other && Rewritten(steps, Exchanged(steps, id, other), check).Some?
    ensures Rewritten(steps, Exchanged(steps, id, other), check).value == Swapped(steps, id, other)
  {
    hide Rewritten;
    RewrittenIsRenumbered(steps, Exchanged(steps, id, other), check);
    assert Renumbered(steps, Exchanged(steps, id, other)) == Swapped(steps, id, other);
  }

  /** A move that commits exchanges the positions of two neighbours, or has no neighbour to exchange with. */
  lemma {:induction false} MoveIs(c: Circle, id: StepId, later: bool, check: Check) returns (other: StepId)
    requires MovedStep(c, id, later, check).Some?
    ensures id in c.steps
    ensures
      || (MovedStep(c, id, later, check) == Some(c) && forall s :: !Adjacent(c.steps, id, s, later))
      || (id != other && Adjacent(c.steps, id, other, later) &&
          MovedStep(c, id, later, check) == Some(c.(steps := Swapped(c.steps, id, other))))
  {
    hide Rewritten, Exchanged, Swapped;
    if exists s :: Adjacent(c.steps, id, s, later) {
      other :| Adjacent(c.steps, id, other, later) &&
        Rewritten(c.steps, Exchanged(c.steps, id, other), check) == Some(MovedStep(c, id, later, check).value.steps);
      ExchangeSwaps(c.steps, id, other, check);
    } else {
      other := id;
    }
  }

  /** Exchanging two positions always fails on its first row: the other one still stores the position it wants. */
  lemma {:induction false} ExchangeIsRefused(steps: Steps, id: StepId, other: StepId, order: seq<StepId>)
    requires id in steps && other in steps && id != other
    ensures Rewritten(steps, Exchanged(steps, id, other), Immediate(order)).None?
  {
    var target := Exchanged(steps, id, other);
    if Visits(order, target.Keys) {
      VisitsEach(order, target.Keys);
      assert id in order && order[0] in order;
      assert Occupied(steps, target[order[0]], order[0]);
    }
  }

  /** A move with a neighbour to exchange with is refused, whatever order the two rows are visited in, and a move
      without one changes nothing: so no move ever changes a route. */
  lemma {:induction false} NoMoveCommits(c: Circle, id: StepId, later: bool, order: seq<StepId>)
    requires c.lifecycle.Planned? && id in c.steps
    ensures MovedStep(c, id, later, Immediate(order)).None? <==> exists other :: Adjacent(c.steps, id, other, later)
    ensures After(c, MoveStep(id, later, Immediate(order))) == c
  {
    forall other | Adjacent(c.steps, id, other, later)
      ensures Rewritten(c.steps, Exchanged(c.steps, id, other), Immediate(order)).None?
    {
      ExchangeIsRefused(c.steps, id, other, order);
    }
  }

  // ----- closing the gap of a deleted step -----

  ghost predicate Ascending(steps: Steps, order: seq<StepId>) {
    forall i, j :: 0 <= i < j < |order| && order[i] in steps && order[j] in steps ==>
      steps[order[i]].position < steps[order[j]].position
  }

  function ClosedUp(steps: Steps, id: StepId): Steps
    requires id in steps
  {
    map s | s in steps && s != id ::
      if steps[s].position > steps[id].position then steps[s].(position := steps[s].position - 1) else steps[s]
  }

  /** A deletion that commits takes the step and everything that hangs on it, and closes the gap. */
  lemma {:induction false} DeletionIs(c: Circle, id: StepId, check: Check)
    requires DeletedStep(c, id, check).Some?
    ensures c.lifecycle.Planned? && id in c.steps
    ensures DeletedStep(c, id, check).value ==
      c.(steps := ClosedUp(c.steps, id), ledger := LedgerWithout(c.ledger, id), bids := BidsWithout(c.bids, id))
  {
    var rest := c.steps - {id};
    RewrittenIsRenumbered(rest, MovedUp(rest, c.steps[id].position), check);
    assert Renumbered(rest, MovedUp(rest, c.steps[id].position)) == ClosedUp(c.steps, id);
  }

  /** Distinct positions with at most one gap. */
  ghost predicate GapAt(steps: Steps, gap: nat) {
    && (forall s, t :: s in steps && t in steps && steps[s].position == steps[t].position ==> s == t)
    && (forall s :: s in steps ==> steps[s].position != gap)
    && (forall s, p: int :: s in steps && gap < p <= steps[s].position ==> Placed(steps, p))
  }

  lemma {:induction false} DeletionLeavesGap(steps: Steps, id: StepId)
    requires PositionsOk(steps) && id in steps
    ensures GapAt(steps - {id}, steps[id].position)
  {
    var rest := steps - {id};
    forall s, p: int | s in rest && steps[id].position < p <= rest[s].position ensures Placed(rest, p) {
      assert Placed(steps, p);
      var t :| t in steps && steps[t].position == p;
      assert t in rest && rest[t].position == p;
    }
  }

  lemma {:induction false} AscendingIsFree(steps: Steps, gap: nat, order: seq<StepId>, i: nat)
    requires GapAt(steps, gap) && Visits(order, MovedUp(steps, gap).Keys) && Ascending(steps, order) && i < |order|
    requires forall s :: s in order <==> s in MovedUp(steps, gap).Keys
    ensures FreeWhenVisited(steps, order, MovedUp(steps, gap), i)
  {
    var target := MovedUp(steps, gap);
    assert order[i] in order;
    forall t | t in steps && t != order[i] && steps[t].position == target[order[i]] ensures t in order[..i] {
      assert t in target.Keys;
      var j :| 0 <= j < |order| && order[j] == t;
      assert order[..i][j] == t;
    }
    assert forall t :: t in order[..i] ==> t in order;
  }

  /** If nothing was refused, every row between the gap and row `i` was visited before row `i`. */
  lemma {:induction false} LowerRowsCameFirst(steps: Steps, gap: nat, order: seq<StepId>, i: nat, t: StepId)
    requires GapAt(steps, gap) && i < |order|
    requires forall s :: s in order <==> s in MovedUp(steps, gap).Keys
    requires forall k :: 0 <= k < |order| ==> FreeWhenVisited(steps, order, MovedUp(steps, gap), k)
    requires order[i] in steps && t in steps && gap < steps[t].position < steps[order[i]].position
    ensures t in order[..i]
    decreases i
  {
    var p := steps[order[i]].position;
    assert Placed(steps, p - 1);
    var r :| r in steps && steps[r].position == p - 1;
    assert FreeWhenVisited(steps, order, MovedUp(steps, gap), i);
    assert order[i] in order && r in order[..i];
    if t != r {
      var k :| 0 <= k < i && order[k] == r;
      LowerRowsCameFirst(steps, gap, order, k, t);
    }
  }

  lemma {:induction false} FreeIsAscending(steps: Steps, gap: nat, order: seq<StepId>)
    requires GapAt(steps, gap) && Visits(order, MovedUp(steps, gap).Keys)
    requires forall s :: s in order <==> s in MovedUp(steps, gap).Keys
    requires forall k :: 0 <= k < |order| ==> FreeWhenVisited(steps, order, MovedUp(steps, gap), k)
    ensures Ascending(steps, order)
  {
    forall i, j | 0 <= i < j < |order| && order[i] in steps && order[j] in steps
      ensures steps[order[i]].position < steps[order[j]].position
    {
      assert order[j] in order;
      if steps[order[j]].position < steps[order[i]].position {
        LowerRowsCameFirst(steps, gap, order, i, order[j]);
      }
    }
  }

  lemma {:induction false} GapClosesExactlyInOrder(steps: Steps, gap: nat, order: seq<StepId>)
    requires GapAt(steps, gap) && Visits(order, MovedUp(steps, gap).Keys)
    ensures Rewritten(steps, MovedUp(steps, gap), Immediate(order)).Some? <==> Ascending(steps, order)
  {
    VisitsEach(order, MovedUp(steps, gap).Keys);
    CommitsExactlyWhenFree(steps, order, MovedUp(steps, gap));
    if Ascending(steps, order) {
      forall i | 0 <= i < |order| ensures FreeWhenVisited(steps, order, MovedUp(steps, gap), i) {
        AscendingIsFree(steps, gap, order, i);
      }
    } else if forall i :: 0 <= i < |order| ==> FreeWhenVisited(steps, order, MovedUp(steps, gap), i) {
      FreeIsAscending(steps, gap, order);
    }
  }

  /** The steps behind a step: the rows its deletion renumbers. */
  function Behind(c: Circle, id: StepId): set<StepId>
    requires id in c.steps
  {
    MovedUp(c.steps - {id}, c.steps[id].position).Keys
  }

  /** A deletion commits exactly if the steps behind the deleted one are visited from front to back. It then has the
      effect a deferred check would give it. */
  lemma {:induction false} DeletionCommitsExactlyInOrder(c: Circle, id: StepId, order: seq<StepId>)
    requires PositionsOk(c.steps) && c.lifecycle.Planned? && id in c.steps && Visits(order, Behind(c, id))
    ensures DeletedStep(c, id, Immediate(order)).Some? <==> Ascending(c.steps, order)
    ensures DeletedStep(c, id, Immediate(order)).Some? ==>
      DeletedStep(c, id, Immediate(order)) == DeletedStep(c, id, Deferred)
  {
    var rest, gap := c.steps - {id}, c.steps[id].position;
    DeletionLeavesGap(c.steps, id);
    GapClosesExactlyInOrder(rest, gap, order);
    VisitsEach(order, Behind(c, id));
    assert Ascending(rest, order) <==> Ascending(c.steps, order);
    if DeletedStep(c, id, Immediate(order)).Some? {
      DeletionIs(c, id, Immediate(order));
      DeletionIs(c, id, Deferred);
    }
  }

  lemma {:induction false} AscendingOrder(steps: Steps, rows: set<StepId>) returns (order: seq<StepId>)
    requires rows <= steps.Keys
    requires forall s, t :: s in steps && t in steps && steps[s].position == steps[t].position ==> s == t
    ensures Visits(order, rows) && Ascending(steps, order)
  {
    if rows == {} {
      order := [];
    } else {
      FirstExists(steps, rows);
      var first :| IsFirst(steps, rows, first);
      var rest := AscendingOrder(steps, rows - {first});
      VisitsEach(rest, rows - {first});
      order := [first] + rest;
      assert forall i :: 0 < i < |order| ==> order[i] == rest[i - 1] && order[i] in rest;
      forall s ensures s in (set t | t in order) <==> s in rows {}
    }
  }

  lemma {:induction false} OrderIsAsLong(order: seq<StepId>, rows: set<StepId>)
    requires forall s :: s in rows ==> s in order
    ensures |rows| <= |order|
  {
    if order == [] {
      assert rows == {};
    } else {
      OrderIsAsLong(order[1..], rows - {order[0]});
      assert |rows| <= |rows - {order[0]}| + 1;
    }
  }

  /** Exchanging the first two rows of an ascending order spoils it. */
  lemma {:induction false} SpoiledOrder(steps: Steps, rows: set<StepId>, order: seq<StepId>)
    returns (spoiled: seq<StepId>)
    requires rows <= steps.Keys && Visits(order, rows) && Ascending(steps, order) && |rows| >= 2
    ensures Visits(spoiled, rows) && !Ascending(steps, spoiled)
  {
    VisitsEach(order, rows);
    OrderIsAsLong(order, rows);
    spoiled := [order[1], order[0]] + order[2..];
    forall s ensures s in (set t | t in spoiled) <==> s in rows {
      assert order == [order[0], order[1]] + order[2..];
    }
    forall i, j | 0 <= i < j < |spoiled| ensures spoiled[i] != spoiled[j] {
      var i', j' := if i < 2 then 1 - i else i, if j < 2 then 1 - j else j;
      assert order[i'] == spoiled[i] && order[j'] == spoiled[j];
    }
    assert order[0] in order && order[1] in order;
    assert spoiled[0] == order[1] && spoiled[1] == order[0];
  }

  lemma {:induction false} ShortOrderAscends(steps: Steps, rows: set<StepId>, order: seq<StepId>)
    requires Visits(order, rows) && |rows| < 2
    ensures Ascending(steps, order)
  {
    VisitsEach(order, rows);
    if |order| >= 2 {
      assert {order[0], order[1]} <= rows;
      assert |rows| >= |{order[0], order[1]}| by { SubsetIsSmaller({order[0], order[1]}, rows); }
    }
  }

  lemma {:induction false} SubsetIsSmaller<T>(a: set<T>, b: set<T>)
    requires a <= b
    ensures |a| <= |b|
  {
    assert b == a + (b - a);
  }

  /** Some order always commits. Every order does exactly if at most one step stands behind the deleted one. */
  lemma {:induction false} DeletionIsSafeExactlyWhen(c: Circle, id: StepId)
    requires PositionsOk(c.steps) && c.lifecycle.Planned? && id in c.steps
    ensures exists order :: Visits(order, Behind(c, id)) && DeletedStep(c, id, Immediate(order)).Some?
    ensures (forall order :: Visits(order, Behind(c, id)) ==> DeletedStep(c, id, Immediate(order)).Some?) <==>
      |Behind(c, id)| < 2
  {
    var rows := Behind(c, id);
    var ascending := AscendingOrder(c.steps, rows);
    DeletionCommitsExactlyInOrder(c, id, ascending);
    if |rows| >= 2 {
      var spoiled := SpoiledOrder(c.steps, rows, ascending);
      DeletionCommitsExactlyInOrder(c, id, spoiled);
    } else {
      forall order | Visits(order, rows) ensures DeletedStep(c, id, Immediate(order)).Some? {
        ShortOrderAscends(c.steps, rows, order);
        DeletionCommitsExactlyInOrder(c, id, order);
      }
    }
  }
}
