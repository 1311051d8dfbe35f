/** The tree as a list: a depth-first walk from the roots down, and the walk from a node up its chain of parents. Both
    look at the live nodes of a forest. */
module TreePicker {
  import opened Wrappers
  import opened Forest

  /** One line of the picker. */
  datatype Row = Row(id: NodeId, path: seq<string>)

  // ----- children in title order -----

  predicate AtMost(a: string, b: string) {
    a == [] || (b != [] && (a[0] < b[0] || (a[0] == b[0] && AtMost(a[1..], b[1..]))))
  }

  lemma {:induction false} TitlesCompare(a: string, b: string)
    ensures AtMost(a, b) || AtMost(b, a)
  {
    if a != [] && b != [] && a[0] == b[0] {
      TitlesCompare(a[1..], b[1..]);
    }
  }

  lemma {:induction false} TitlesChain(a: string, b: string, c: string)
    requires AtMost(a, b) && AtMost(b, c)
    ensures AtMost(a, c)
  {
    if a != [] && a[0] == b[0] && b[0] == c[0] {
      TitlesChain(a[1..], b[1..], c[1..]);
    }
  }

  predicate AllIn(m: Nodes, ids: seq<NodeId>) {
    forall n :: n in ids ==> n in m
  }

  predicate InTitleOrder(m: Nodes, ids: seq<NodeId>)
    requires AllIn(m, ids)
  {
    forall i, j :: 0 <= i < j < |ids| ==> AtMost(m[ids[i]].title, m[ids[j]].title)
  }

  /** Goes in behind the last title that is not greater, so equal titles keep their order. */
  function Insert(m: Nodes, ids: seq<NodeId>, n: NodeId): (all: seq<NodeId>)
    requires AllIn(m, ids) && n in m
    ensures multiset(all) == multiset(ids) + multiset{n} && AllIn(m, all)
  {
    if ids == [] || AtMost(m[ids[|ids| - 1]].title, m[n].title) then ids + [n]
    else
      assert ids == ids[..|ids| - 1] + [ids[|ids| - 1]];
      var all := Insert(m, ids[..|ids| - 1], n) + [ids[|ids| - 1]];
      assert forall k :: k in all ==> k in multiset(all);
      all
  }

  function Sorted(m: Nodes, ids: seq<NodeId>): (all: seq<NodeId>)
    requires AllIn(m, ids)
    ensures multiset(all) == multiset(ids) && AllIn(m, all)
  {
    if ids == [] then []
    else
      assert ids == ids[..|ids| - 1] + [ids[|ids| - 1]];
      Insert(m, Sorted(m, ids[..|ids| - 1]), ids[|ids| - 1])
  }

  lemma {:induction false} InsertKeepsOrder(m: Nodes, ids: seq<NodeId>, n: NodeId)
    requires AllIn(m, ids) && n in m && InTitleOrder(m, ids)
    ensures InTitleOrder(m, Insert(m, ids, n))
  {
    if ids == [] {
    } else {
      var last, rest := ids[|ids| - 1], ids[..|ids| - 1];
      if AtMost(m[last].title, m[n].title) {
        forall i | 0 <= i < |ids| ensures AtMost(m[ids[i]].title, m[n].title) {
          if i < |ids| - 1 {
            TitlesChain(m[ids[i]].title, m[last].title, m[n].title);
          }
        }
      } else {
        TitlesCompare(m[last].title, m[n].title);
        InsertKeepsOrder(m, rest, n);
        var all := Insert(m, rest, n);
        forall i | 0 <= i < |all| ensures AtMost(m[all[i]].title, m[last].title) {
          assert all[i] in multiset(all);
          assert all[i] == n || all[i] in rest;
        }
      }
    }
  }

  /** Siblings come sorted by title. */
  lemma {:induction false} SortingOrders(m: Nodes, ids: seq<NodeId>)
    requires AllIn(m, ids)
    ensures InTitleOrder(m, Sorted(m, ids))
  {
    if ids != [] {
      SortingOrders(m, ids[..|ids| - 1]);
      InsertKeepsOrder(m, Sorted(m, ids[..|ids| - 1]), ids[|ids| - 1]);
    }
  }

  // ----- the walk down -----

  /** The listed nodes with this parent, in listing order. */
  function ChildrenOf(m: Nodes, listing: seq<NodeId>, parent: Option<NodeId>): (kids: seq<NodeId>)
    requires AllIn(m, listing)
    ensures forall n :: n in kids ==> n in listing && m[n].parent == parent
    ensures forall n :: n in listing && m[n].parent == parent ==> n in kids
    ensures |kids| <= |listing| && forall n :: multiset(kids)[n] <= multiset(listing)[n]
  {
    if listing == [] then []
    else
      var rest, last := listing[..|listing| - 1], listing[|listing| - 1];
      assert listing == rest + [last];
      ChildrenOf(m, rest, parent) + if m[last].parent == parent then [last] else []
  }

  /** The reader's list of a forest: every live node once. */
  ghost predicate Lists(m: Nodes, listing: seq<NodeId>) {
    AllIn(m, listing) && multiset(listing) == multiset(LiveIds(m))
  }

  function Kids(m: Nodes, listing: seq<NodeId>, parent: Option<NodeId>): seq<NodeId>
    requires AllIn(m, listing)
  {
    Sorted(m, ChildrenOf(m, listing, parent))
  }

  /** Nodes ranked above `r`: what the walk may still meet below a node of that rank. */
  ghost function Higher(m: Nodes, rank: map<NodeId, nat>, r: int): set<NodeId>
    requires m.Keys <= rank.Keys
  {
    set n | n in m && rank[n] > r
  }

  /** A walk may start from `kids`: all of them are ranked above `r`. */
  ghost predicate Fits(m: Nodes, listing: seq<NodeId>, rank: map<NodeId, nat>, r: int, kids: seq<NodeId>) {
    Ranked(m, rank) && AllIn(m, listing) && AllIn(m, kids) && forall k :: k in kids ==> rank[k] > r
  }

  lemma {:induction false} KidsAreUnder(m: Nodes, listing: seq<NodeId>, p: NodeId)
    requires AllIn(m, listing)
    ensures forall k :: k in Kids(m, listing, Some(p)) ==> k in m && Under(m, k, p)
  {
    var below := Kids(m, listing, Some(p));
    forall k | k in below ensures k in m && Under(m, k, p) {
      assert k in multiset(below) && k in multiset(ChildrenOf(m, listing, Some(p)));
    }
  }

  lemma {:induction false} WalkGoesDown(m: Nodes, listing: seq<NodeId>, rank: map<NodeId, nat>, r: int,
                                        kids: seq<NodeId>)
    requires Fits(m, listing, rank, r, kids) && kids != []
    ensures Fits(m, listing, rank, rank[kids[0]], Kids(m, listing, Some(kids[0]))) &&
      Fits(m, listing, rank, r, kids[1..])
    ensures Higher(m, rank, rank[kids[0]]) < Higher(m, rank, r)
  {
    var first := kids[0];
    assert first in kids && first in Higher(m, rank, r) && first !in Higher(m, rank, rank[first]);
    KidsAreUnder(m, listing, first);
    hide Kids, Higher;
  }

  /** Writes a line for each node followed by the lines below it. The rank shows that the recursion ends. */
  function Walk(m: Nodes, listing: seq<NodeId>, ghost rank: map<NodeId, nat>, ghost r: int, kids: seq<NodeId>,
                path: seq<string>): seq<Row>
    requires Fits(m, listing, rank, r, kids)
    decreases Higher(m, rank, r), |kids|
  {
    if kids == [] then []
    else
      WalkGoesDown(m, listing, rank, r, kids);
      var here := path + [m[kids[0]].title];
      [Row(kids[0], here)]
        + Walk(m, listing, rank, rank[kids[0]], Kids(m, listing, Some(kids[0])), here)
        + Walk(m, listing, rank, r, kids[1..], path)
  }

  function Roots(m: Nodes, listing: seq<NodeId>): seq<NodeId>
    requires AllIn(m, listing)
  {
    Kids(m, listing, None)
  }

  /** The picker: the walk from the roots. */
  function Options(m: Nodes, listing: seq<NodeId>, ghost rank: map<NodeId, nat>): seq<Row>
    requires Ranked(m, rank) && AllIn(m, listing)
  {
    assert forall k :: k in Roots(m, listing) ==> k in m;
    Walk(m, listing, rank, -1, Roots(m, listing), [])
  }

  // ----- every live node once -----

  function Ids(rows: seq<Row>): seq<NodeId> {
    if rows == [] then [] else [rows[0].id] + Ids(rows[1..])
  }

  lemma {:induction false} IdsOfOneMore(row: Row, rows: seq<Row>)
    ensures Ids([row] + rows) == [row.id] + Ids(rows)
  {
    assert ([row] + rows)[1..] == rows;
  }

  lemma {:induction false} InFront(id: NodeId, a: seq<NodeId>, b: seq<NodeId>)
    ensures [id] + (a + b) == ([id] + a) + b
  {
  }

  lemma {:induction false} IdsOfBoth(a: seq<Row>, b: seq<Row>)
    ensures Ids(a + b) == Ids(a) + Ids(b)
  {
    if a == [] {
      assert a + b == b && Ids(a) == [];
    } else {
      var first, rest := a[0], a[1..];
      assert a == [first] + rest;
      assert a + b == [first] + (rest + b);
      hide Ids;
      IdsOfBoth(rest, b);
      IdsOfOneMore(first, rest);
      IdsOfOneMore(first, rest + b);
      InFront(first.id, Ids(rest), Ids(b));
    }
  }

  ghost predicate BelowOrSelf(m: Nodes, n: NodeId, k: NodeId) {
    exists j: nat :: Up(m, n, j) == Some(k)
  }

  ghost predicate BelowSome(m: Nodes, n: NodeId, kids: seq<NodeId>) {
    exists k :: k in kids && BelowOrSelf(m, n, k)
  }

  lemma {:induction false} UpAndUp(m: Nodes, n: NodeId, i: nat, j: nat)
    requires Up(m, n, i).Some?
    ensures Up(m, n, i + j) == Up(m, Up(m, n, i).value, j)
    decreases i
  {
    if i > 0 {
      UpAndUp(m, m[n].parent.value, i - 1, j);
    }
  }

  lemma {:induction false} UpIsThere(m: Nodes, n: NodeId, i: nat, j: nat)
    requires i <= j && Up(m, n, j).Some?
    ensures Up(m, n, i).Some?
    decreases i
  {
    if i > 0 {
      UpIsThere(m, m[n].parent.value, i - 1, j - 1);
    }
  }

  lemma {:induction false} NoWayBack(m: Nodes, rank: map<NodeId, nat>, n: NodeId, k: NodeId)
    requires Ranked(m, rank) && k in m && Under(m, n, k)
    ensures !BelowOrSelf(m, k, n)
  {
    if j: nat :| Up(m, k, j) == Some(n) {
      RankClimbs(m, rank, k, j);
    }
  }

  lemma {:induction false} AncestorsInLine(m: Nodes, n: NodeId, i: nat, j: nat, k: NodeId, l: NodeId)
    requires i <= j && Up(m, n, i) == Some(k) && Up(m, n, j) == Some(l)
    ensures Up(m, k, j - i) == Some(l)
  {
    UpAndUp(m, n, i, j - i);
  }

  /** No node hangs below two siblings. */
  lemma {:induction false} SiblingsApart(m: Nodes, rank: map<NodeId, nat>, n: NodeId, k: NodeId, l: NodeId)
    requires Ranked(m, rank) && k in m && l in m && k != l && m[k].parent == m[l].parent
    ensures !(BelowOrSelf(m, n, k) && BelowOrSelf(m, n, l))
  {
    if BelowOrSelf(m, n, k) && BelowOrSelf(m, n, l) {
      var i: nat :| Up(m, n, i) == Some(k);
      var j: nat :| Up(m, n, j) == Some(l);
      if i <= j {
        AncestorsInLine(m, n, i, j, k, l);
        SiblingIsNoAncestor(m, rank, k, l, j - i);
      } else {
        AncestorsInLine(m, n, j, i, l, k);
        SiblingIsNoAncestor(m, rank, l, k, i - j);
      }
    }
  }

  lemma {:induction false} SiblingIsNoAncestor(m: Nodes, rank: map<NodeId, nat>, k: NodeId, l: NodeId, d: nat)
    requires Ranked(m, rank) && k in m && l in m && k != l && m[k].parent == m[l].parent
    ensures Up(m, k, d) != Some(l)
  {
    if Up(m, k, d) == Some(l) {
      var p := m[k].parent.value;
      assert Under(m, l, p) && Under(m, k, p);
      assert BelowOrSelf(m, p, l) by { assert Up(m, p, d - 1) == Some(l); }
      NoWayBack(m, rank, l, p);
    }
  }

  lemma {:induction false} AncestorIsLive(m: Nodes, n: NodeId, j: nat)
    requires LiveAncestors(m) && Live(m, n) && Up(m, n, j).Some?
    ensures Live(m, Up(m, n, j).value)
    decreases j
  {
    if j > 0 {
      assert Under(m, n, m[n].parent.value);
      AncestorIsLive(m, m[n].parent.value, j - 1);
    }
  }

  lemma {:induction false} LiveChildIsKid(m: Nodes, listing: seq<NodeId>, k: NodeId, parent: Option<NodeId>)
    requires Lists(m, listing)
    ensures k in Kids(m, listing, parent) <==> Live(m, k) && m[k].parent == parent
  {
    var kids := Kids(m, listing, parent);
    assert k in kids <==> k in multiset(kids);
    assert k in ChildrenOf(m, listing, parent) <==> k in multiset(ChildrenOf(m, listing, parent));
    assert k in listing <==> k in multiset(listing);
    assert k in multiset(LiveIds(m)) <==> k in LiveIds(m);
  }

  lemma {:induction false} KidsAreDistinct(m: Nodes, listing: seq<NodeId>, parent: Option<NodeId>)
    requires Lists(m, listing)
    ensures forall k :: multiset(Kids(m, listing, parent))[k] <= 1
  {
  }

  lemma {:induction false} BelowKidIsBelow(m: Nodes, rank: map<NodeId, nat>, n: NodeId, k: NodeId, first: NodeId)
    requires Ranked(m, rank) && n in m && Under(m, k, first) && BelowOrSelf(m, n, k)
    ensures BelowOrSelf(m, n, first) && n != first
  {
    var j: nat :| Up(m, n, j) == Some(k);
    UpAndUp(m, n, j, 1);
    assert Up(m, k, 1) == Some(first);
    assert Up(m, n, j + 1) == Some(first);
    RankClimbs(m, rank, n, j + 1);
  }

  lemma {:induction false} BelowHasKid(m: Nodes, n: NodeId, first: NodeId) returns (k: NodeId)
    requires LiveAncestors(m) && Live(m, n) && BelowOrSelf(m, n, first) && n != first
    ensures Live(m, k) && m[k].parent == Some(first) && BelowOrSelf(m, n, k)
  {
    var j: nat :| Up(m, n, j) == Some(first);
    UpIsThere(m, n, j - 1, j);
    k := Up(m, n, j - 1).value;
    AncestorIsLive(m, n, j - 1);
    UpAndUp(m, n, j - 1, 1);
    assert Up(m, k, 1) == Some(first);
  }

  /** The live nodes below a node are the node and what is below its children. */
  lemma {:induction false} DescentSplits(m: Nodes, listing: seq<NodeId>, rank: map<NodeId, nat>, n: NodeId,
                                         first: NodeId)
    requires Lists(m, listing) && Ranked(m, rank) && LiveAncestors(m) && Live(m, n)
    ensures BelowOrSelf(m, n, first) <==> n == first || BelowSome(m, n, Kids(m, listing, Some(first)))
    ensures BelowSome(m, n, Kids(m, listing, Some(first))) ==> n != first
  {
    assert Up(m, n, 0) == Some(n);
    var kids := Kids(m, listing, Some(first));
    if k :| k in kids && BelowOrSelf(m, n, k) {
      LiveChildIsKid(m, listing, k, Some(first));
      BelowKidIsBelow(m, rank, n, k, first);
    }
    if BelowOrSelf(m, n, first) && n != first {
      var k := BelowHasKid(m, n, first);
      LiveChildIsKid(m, listing, k, Some(first));
    }
  }

  /** Siblings that a walk starts from. */
  ghost predicate Siblings(m: Nodes, kids: seq<NodeId>, parent: Option<NodeId>) {
    && (forall k :: k in kids ==> Live(m, k) && m[k].parent == parent)
    && (forall i, j :: 0 <= i < j < |kids| ==> kids[i] != kids[j])
  }

  lemma {:induction false} RepeatedCounts(s: seq<NodeId>, i: nat, j: nat)
    requires i < j < |s| && s[i] == s[j]
    ensures multiset(s)[s[i]] >= 2
  {
    assert s == s[..i] + [s[i]] + s[i + 1..j] + [s[j]] + s[j + 1..];
  }

  lemma {:induction false} DistinctByCount(s: seq<NodeId>)
    requires forall k :: multiset(s)[k] <= 1
    ensures forall i, j :: 0 <= i < j < |s| ==> s[i] != s[j]
  {
    forall i, j | 0 <= i < j < |s| ensures s[i] != s[j] {
      if s[i] == s[j] {
        RepeatedCounts(s, i, j);
      }
    }
  }

  lemma {:induction false} KidsAreSiblings(m: Nodes, listing: seq<NodeId>, parent: Option<NodeId>)
    requires Lists(m, listing)
    ensures Siblings(m, Kids(m, listing, parent), parent)
  {
    forall k | k in Kids(m, listing, parent) ensures Live(m, k) && m[k].parent == parent {
      LiveChildIsKid(m, listing, k, parent);
    }
    KidsAreDistinct(m, listing, parent);
    DistinctByCount(Kids(m, listing, parent));
  }

  /** A node hangs below the first of some siblings or below one of the others, not both. */
  lemma {:induction false} BelowFirstOrRest(m: Nodes, rank: map<NodeId, nat>, n: NodeId, kids: seq<NodeId>,
                                            parent: Option<NodeId>)
    requires Ranked(m, rank) && kids != [] && Siblings(m, kids, parent)
    ensures BelowSome(m, n, kids) <==> BelowOrSelf(m, n, kids[0]) || BelowSome(m, n, kids[1..])
    ensures !(BelowOrSelf(m, n, kids[0]) && BelowSome(m, n, kids[1..]))
  {
    if k :| k in kids && BelowOrSelf(m, n, k) {
      assert k == kids[0] || k in kids[1..];
    }
    if k :| k in kids[1..] && BelowOrSelf(m, n, k) {
      assert kids[0] in kids && k in kids && k != kids[0];
      SiblingsApart(m, rank, n, kids[0], k);
    }
  }

  function Count(rows: seq<Row>, n: NodeId): nat {
    multiset(Ids(rows))[n]
  }

  lemma {:induction false} CountOfBoth(a: seq<Row>, b: seq<Row>, n: NodeId)
    ensures Count(a + b, n) == Count(a, n) + Count(b, n)
  {
    IdsOfBoth(a, b);
  }

  lemma {:induction false} CountOfLine(row: Row, n: NodeId)
    ensures Count([row], n) == if row.id == n then 1 else 0
  {
    assert Ids([row]) == [row.id];
  }

  lemma {:induction false} CountOfThree(a: seq<Row>, b: seq<Row>, c: seq<Row>, n: NodeId)
    ensures Count(a + b + c, n) == Count(a, n) + Count(b, n) + Count(c, n)
  {
    CountOfBoth(a + b, c, n);
    CountOfBoth(a, b, n);
  }

  /** The counts of a line, of the lines below it and of the lines that follow add up. */
  lemma {:induction false} CountsAddUp(m: Nodes, listing: seq<NodeId>, rank: map<NodeId, nat>, kids: seq<NodeId>,
                                       parent: Option<NodeId>, n: NodeId, line: Row, inner: seq<Row>, rest: seq<Row>)
    requires Lists(m, listing) && Ranked(m, rank) && LiveAncestors(m) && Live(m, n)
    requires kids != [] && Siblings(m, kids, parent) && line.id == kids[0]
    requires Count(inner, n) == if BelowSome(m, n, Kids(m, listing, Some(kids[0]))) then 1 else 0
    requires Count(rest, n) == if BelowSome(m, n, kids[1..]) then 1 else 0
    ensures Count([line] + inner + rest, n) == if BelowSome(m, n, kids) then 1 else 0
  {
    CountOfThree([line], inner, rest, n);
    CountOfLine(line, n);
    DescentSplits(m, listing, rank, n, kids[0]);
    BelowFirstOrRest(m, rank, n, kids, parent);
  }

  lemma {:induction false} RestAreSiblings(m: Nodes, kids: seq<NodeId>, parent: Option<NodeId>)
    requires kids != [] && Siblings(m, kids, parent)
    ensures Live(m, kids[0]) && m[kids[0]].parent == parent && Siblings(m, kids[1..], parent)
  {
    assert kids[0] in kids;
  }

  /** The walk writes each live node below its siblings once, and nothing else. */
  lemma {:induction false} WalkCounts(m: Nodes, listing: seq<NodeId>, rank: map<NodeId, nat>, r: int, kids: seq<NodeId>,
                                      path: seq<string>, parent: Option<NodeId>, n: NodeId)
    requires Fits(m, listing, rank, r, kids) && Lists(m, listing) && LiveAncestors(m) && Live(m, n) &&
      Siblings(m, kids, parent)
    ensures Count(Walk(m, listing, rank, r, kids, path), n) == if BelowSome(m, n, kids) then 1 else 0
    decreases Higher(m, rank, r), |kids|
  {
    if kids == [] {
      assert Ids([]) == [];
    } else {
      WalkGoesDown(m, listing, rank, r, kids);
      var here, below := path + [m[kids[0]].title], Kids(m, listing, Some(kids[0]));
      KidsAreSiblings(m, listing, Some(kids[0]));
      RestAreSiblings(m, kids, parent);
      WalkCounts(m, listing, rank, rank[kids[0]], below, here, Some(kids[0]), n);
      WalkCounts(m, listing, rank, r, kids[1..], path, parent, n);
      CountsAddUp(m, listing, rank, kids, parent, n, Row(kids[0], here),
                  Walk(m, listing, rank, rank[kids[0]], below, here), Walk(m, listing, rank, r, kids[1..], path));
    }
  }

  /** Only live nodes are written. */
  lemma {:induction false} WalkWritesLive(m: Nodes, listing: seq<NodeId>, rank: map<NodeId, nat>, r: int,
                                          kids: seq<NodeId>, path: seq<string>, parent: Option<NodeId>, n: NodeId)
    requires Fits(m, listing, rank, r, kids) && Lists(m, listing) && !Live(m, n) && Siblings(m, kids, parent)
    ensures Count(Walk(m, listing, rank, r, kids, path), n) == 0
    decreases Higher(m, rank, r), |kids|
  {
    if kids == [] {
      assert Ids([]) == [];
    } else {
      WalkGoesDown(m, listing, rank, r, kids);
      var first := kids[0];
      var here := path + [m[first].title];
      KidsAreSiblings(m, listing, Some(first));
      WalkWritesLive(m, listing, rank, rank[first], Kids(m, listing, Some(first)), here, Some(first), n);
      WalkWritesLive(m, listing, rank, r, kids[1..], path, parent, n);
      CountOfThree([Row(first, here)], Walk(m, listing, rank, rank[first], Kids(m, listing, Some(first)), here),
                   Walk(m, listing, rank, r, kids[1..], path), n);
      CountOfLine(Row(first, here), n);
    }
  }

  /** The picker shows every live node exactly once. */
  lemma {:induction false} EveryLiveNodeOnce(m: Nodes, listing: seq<NodeId>, rank: map<NodeId, nat>)
    requires Ranked(m, rank) && LiveAncestors(m) && Lists(m, listing)
    ensures multiset(Ids(Options(m, listing, rank))) == multiset(LiveIds(m))
  {
    KidsAreSiblings(m, listing, None);
    forall n ensures Count(Options(m, listing, rank), n) == if Live(m, n) then 1 else 0 {
      if Live(m, n) {
        WalkCounts(m, listing, rank, -1, Roots(m, listing), [], None, n);
        ChainEnds(m, rank, n);
        var k: nat :| Up(m, n, k).Some? && Up(m, n, k + 1).None?;
        AncestorIsLive(m, n, k);
        TopIsRoot(m, n, k);
        LiveChildIsKid(m, listing, Up(m, n, k).value, None);
        assert BelowOrSelf(m, n, Up(m, n, k).value);
      } else {
        WalkWritesLive(m, listing, rank, -1, Roots(m, listing), [], None, n);
      }
    }
    forall n ensures multiset(LiveIds(m))[n] == if Live(m, n) then 1 else 0 {
      assert n in LiveIds(m) <==> Live(m, n);
    }
  }

  lemma {:induction false} TopIsRoot(m: Nodes, n: NodeId, k: nat)
    requires Up(m, n, k).Some? && Up(m, n, k + 1).None? && Up(m, n, k).value in m
    ensures m[Up(m, n, k).value].parent.None?
  {
    UpAndUp(m, n, k, 1);
    var top := Up(m, n, k).value;
    assert m[top].parent.Some? ==> Up(m, top, 1) == Up(m, m[top].parent.value, 0);
  }

  // ----- parents first -----

  /** Every line is one of the starting nodes or follows the line of its parent. */
  ghost predicate ParentsFirst(m: Nodes, rows: seq<Row>, kids: seq<NodeId>) {
    forall i :: 0 <= i < |rows| ==> rows[i].id in kids || ParentAbove(m, rows, i)
  }

  ghost predicate ParentAbove(m: Nodes, rows: seq<Row>, i: nat)
    requires i < |rows|
  {
    exists j :: 0 <= j < i && Under(m, rows[i].id, rows[j].id)
  }

  lemma {:induction false} ParentsFirstTogether(m: Nodes, first: Row, inner: seq<Row>, rest: seq<Row>,
                                                below: seq<NodeId>, kids: seq<NodeId>)
    requires kids != [] && first.id == kids[0] && (forall k :: k in below ==> Under(m, k, first.id))
    requires ParentsFirst(m, inner, below) && ParentsFirst(m, rest, kids[1..])
    ensures ParentsFirst(m, [first] + inner + rest, kids)
  {
    var rows := [first] + inner + rest;
    forall i | 0 <= i < |rows| ensures rows[i].id in kids || ParentAbove(m, rows, i) {
      if 1 <= i < 1 + |inner| {
        assert rows[i] == inner[i - 1] && rows[0] == first;
        if inner[i - 1].id !in below {
          var j :| 0 <= j < i - 1 && Under(m, inner[i - 1].id, inner[j].id);
          assert rows[j + 1] == inner[j];
        }
      } else if i >= 1 + |inner| {
        var at := i - 1 - |inner|;
        assert rows[i] == rest[at];
        if rest[at].id !in kids[1..] {
          var j :| 0 <= j < at && Under(m, rest[at].id, rest[j].id);
          assert rows[j + 1 + |inner|] == rest[j];
        }
      }
    }
  }

  lemma {:induction false} WalkIsParentsFirst(m: Nodes, listing: seq<NodeId>, rank: map<NodeId, nat>, r: int,
                                              kids: seq<NodeId>, path: seq<string>)
    requires Fits(m, listing, rank, r, kids) && Lists(m, listing)
    ensures ParentsFirst(m, Walk(m, listing, rank, r, kids, path), kids)
    decreases Higher(m, rank, r), |kids|
  {
    if kids != [] {
      WalkGoesDown(m, listing, rank, r, kids);
      var first, below := kids[0], Kids(m, listing, Some(kids[0]));
      var here := path + [m[first].title];
      WalkIsParentsFirst(m, listing, rank, rank[first], below, here);
      WalkIsParentsFirst(m, listing, rank, r, kids[1..], path);
      forall k | k in below ensures Under(m, k, first) {
        LiveChildIsKid(m, listing, k, Some(first));
      }
      ParentsFirstTogether(m, Row(first, here), Walk(m, listing, rank, rank[first], below, here),
                           Walk(m, listing, rank, r, kids[1..], path), below, kids);
    }
  }

  /** In the picker a node without a parent stands anywhere, any other below the line of its parent. */
  lemma {:induction false} ParentsComeFirst(m: Nodes, listing: seq<NodeId>, rank: map<NodeId, nat>, i: nat)
    requires Ranked(m, rank) && Lists(m, listing) && i < |Options(m, listing, rank)|
    ensures var rows := Options(m, listing, rank);
      rows[i].id in m && (m[rows[i].id].parent.None? || ParentAbove(m, rows, i))
  {
    WalkIsParentsFirst(m, listing, rank, -1, Roots(m, listing), []);
    LiveChildIsKid(m, listing, Options(m, listing, rank)[i].id, None);
  }

  // ----- the walk up -----

  /** The titles from the top of the chain down to the node; the walk stops at a parent that is not listed. */
  function NodePath(m: Nodes, ghost rank: map<NodeId, nat>, n: NodeId): seq<string>
    requires Ranked(m, rank) && n in m
    decreases rank[n]
  {
    if m[n].parent.None? || !Live(m, m[n].parent.value) then [m[n].title]
    else
      assert Under(m, n, m[n].parent.value);
      NodePath(m, rank, m[n].parent.value) + [m[n].title]
  }

  /** The path that leads to the children of `parent`. */
  ghost predicate LeadsTo(m: Nodes, rank: map<NodeId, nat>, path: seq<string>, parent: Option<NodeId>) {
    Ranked(m, rank) && if parent.Some? then Live(m, parent.value) && path == NodePath(m, rank, parent.value)
                       else path == []
  }

  ghost predicate PathsAreNodePaths(m: Nodes, rank: map<NodeId, nat>, rows: seq<Row>) {
    Ranked(m, rank) && forall row :: row in rows ==> row.id in m && row.path == NodePath(m, rank, row.id)
  }

  lemma {:induction false} PathGrows(m: Nodes, rank: map<NodeId, nat>, path: seq<string>, parent: Option<NodeId>,
                                     n: NodeId)
    requires LeadsTo(m, rank, path, parent) && Live(m, n) && m[n].parent == parent
    ensures path + [m[n].title] == NodePath(m, rank, n) && LeadsTo(m, rank, path + [m[n].title], Some(n))
  {
  }

  lemma {:induction false} WalkPaths(m: Nodes, listing: seq<NodeId>, rank: map<NodeId, nat>, r: int, kids: seq<NodeId>,
                                     path: seq<string>, parent: Option<NodeId>)
    requires Fits(m, listing, rank, r, kids) && Lists(m, listing) && Siblings(m, kids, parent) &&
      LeadsTo(m, rank, path, parent)
    ensures PathsAreNodePaths(m, rank, Walk(m, listing, rank, r, kids, path))
    decreases Higher(m, rank, r), |kids|
  {
    if kids != [] {
      WalkGoesDown(m, listing, rank, r, kids);
      var here, below := path + [m[kids[0]].title], Kids(m, listing, Some(kids[0]));
      KidsAreSiblings(m, listing, Some(kids[0]));
      RestAreSiblings(m, kids, parent);
      PathGrows(m, rank, path, parent, kids[0]);
      WalkPaths(m, listing, rank, rank[kids[0]], below, here, Some(kids[0]));
      WalkPaths(m, listing, rank, r, kids[1..], path, parent);
    }
  }

  /** Walking down and walking up agree: the path of a line is the path of its node. */
  lemma {:induction false} DownMeetsUp(m: Nodes, listing: seq<NodeId>, rank: map<NodeId, nat>, i: nat)
    requires Ranked(m, rank) && Lists(m, listing) && i < |Options(m, listing, rank)|
    ensures var row := Options(m, listing, rank)[i]; row.id in m && row.path == NodePath(m, rank, row.id)
  {
    KidsAreSiblings(m, listing, None);
    WalkPaths(m, listing, rank, -1, Roots(m, listing), [], None);
    assert Options(m, listing, rank)[i] in Options(m, listing, rank);
  }

  /** The steps up to the top of the chain. */
  function NodeDepth(m: Nodes, ghost rank: map<NodeId, nat>, n: NodeId): nat
    requires Ranked(m, rank) && n in m
    decreases rank[n]
  {
    if m[n].parent.None? || !Live(m, m[n].parent.value) then 0
    else
      assert Under(m, n, m[n].parent.value);
      1 + NodeDepth(m, rank, m[n].parent.value)
  }

  lemma {:induction false} PathHasDepth(m: Nodes, rank: map<NodeId, nat>, n: NodeId)
    requires Ranked(m, rank) && n in m
    ensures |NodePath(m, rank, n)| == NodeDepth(m, rank, n) + 1
    decreases rank[n]
  {
    if m[n].parent.Some? && Live(m, m[n].parent.value) {
      assert Under(m, n, m[n].parent.value);
      PathHasDepth(m, rank, m[n].parent.value);
    }
  }
}
