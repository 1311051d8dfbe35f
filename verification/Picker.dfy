/** The picker and the path as they are computed: children grouped in one pass, a recursive visit that appends to a
    shared list, and a path collected upwards and then reversed in place. */
module Picker {
  import opened Wrappers
  import opened Forest
  import opened TreePicker

  type Groups = map<Option<NodeId>, seq<NodeId>>

  function Group(children: Groups, parent: Option<NodeId>): seq<NodeId> {
    if parent in children then children[parent] else []
  }

  /** Appends every node to the list of its parent. */
  method GroupByParent(m: Nodes, listing: seq<NodeId>) returns (children: Groups)
    requires AllIn(m, listing)
    ensures forall parent :: Group(children, parent) == ChildrenOf(m, listing, parent)
  {
    children := map[];
    for i := 0 to |listing|
      invariant AllIn(m, listing[..i])
      invariant forall parent :: Group(children, parent) == ChildrenOf(m, listing[..i], parent)
    {
      assert listing[..i + 1][..i] == listing[..i];
      var parent := m[listing[i]].parent;
      children := children[parent := Group(children, parent) + [listing[i]]];
    }
    assert listing[..|listing|] == listing;
  }

  lemma {:induction false} WalkUnfolds(m: Nodes, listing: seq<NodeId>, rank: map<NodeId, nat>, r: int,
                                       kids: seq<NodeId>, path: seq<string>, i: nat)
    requires i < |kids| && Fits(m, listing, rank, r, kids[i..])
    ensures Fits(m, listing, rank, r, kids[i + 1..])
    ensures Fits(m, listing, rank, rank[kids[i]], Kids(m, listing, Some(kids[i]))) &&
      Higher(m, rank, rank[kids[i]]) < Higher(m, rank, r)
    ensures var here := path + [m[kids[i]].title];
      Walk(m, listing, rank, r, kids[i..], path) ==
        [Row(kids[i], here)] + Walk(m, listing, rank, rank[kids[i]], Kids(m, listing, Some(kids[i])), here) +
          Walk(m, listing, rank, r, kids[i + 1..], path)
  {
    WalkGoesDown(m, listing, rank, r, kids[i..]);
    assert kids[i..][1..] == kids[i + 1..];
  }

  lemma {:induction false} Appended(done: seq<Row>, line: Row, inner: seq<Row>, rest: seq<Row>, todo: seq<Row>)
    requires todo == [line] + inner + rest
    ensures done + [line] + inner + rest == done + todo
  {
  }

  class Builder {
    var result: seq<Row>

    constructor ()
      ensures result == []
    {
      result := [];
    }

    method Visit(m: Nodes, listing: seq<NodeId>, children: Groups, ghost rank: map<NodeId, nat>, ghost r: int,
                 parent: Option<NodeId>, path: seq<string>)
      requires AllIn(m, listing) && forall p :: Group(children, p) == ChildrenOf(m, listing, p)
      requires Fits(m, listing, rank, r, Kids(m, listing, parent))
      modifies this
      ensures result == old(result) + Walk(m, listing, rank, r, Kids(m, listing, parent), path)
      decreases Higher(m, rank, r)
    {
      var kids := Sorted(m, Group(children, parent));
      ghost var total := old(result) + Walk(m, listing, rank, r, kids, path);
      assert kids[0..] == kids;
      for i := 0 to |kids|
        invariant Fits(m, listing, rank, r, kids[i..])
        invariant result + Walk(m, listing, rank, r, kids[i..], path) == total
      {
        WalkUnfolds(m, listing, rank, r, kids, path, i);
        var here := path + [m[kids[i]].title];
        Appended(result, Row(kids[i], here),
                 Walk(m, listing, rank, rank[kids[i]], Kids(m, listing, Some(kids[i])), here),
                 Walk(m, listing, rank, r, kids[i + 1..], path), Walk(m, listing, rank, r, kids[i..], path));
        result := result + [Row(kids[i], here)];
        Visit(m, listing, children, rank, rank[kids[i]], Some(kids[i]), here);
      }
      assert result + [] == result;
    }
  }

  method BuildTreeOptions(m: Nodes, listing: seq<NodeId>, ghost rank: map<NodeId, nat>) returns (options: seq<Row>)
    requires Ranked(m, rank) && AllIn(m, listing)
    ensures options == Options(m, listing, rank)
  {
    var children := GroupByParent(m, listing);
    var builder := new Builder();
    builder.Visit(m, listing, children, rank, -1, None, []);
    options := builder.result;
  }

  function Reversed(s: seq<string>): seq<string> {
    seq(|s|, i requires 0 <= i < |s| => s[|s| - 1 - i])
  }

  /** Swaps the ends until they meet. */
  method ReverseInPlace(a: array<string>)
    modifies a
    ensures a[..] == Reversed(old(a[..]))
  {
    var left, right := 0, a.Length - 1;
    while left < right
      invariant 0 <= left && left + right == a.Length - 1 && left <= right + 1
      invariant forall k :: 0 <= k < left ==> a[k] == old(a[a.Length - 1 - k]) && a[a.Length - 1 - k] == old(a[k])
      invariant forall k :: left <= k <= right ==> a[k] == old(a[k])
    {
      a[left], a[right] := a[right], a[left];
      left, right := left + 1, right - 1;
    }
  }

  /** The chain of parents ends because the rank falls with every step. */
  method CollectUp(m: Nodes, ghost rank: map<NodeId, nat>, n: NodeId) returns (titles: seq<string>)
    requires Ranked(m, rank) && n in m
    ensures Reversed(titles) == NodePath(m, rank, n)
  {
    var node := n;
    titles := [m[n].title];
    while m[node].parent.Some? && Live(m, m[node].parent.value)
      invariant node in m && titles != [] && titles[|titles| - 1] == m[node].title
      invariant NodePath(m, rank, n) == NodePath(m, rank, node) + Reversed(titles[..|titles| - 1])
      decreases rank[node]
    {
      assert Under(m, node, m[node].parent.value);
      ghost var before := titles;
      node := m[node].parent.value;
      titles := titles + [m[node].title];
      assert titles[..|titles| - 1] == before;
      assert Reversed(before) == [before[|before| - 1]] + Reversed(before[..|before| - 1]);
    }
    assert Reversed(titles) == [titles[|titles| - 1]] + Reversed(titles[..|titles| - 1]);
  }

  /** The number of steps up is the depth. */
  method ComputeDepth(m: Nodes, ghost rank: map<NodeId, nat>, n: NodeId) returns (depth: nat)
    requires Ranked(m, rank) && n in m
    ensures depth == NodeDepth(m, rank, n) && depth + 1 == |NodePath(m, rank, n)|
  {
    var node := n;
    depth := 0;
    while m[node].parent.Some? && Live(m, m[node].parent.value)
      invariant node in m && depth + NodeDepth(m, rank, node) == NodeDepth(m, rank, n)
      decreases rank[node]
    {
      assert Under(m, node, m[node].parent.value);
      node := m[node].parent.value;
      depth := depth + 1;
    }
    PathHasDepth(m, rank, n);
  }

  method ComputePath(m: Nodes, ghost rank: map<NodeId, nat>, n: NodeId) returns (path: seq<string>)
    requires Ranked(m, rank) && n in m
    ensures path == NodePath(m, rank, n)
  {
    var titles := CollectUp(m, rank, n);
    var a := new string[|titles|](i requires 0 <= i < |titles| => titles[i]);
    assert a[..] == titles;
    ReverseInPlace(a);
    path := a[..];
  }
}
