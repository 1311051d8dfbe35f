/** Commands that a service may send again: the core remembers the result of a creation under its key. */
module Idempotency {
  import opened Wrappers
  import opened Forest
  import opened Commands

  /** An external item. The idempotency key of its creation is rendered as this triple. */
  datatype Item = Item(provider: string, installation: string, external: string)

  /** What the fingerprint of a creation covers. */
  datatype Request = Request(parent: NodeId, title: string, outcome: string)

  datatype Saved = Saved(request: Request, node: NodeId, revision: nat)

  /** The core as one service account sees it: its workspace and the results saved for its keys. */
  datatype Core = Core(w: Workspace, results: map<Item, Saved>)

  datatype Answer = Answered(node: NodeId, revision: nat) | Refused(reply: Reply)

  /** A creation under a key: replayed when the key was used with the same content, refused when the content differs;
      otherwise created once, on the expected revision, and remembered in the same transaction. */
  function CreateOnce(core: Core, key: Item, request: Request, expected: nat, id: NodeId): (Answer, Core) {
    if request.title == "" then (Refused(BadRequest), core)
    else if key in core.results then
      var saved := core.results[key];
      if saved.request == request then (Answered(saved.node, saved.revision), core) else (Refused(Conflict), core)
    else
      var (reply, w) := CreateNode(core.w, id, Some(request.parent), request.title, request.outcome, Some(expected));
      if reply.Done? then
        (Answered(id, w.revision), Core(w, core.results[key := Saved(request, id, w.revision)]))
      else
        (Refused(reply), core)
  }

  /** The saved results name rows that exist, that were created at the saved revision, and that no other key names. */
  ghost predicate ResultsOk(core: Core) {
    && (forall k :: k in core.results ==>
          core.results[k].node in core.w.nodes &&
            core.w.nodes[core.results[k].node].created == core.results[k].revision)
    && (forall k, l :: k in core.results && l in core.results && core.results[k].node == core.results[l].node ==>
      k == l)
  }

  /** A command never deletes a row and never changes the revision it was created at. */
  lemma {:induction false} StepKeepsBirths(w: Workspace, c: Command, n: NodeId)
    requires n in w.nodes
    ensures n in Step(w, c).nodes && Step(w, c).nodes[n].created == w.nodes[n].created
  {
  }

  lemma {:induction false} CommandKeepsResults(core: Core, c: Command)
    requires ResultsOk(core)
    ensures ResultsOk(core.(w := Step(core.w, c)))
  {
    forall k | k in core.results ensures
      core.results[k].node in Step(core.w, c).nodes &&
        Step(core.w, c).nodes[core.results[k].node].created == core.results[k].revision
    {
      StepKeepsBirths(core.w, c, core.results[k].node);
    }
  }

  lemma {:induction false} CreationKeepsResults(core: Core, key: Item, request: Request, expected: nat, id: NodeId)
    requires ResultsOk(core)
    ensures ResultsOk(CreateOnce(core, key, request, expected, id).1)
  {
  }

  /** Sending a creation again, on whatever revision and after whatever commands, changes nothing and gives the first
      answer when the content is the same; with other content it is refused for ever. */
  lemma {:induction false} RepeatedCreation(core: Core, key: Item, request: Request, expected: nat, id: NodeId)
    requires key in core.results && request.title != ""
    ensures var (answer, core') := CreateOnce(core, key, request, expected, id);
      && core' == core
      && (answer.Answered? <==> request == core.results[key].request)
      && (answer.Answered? ==> answer == Answered(core.results[key].node, core.results[key].revision))
  {
  }

  /** A key gets its result with its first accepted creation and keeps it. */
  lemma {:induction false} ResultsOnlyGrow(core: Core, key: Item, request: Request, expected: nat, id: NodeId)
    ensures var (answer, core') := CreateOnce(core, key, request, expected, id);
      && (forall k :: k in core.results ==> k in core'.results && core'.results[k] == core.results[k])
      && (forall k :: k in core'.results && k !in core.results ==> k == key)
      && (answer.Answered? ==>
        key in core'.results && answer == Answered(core'.results[key].node, core'.results[key].revision))
      && (core'.w.nodes.Keys != core.w.nodes.Keys <==> key !in core.results && answer.Answered?)
  {
    var (answer, core') := CreateOnce(core, key, request, expected, id);
    if answer.Answered? && key !in core.results {
      assert id in core'.w.nodes;
    }
  }

  // ----- the key as a string -----

  predicate ColonFree(s: string) {
    ':' !in s
  }

  function KeyString(item: Item): string {
    item.provider + ":" + item.installation + ":" + item.external + ":create"
  }

  lemma {:induction false} FirstColon(a: string, b: string, x: string, y: string)
    requires ColonFree(a) && ColonFree(b) && a + ":" + x == b + ":" + y
    ensures a == b && x == y
  {
    var s := a + ":" + x;
    assert s[|a|] == ':' && s[|b|] == ':';
    assert forall k :: 0 <= k < |a| ==> s[k] == a[k];
    assert forall k :: 0 <= k < |b| ==> s[k] == b[k];
    assert |a| == |b|;
    assert a == s[..|a|] && b == s[..|b|];
    assert x == s[|a| + 1..] && y == s[|b| + 1..];
  }

  /** Provider and installation read off again: the rendered key tells the provider and the rest of the key as a
      whole. */
  lemma {:induction false} KeyStringTells(i: Item, j: Item)
    requires ColonFree(i.provider) && ColonFree(j.provider)
    ensures KeyString(i) == KeyString(j) <==>
      i.provider == j.provider && i.installation + ":" + i.external == j.installation + ":" + j.external
  {
    var x, y := i.installation + ":" + i.external, j.installation + ":" + j.external;
    assert KeyString(i) == i.provider + ":" + (x + ":create");
    assert KeyString(j) == j.provider + ":" + (y + ":create");
    if KeyString(i) == KeyString(j) {
      FirstColon(i.provider, j.provider, x + ":create", y + ":create");
      assert |x + ":create"| == |y + ":create"|;
      assert x == (x + ":create")[..|x|] && y == (y + ":create")[..|y|];
    }
  }

  /** The installation of `i` goes on behind that of `j` with a colon and `t`, and the item of `j` starts with them. */
  ghost predicate Overlaps(i: Item, j: Item, t: string) {
    i.installation == j.installation + ":" + t && j.external == t + ":" + i.external
  }

  lemma {:induction false} LongerInstallationOverlaps(i: Item, j: Item) returns (t: string)
    requires i.installation + ":" + i.external == j.installation + ":" + j.external
    requires |i.installation| > |j.installation|
    ensures Overlaps(i, j, t)
  {
    var s, n, m := i.installation + ":" + i.external, |i.installation|, |j.installation|;
    t := i.installation[m + 1..];
    assert s == j.installation + ":" + j.external;
    assert s[..n] == i.installation && s[..m] == j.installation && s[m] == ':';
    assert i.installation[..m] == s[..m] && i.installation[m] == s[m];
    assert i.installation == i.installation[..m] + [i.installation[m]] + t;
    assert j.external == s[m + 1..] && t == s[m + 1..n];
    assert s[m + 1..] == s[m + 1..n] + s[n..] && s[n..] == ":" + i.external;
  }

  lemma {:induction false} OverlapIsEnough(i: Item, j: Item, t: string)
    requires Overlaps(i, j, t)
    ensures i.installation + ":" + i.external == j.installation + ":" + j.external
  {
  }

  /** Two different items share a key exactly if they have one provider, the installation key of one extends that of the
      other by a colon and some text, and the item of the other begins with that text and a colon. */
  lemma {:induction false} KeyStringsCollideExactlyWhen(i: Item, j: Item)
    requires ColonFree(i.provider) && ColonFree(j.provider)
    ensures i != j && KeyString(i) == KeyString(j) <==>
      i.provider == j.provider && ((exists t :: Overlaps(i, j, t)) || exists t :: Overlaps(j, i, t))
  {
    KeyStringTells(i, j);
    if i.installation + ":" + i.external == j.installation + ":" + j.external {
      if |i.installation| > |j.installation| {
        var t := LongerInstallationOverlaps(i, j);
      } else if |j.installation| > |i.installation| {
        var t := LongerInstallationOverlaps(j, i);
      } else {
        var s := i.installation + ":" + i.external;
        assert i.installation == s[..|i.installation|] && j.installation == s[..|j.installation|];
        assert i.external == s[|i.installation| + 1..] && j.external == s[|j.installation| + 1..];
      }
    }
    if t :| Overlaps(i, j, t) {
      OverlapIsEnough(i, j, t);
    } else if t :| Overlaps(j, i, t) {
      OverlapIsEnough(j, i, t);
    }
  }

  /** What the gateway stores: mock items under the one configured installation key, and Jira issues, whose keys contain
      no colon, under installation keys of any form; an installation without a key of its own gets its base URL. */
  predicate Stored(item: Item, configured: string) {
    || (item.provider == "mock" && item.installation == configured)
    || (item.provider == "jira_cloud" && ColonFree(item.external))
  }

  /** So no two stored items share a key. */
  lemma {:induction false} StoredKeysAreDistinct(i: Item, j: Item, configured: string)
    requires Stored(i, configured) && Stored(j, configured) && KeyString(i) == KeyString(j)
    ensures i == j
  {
    assert ColonFree("mock") && ColonFree("jira_cloud");
    KeyStringsCollideExactlyWhen(i, j);
    forall a, b, t | Overlaps(a, b, t) ensures !ColonFree(b.external) && a.installation != b.installation {
      assert b.external[|t|] == ':';
      assert |a.installation| > |b.installation|;
    }
  }

  /** Two mock items would share a key if the configured installation key were changed between them. */
  lemma {:induction false} ReconfiguredKeysCollide()
    ensures var i, j := Item("mock", "local:7", "1"), Item("mock", "local", "7:1");
      i != j && KeyString(i) == KeyString(j)
  {
    var i, j := Item("mock", "local:7", "1"), Item("mock", "local", "7:1");
    assert ColonFree("mock");
    assert i.installation == j.installation + ":" + "7" && j.external == "7" + ":" + i.external;
    assert Overlaps(i, j, "7");
    KeyStringsCollideExactlyWhen(i, j);
  }

  // ----- comparing fingerprints -----

  lemma {:induction false} DifferenceBits(d: bv8, a: bv8, b: bv8)
    ensures d | (a ^ b) == 0 <==> d == 0 && a == b
  {
  }

  /** Compares two hashes without stopping at the first difference. */
  method EqualHash(left: seq<bv8>, right: seq<bv8>) returns (same: bool)
    ensures same <==> left == right
  {
    if |left| != |right| { return false; }
    var difference: bv8 := 0;
    for i := 0 to |left|
      invariant difference == 0 <==> left[..i] == right[..i]
    {
      DifferenceBits(difference, left[i], right[i]);
      assert left[..i + 1] == left[..i] + [left[i]] && right[..i + 1] == right[..i] + [right[i]];
      difference := difference | (left[i] ^ right[i]);
    }
    assert left[..|left|] == left && right[..|right|] == right;
    return difference == 0;
  }
}
