/**
 * `TreeUtil.buildTree`: link a flat list of nodes into a forest. A node is
 * a root when it has no parent id, its parent id is "0", or no node has that
 * id; otherwise it is appended, in list order, to the children of the first
 * node carrying its parent id. The list returned holds the roots in list
 * order. Ids are strings.
 */
module TreeUtil {
  import opened Wrappers

  const CHILDREN_FIELD_FAILURE: string := "获取 children 字段失败：未找到 children 字段"

  class Node {
    const id: string
    const pid: Option<string>
    /** The `children` field: null until a child is attached. */
    var children: Option<seq<Node>>

    constructor (id: string, pid: Option<string>, children: Option<seq<Node>>)
      ensures this.id == id && this.pid == pid && this.children == children
    {
      this.id := id;
      this.pid := pid;
      this.children := children;
    }
  }

  /** The ids present in the list. */
  function Ids(list: seq<Node>): set<string>
  {
    set i | 0 <= i < |list| :: list[i].id
  }

  predicate HasId(list: seq<Node>, k: string)
  {
    k in Ids(list)
  }

  /** The position of the first node with id `k` (the map keeps the first). */
  function FirstIndex(list: seq<Node>, k: string): (i: nat)
    requires HasId(list, k)
    ensures i < |list| && list[i].id == k
    ensures forall j | 0 <= j < i :: list[j].id != k
  {
    if list[0].id == k then 0
    else
      assert HasId(list[1..], k) by {
        var j :| 0 <= j < |list| && list[j].id == k;
        assert list[1..][j - 1] == list[j];
        assert list[1..][j - 1].id in Ids(list[1..]);
      }
      1 + FirstIndex(list[1..], k)
  }

  /** `nodeMap`: id -> the first node with that id. */
  function IdMap(list: seq<Node>): (m: map<string, Node>)
    ensures forall k :: k in m <==> HasId(list, k)
    ensures forall k | k in m :: m[k] == list[FirstIndex(list, k)]
  {
    map k | k in Ids(list) :: list[FirstIndex(list, k)]
  }

  predicate IsRoot(list: seq<Node>, n: Node)
  {
    n.pid.None? || !HasId(list, n.pid.value) || n.pid.value == "0"
  }

  function ParentOf(list: seq<Node>, n: Node): Node
    requires !IsRoot(list, n)
  {
    list[FirstIndex(list, n.pid.value)]
  }

  /** The nodes of `xs` that are roots of `list`, in order. */
  function RootsOf(list: seq<Node>, xs: seq<Node>): (r: seq<Node>)
    decreases |xs|
  {
    if xs == [] then []
    else
      var last := xs[|xs| - 1];
      RootsOf(list, xs[..|xs| - 1]) + (if IsRoot(list, last) then [last] else [])
  }

  /** The nodes of `xs` whose parent in `list` is `p`, in order. */
  function ChildrenOf(list: seq<Node>, xs: seq<Node>, p: Node): (r: seq<Node>)
    decreases |xs|
  {
    if xs == [] then []
    else
      var last := xs[|xs| - 1];
      ChildrenOf(list, xs[..|xs| - 1], p)
        + (if !IsRoot(list, last) && ParentOf(list, last) == p then [last] else [])
  }

  /** A children field after `xs` are appended to it (left alone when none are). */
  function Extend(children: Option<seq<Node>>, xs: seq<Node>): Option<seq<Node>>
  {
    if xs == [] then children else Some(children.GetOr([]) + xs)
  }

  /** The roots are exactly the nodes passing the root test, in order. */
  lemma {:induction false} RootsMembers(list: seq<Node>, xs: seq<Node>)
    ensures forall n | n in RootsOf(list, xs) :: n in xs && IsRoot(list, n)
    ensures forall i | 0 <= i < |xs| && IsRoot(list, xs[i]) :: xs[i] in RootsOf(list, xs)
    ensures |RootsOf(list, xs)| <= |xs|
    decreases |xs|
  {
    if xs != [] {
      var init := xs[..|xs| - 1];
      assert xs == init + [xs[|xs| - 1]];
      RootsMembers(list, init);
    }
  }

  /** A parent's new children are exactly the nodes whose parent it is, in order. */
  lemma {:induction false} ChildrenMembers(list: seq<Node>, xs: seq<Node>, p: Node)
    ensures forall n | n in ChildrenOf(list, xs, p) :: n in xs && !IsRoot(list, n) && ParentOf(list, n) == p
    ensures forall i | 0 <= i < |xs| && !IsRoot(list, xs[i]) && ParentOf(list, xs[i]) == p :: xs[i] in ChildrenOf(list, xs, p)
    decreases |xs|
  {
    if xs != [] {
      var init := xs[..|xs| - 1];
      assert xs == init + [xs[|xs| - 1]];
      ChildrenMembers(list, init, p);
    }
  }

  /** No child is attached while every node seen so far is a root. */
  lemma {:induction false} NoChildrenAmongRoots(list: seq<Node>, xs: seq<Node>, p: Node)
    requires forall j | 0 <= j < |xs| :: IsRoot(list, xs[j])
    ensures ChildrenOf(list, xs, p) == []
    decreases |xs|
  {
    if xs != [] {
      NoChildrenAmongRoots(list, xs[..|xs| - 1], p);
    }
  }

  lemma RootsSnoc(list: seq<Node>, xs: seq<Node>, x: Node)
    ensures RootsOf(list, xs + [x]) == RootsOf(list, xs) + (if IsRoot(list, x) then [x] else [])
  {
    assert (xs + [x])[..|xs|] == xs;
  }

  lemma ChildrenSnoc(list: seq<Node>, xs: seq<Node>, x: Node, p: Node)
    ensures ChildrenOf(list, xs + [x], p)
      == ChildrenOf(list, xs, p) + (if !IsRoot(list, x) && ParentOf(list, x) == p then [x] else [])
  {
    assert (xs + [x])[..|xs|] == xs;
  }

  lemma ExtendSnoc(c: Option<seq<Node>>, xs: seq<Node>, x: Node)
    ensures Extend(c, xs + [x]) == Some(Extend(c, xs).GetOr([]) + [x])
  {
    if xs == [] {
      assert xs + [x] == [x];
    } else {
      assert c.GetOr([]) + (xs + [x]) == (c.GetOr([]) + xs) + [x];
    }
  }

  /** `getOrInitChildren`: the node's children, initialised to empty when null. */
  method GetOrInitChildren(node: Node, hasChildrenField: bool) returns (r: Result<seq<Node>, string>)
    modifies node
    ensures r.Err? <==> !hasChildrenField
    ensures r.Err? ==> r.error == CHILDREN_FIELD_FAILURE && node.children == old(node.children)
    ensures r.Ok? ==> r.value == old(node.children).GetOr([]) && node.children == Some(r.value)
  {
    if !hasChildrenField {
      return Err(CHILDREN_FIELD_FAILURE);
    }
    if node.children.None? {
      node.children := Some([]);
    }
    r := Ok(node.children.value);
  }

  /** The children fields of the nodes, position by position. */
  function Kids(list: seq<Node>): (r: seq<Option<seq<Node>>>)
    reads set n | n in list
    ensures |r| == |list| && forall k | 0 <= k < |list| :: r[k] == list[k].children
    decreases |list|
  {
    if list == [] then [] else [list[0].children] + Kids(list[1..])
  }

  /** After the first i nodes, each node's children are its original ones extended by its children among them. */
  ghost predicate Linked(list: seq<Node>, orig: seq<Option<seq<Node>>>, i: nat)
    requires |orig| == |list| && i <= |list|
    reads set n | n in list
  {
    forall k | 0 <= k < |list| :: list[k].children == Extend(orig[k], ChildrenOf(list, list[..i], list[k]))
  }

  /** A root changes no children field. */
  lemma LinkedAfterRoot(list: seq<Node>, orig: seq<Option<seq<Node>>>, i: nat)
    requires |orig| == |list| && i < |list| && IsRoot(list, list[i])
    requires Linked(list, orig, i)
    ensures Linked(list, orig, i + 1)
  {
    assert list[..i + 1] == list[..i] + [list[i]];
    forall k | 0 <= k < |list|
      ensures ChildrenOf(list, list[..i + 1], list[k]) == ChildrenOf(list, list[..i], list[k])
    {
      ChildrenSnoc(list, list[..i], list[i], list[k]);
    }
  }

  /** While every node seen is a root, every children field is the original one. */
  lemma LinkedAmongRoots(list: seq<Node>, orig: seq<Option<seq<Node>>>, i: nat)
    requires |orig| == |list| && i <= |list| && Linked(list, orig, i)
    requires forall j | 0 <= j < i :: IsRoot(list, list[j])
    ensures forall k | 0 <= k < |list| :: list[k].children == orig[k]
  {
    forall k | 0 <= k < |list| ensures list[k].children == orig[k] {
      NoChildrenAmongRoots(list, list[..i], list[k]);
    }
  }

  /** After the whole list, each node holds its original children extended by all of its children. */
  lemma LinkedAll(list: seq<Node>, orig: seq<Option<seq<Node>>>)
    requires |orig| == |list| && Linked(list, orig, |list|)
    ensures forall k | 0 <= k < |list| :: list[k].children == Extend(orig[k], ChildrenOf(list, list, list[k]))
  {
    assert list[..|list|] == list;
  }

  /** The else branch of the loop: attach node i to its parent (`getOrInitChildren(parent).add(node)`). */
  method Attach(list: seq<Node>, ghost orig: seq<Option<seq<Node>>>, i: nat, parent: Node, hasChildrenField: bool)
    returns (r: Result<(), string>)
    requires |orig| == |list| && i < |list| && !IsRoot(list, list[i]) && parent == ParentOf(list, list[i])
    requires Linked(list, orig, i)
    modifies parent
    ensures r.Err? <==> !hasChildrenField
    ensures r.Err? ==> r.error == CHILDREN_FIELD_FAILURE && parent.children == old(parent.children)
    ensures r.Ok? ==> Linked(list, orig, i + 1)
  {
    var node := list[i];
    ghost var pre := Kids(list);
    assert forall k | 0 <= k < |list| :: pre[k] == Extend(orig[k], ChildrenOf(list, list[..i], list[k]));
    var children := GetOrInitChildren(parent, hasChildrenField);
    if children.Err? {
      return Err(children.error);
    }
    parent.children := Some(children.value + [node]);
    assert list[..i + 1] == list[..i] + [node];
    forall k | 0 <= k < |list|
      ensures list[k].children == Extend(orig[k], ChildrenOf(list, list[..i + 1], list[k]))
    {
      ChildrenSnoc(list, list[..i], node, list[k]);
      if list[k] != parent {
        assert list[k].children == pre[k];
        assert ChildrenOf(list, list[..i + 1], list[k]) == ChildrenOf(list, list[..i], list[k]);
      } else {
        ExtendSnoc(orig[k], ChildrenOf(list, list[..i], parent), node);
        assert list[k].children == Some(pre[k].GetOr([]) + [node]);
        assert ChildrenOf(list, list[..i + 1], list[k]) == ChildrenOf(list, list[..i], parent) + [node];
      }
    }
    r := Ok(());
  }

  /** One pass of the loop of `buildTree`: a root joins the list, any other node its parent. */
  method Place(list: seq<Node>, ghost orig: seq<Option<seq<Node>>>, nodeMap: map<string, Node>, i: nat,
               treeList: seq<Node>, hasChildrenField: bool)
    returns (next: seq<Node>, r: Result<(), string>)
    requires |orig| == |list| && i < |list| && nodeMap == IdMap(list)
    requires treeList == RootsOf(list, list[..i]) && Linked(list, orig, i)
    requires !hasChildrenField ==> forall j | 0 <= j < i :: IsRoot(list, list[j])
    modifies set n | n in list
    ensures r.Err? <==> !hasChildrenField && !IsRoot(list, list[i])
    ensures r.Err? ==> r.error == CHILDREN_FIELD_FAILURE && forall k | 0 <= k < |list| :: list[k].children == orig[k]
    ensures r.Ok? ==> next == RootsOf(list, list[..i + 1]) && Linked(list, orig, i + 1)
  {
    var node := list[i];
    assert list[..i + 1] == list[..i] + [node];
    RootsSnoc(list, list[..i], node);
    var pid := node.pid;
    assert (pid.None? || pid.value !in nodeMap || pid.value == "0") == IsRoot(list, node);
    next := treeList;
    if pid.None? || pid.value !in nodeMap || pid.value == "0" {
      next := treeList + [node];
      LinkedAfterRoot(list, orig, i);
      r := Ok(());
    } else {
      var parent := nodeMap[pid.value];
      r := Attach(list, orig, i, parent, hasChildrenField);
      if r.Err? {
        LinkedAmongRoots(list, orig, i);
      }
    }
  }

  /**
   * `buildTree`. `hasChildrenField` says whether the node type has a
   * `children` field; without one, the first non-root throws before anything
   * has been changed.
   */
  method BuildTree(list: seq<Node>, hasChildrenField: bool) returns (r: Result<seq<Node>, string>)
    modifies set n | n in list
    ensures r.Err? <==> !hasChildrenField && exists i | 0 <= i < |list| :: !IsRoot(list, list[i])
    ensures r.Err? ==> r.error == CHILDREN_FIELD_FAILURE && forall k | 0 <= k < |list| :: list[k].children == old(list[k].children)
    ensures r.Ok? ==> r.value == RootsOf(list, list)
    ensures r.Ok? ==> forall k | 0 <= k < |list| :: list[k].children == Extend(old(list[k].children), ChildrenOf(list, list, list[k]))
  {
    if list == [] {
      return Ok([]);
    }
    ghost var orig := Kids(list);
    var nodeMap := IdMap(list);
    var treeList := [];
    var i := 0;
    assert Linked(list, orig, 0);
    while i < |list|
      invariant 0 <= i <= |list|
      invariant treeList == RootsOf(list, list[..i])
      invariant Linked(list, orig, i)
      invariant !hasChildrenField ==> forall j | 0 <= j < i :: IsRoot(list, list[j])
      decreases |list| - i
    {
      var placed;
      treeList, placed := Place(list, orig, nodeMap, i, treeList, hasChildrenField);
      if placed.Err? {
        return Err(placed.error);
      }
      if !hasChildrenField {
        forall j | 0 <= j < i + 1 ensures IsRoot(list, list[j]) {
          if j == i {
            assert !IsRoot(list, list[i]) ==> placed.Err?;
          }
        }
      }
      i := i + 1;
    }
    assert list[..i] == list;
    LinkedAll(list, orig);
    r := Ok(treeList);
  }

  /** Every node ends up once: as a root or as a child of exactly one parent. */
  lemma {:induction false} EveryNodePlaced(list: seq<Node>, xs: seq<Node>, n: Node)
    requires n in xs
    ensures n in RootsOf(list, xs) || (exists p | p in list :: n in ChildrenOf(list, xs, p))
    ensures !(n in RootsOf(list, xs) && exists p | p in list :: n in ChildrenOf(list, xs, p))
  {
    RootsMembers(list, xs);
    var i :| 0 <= i < |xs| && xs[i] == n;
    if !IsRoot(list, n) {
      var p := ParentOf(list, n);
      ChildrenMembers(list, xs, p);
      assert p in list;
      assert n in ChildrenOf(list, xs, p);
    }
    forall p | p in list && n in ChildrenOf(list, xs, p) ensures n !in RootsOf(list, xs) {
      ChildrenMembers(list, xs, p);
    }
  }

  /** A node naming itself as parent is no root: it becomes its own child. */
  lemma SelfParentIsNoRoot(list: seq<Node>, i: nat)
    requires i < |list| && list[i].pid == Some(list[i].id) && list[i].id != "0"
    requires forall j | 0 <= j < i :: list[j].id != list[i].id
    ensures list[i] !in RootsOf(list, list)
    ensures list[i] in ChildrenOf(list, list, list[i])
  {
    assert HasId(list, list[i].id);
    assert FirstIndex(list, list[i].id) == i;
    RootsMembers(list, list);
    ChildrenMembers(list, list, list[i]);
  }
}
