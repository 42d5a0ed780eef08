/** The district tree of flashsale/pay/services.py, built by a recursion from the root 0 over a table of
    children by parent. */
module Districts {
  import opened Lists

  datatype District = District(id: int, parent: int)

  datatype Tree = Tree(id: int, childs: seq<Tree>)

  /** Ids are the primary key, and auto-incremented ids start at 1. Nothing is asked of the parents. */
  predicate Keyed(ds: seq<District>) {
    && (forall i, j :: 0 <= i < j < |ds| ==> ds[i].id != ds[j].id)
    && (forall i :: 0 <= i < |ds| ==> ds[i].id != 0)
  }

  predicate Edge(ds: seq<District>, parent: int, id: int) {
    District(id, parent) in ds
  }

  /** The children of an id, in the order of the query. */
  function Kids(ds: seq<District>, parent: int): seq<int> {
    if ds == [] then []
    else
      var last := ds[|ds| - 1];
      Kids(ds[..|ds| - 1], parent) + if last.parent == parent then [last.id] else []
  }

  lemma {:induction false} KidsAreEdges(ds: seq<District>, parent: int, id: int)
    ensures id in Kids(ds, parent) <==> Edge(ds, parent, id)
  {
    if ds != [] {
      var n := |ds| - 1;
      KidsAreEdges(ds[..n], parent, id);
      assert ds == ds[..n] + [ds[n]];
    }
  }

  lemma {:induction false} KidsDistinct(ds: seq<District>, parent: int)
    requires Keyed(ds)
    ensures Distinct(Kids(ds, parent))
  {
    if ds != [] {
      var n := |ds| - 1;
      KidsDistinct(ds[..n], parent);
      KidsAreEdges(ds[..n], parent, ds[n].id);
    }
  }

  predicate InOrder(ids: seq<int>, a: int, b: int) {
    exists i, j :: 0 <= i < j < |ids| && ids[i] == a && ids[j] == b
  }

  /** Of two children of an id the one that the query lists first comes first. */
  lemma {:induction false} KidsInOrder(ds: seq<District>, parent: int, i: nat, j: nat)
    requires i < j < |ds| && ds[i].parent == parent && ds[j].parent == parent
    ensures InOrder(Kids(ds, parent), ds[i].id, ds[j].id)
  {
    var n := |ds| - 1;
    var front, all := Kids(ds[..n], parent), Kids(ds, parent);
    assert forall k :: 0 <= k < |front| ==> all[k] == front[k];
    if j < n {
      KidsInOrder(ds[..n], parent, i, j);
      var a, b :| 0 <= a < b < |front| && front[a] == ds[i].id && front[b] == ds[j].id;
      assert all[a] == ds[i].id && all[b] == ds[j].id;
    } else {
      KidsAreEdges(ds[..n], parent, ds[i].id);
      assert ds[..n][i] == ds[i] && ds[i].id in front;
      var a :| 0 <= a < |front| && front[a] == ds[i].id;
      assert all[a] == ds[i].id && all[|front|] == ds[j].id;
    }
  }

  // ---- Paths from the root ----

  function Last(path: seq<int>): int {
    if path == [] then 0 else path[|path| - 1]
  }

  /** A path of edges that starts below the root. */
  predicate IsPath(ds: seq<District>, path: seq<int>) {
    path == [] || (IsPath(ds, path[..|path| - 1]) && Edge(ds, Last(path[..|path| - 1]), path[|path| - 1]))
  }

  lemma {:induction false} PathPrefix(ds: seq<District>, path: seq<int>, n: nat)
    requires IsPath(ds, path) && n <= |path|
    ensures IsPath(ds, path[..n])
  {
    if n == |path| {
      assert path[..n] == path;
    } else {
      PathPrefix(ds, path[..|path| - 1], n);
      assert path[..|path| - 1][..n] == path[..n];
    }
  }

  lemma LastIsRoot(ds: seq<District>, path: seq<int>)
    requires Keyed(ds) && IsPath(ds, path)
    ensures Last(path) == 0 <==> path == []
  {
    if path != [] {
      var parent := Last(path[..|path| - 1]);
    }
  }

  /** There is at most one path to an id: parents are unique, and the root has none. */
  lemma {:induction false} OnePath(ds: seq<District>, a: seq<int>, b: seq<int>)
    requires Keyed(ds) && IsPath(ds, a) && IsPath(ds, b) && Last(a) == Last(b)
    ensures a == b
  {
    LastIsRoot(ds, a);
    LastIsRoot(ds, b);
    if a != [] {
      var m, n := |a| - 1, |b| - 1;
      OnePath(ds, a[..m], b[..n]);
      assert a == a[..m] + [a[m]] && b == b[..n] + [b[n]];
    }
  }

  lemma PathDistinct(ds: seq<District>, path: seq<int>)
    requires Keyed(ds) && IsPath(ds, path)
    ensures Distinct(path)
  {
    forall i, j | 0 <= i < j < |path|
      ensures path[i] != path[j]
    {
      var a, b := path[..i + 1], path[..j + 1];
      PathPrefix(ds, path, i + 1);
      PathPrefix(ds, path, j + 1);
      if path[i] == path[j] {
        OnePath(ds, a, b);
      }
    }
  }

  function Ids(ds: seq<District>): set<int> {
    set d | d in ds :: d.id
  }

  lemma {:induction false} IdsCount(ds: seq<District>)
    ensures |Ids(ds)| <= |ds|
  {
    if ds != [] {
      var n := |ds| - 1;
      IdsCount(ds[..n]);
      assert ds == ds[..n] + [ds[n]];
      assert Ids(ds) == Ids(ds[..n]) + {ds[n].id};
    }
  }

  lemma {:induction false} PathInIds(ds: seq<District>, path: seq<int>)
    requires IsPath(ds, path)
    ensures forall i :: 0 <= i < |path| ==> path[i] in Ids(ds)
  {
    if path != [] {
      var n := |path| - 1;
      PathInIds(ds, path[..n]);
      assert District(path[n], Last(path[..n])) in ds;
      assert forall i :: 0 <= i < n ==> path[i] == path[..n][i];
    }
  }

  /** No path is longer than the table: the recursion from the root ends even if some parents, out of
      reach of the root, form a cycle. */
  lemma PathBound(ds: seq<District>, path: seq<int>)
    requires Keyed(ds) && IsPath(ds, path)
    ensures |path| <= |ds|
  {
    PathDistinct(ds, path);
    PathInIds(ds, path);
    IdsCount(ds);
    DistinctFits(path, Ids(ds));
  }

  // ---- The recursion ----

  /** A path with the ids that hang below its end. */
  predicate Grows(ds: seq<District>, path: seq<int>, kids: seq<int>) {
    IsPath(ds, path) && forall i :: 0 <= i < |kids| ==> Edge(ds, Last(path), kids[i])
  }

  lemma PathSnoc(ds: seq<District>, path: seq<int>, id: int)
    requires Keyed(ds) && IsPath(ds, path) && Edge(ds, Last(path), id)
    ensures IsPath(ds, path + [id]) && Last(path + [id]) == id && |path| < |ds|
  {
    assert (path + [id])[..|path|] == path;
    PathBound(ds, path + [id]);
  }

  /** The tree below the end of a path. */
  function Expand(ds: seq<District>, path: seq<int>): Tree
    requires Keyed(ds) && IsPath(ds, path)
    decreases |ds| - |path|, 1, 0
  {
    var kids := Kids(ds, Last(path));
    AllGrow(ds, path);
    Tree(Last(path), ExpandAll(ds, path, kids))
  }

  function ExpandAll(ds: seq<District>, path: seq<int>, kids: seq<int>): seq<Tree>
    requires Keyed(ds) && Grows(ds, path, kids)
    decreases |ds| - |path|, 0, |kids|
  {
    if kids == [] then []
    else
      var id := kids[|kids| - 1];
      PathSnoc(ds, path, id);
      ExpandAll(ds, path, kids[..|kids| - 1]) + [Expand(ds, path + [id])]
  }

  lemma AllGrow(ds: seq<District>, path: seq<int>)
    requires Keyed(ds) && IsPath(ds, path)
    ensures Grows(ds, path, Kids(ds, Last(path)))
    ensures |path| <= |ds|
  {
    PathBound(ds, path);
    forall i | 0 <= i < |Kids(ds, Last(path))|
      ensures Edge(ds, Last(path), Kids(ds, Last(path))[i])
    {
      KidsAreEdges(ds, Last(path), Kids(ds, Last(path))[i]);
    }
  }

  // ---- What the tree lists ----

  function Preorder(t: Tree): seq<int> {
    [t.id] + PreorderAll(t.childs)
  }

  function PreorderAll(ts: seq<Tree>): seq<int> {
    if ts == [] then [] else PreorderAll(ts[..|ts| - 1]) + Preorder(ts[|ts| - 1])
  }

  function RootIds(ts: seq<Tree>): seq<int> {
    seq(|ts|, i requires 0 <= i < |ts| => ts[i].id)
  }

  /** Every node has exactly the children that the table gives it, in the order of the query. */
  predicate FollowsTable(ds: seq<District>, t: Tree) {
    RootIds(t.childs) == Kids(ds, t.id) && forall c :: c in t.childs ==> FollowsTable(ds, c)
  }

  lemma {:induction false} ExpandFollows(ds: seq<District>, path: seq<int>)
    requires Keyed(ds) && IsPath(ds, path)
    ensures FollowsTable(ds, Expand(ds, path))
    decreases |ds| - |path|, 1, 0
  {
    var kids := Kids(ds, Last(path));
    AllGrow(ds, path);
    ExpandAllFollow(ds, path, kids);
  }

  lemma {:induction false} ExpandAllFollow(ds: seq<District>, path: seq<int>, kids: seq<int>)
    requires Keyed(ds) && Grows(ds, path, kids)
    ensures RootIds(ExpandAll(ds, path, kids)) == kids
    ensures forall c :: c in ExpandAll(ds, path, kids) ==> FollowsTable(ds, c)
    decreases |ds| - |path|, 0, |kids|
  {
    if kids != [] {
      var n := |kids| - 1;
      PathSnoc(ds, path, kids[n]);
      ExpandAllFollow(ds, path, kids[..n]);
      ExpandFollows(ds, path + [kids[n]]);
    }
  }

  lemma ExpandAllSnoc(ds: seq<District>, path: seq<int>, kids: seq<int>)
    requires Keyed(ds) && Grows(ds, path, kids) && kids != []
    ensures var n := |kids| - 1;
      && IsPath(ds, path + [kids[n]]) && |path| < |ds| && Last(path + [kids[n]]) == kids[n]
      && PreorderAll(ExpandAll(ds, path, kids))
         == PreorderAll(ExpandAll(ds, path, kids[..n])) + Preorder(Expand(ds, path + [kids[n]]))
  {
    var n := |kids| - 1;
    PathSnoc(ds, path, kids[n]);
    var front, last := ExpandAll(ds, path, kids[..n]), Expand(ds, path + [kids[n]]);
    assert ExpandAll(ds, path, kids) == front + [last];
    assert (front + [last])[..|front|] == front;
  }

  lemma InAppend(x: int, a: seq<int>, b: seq<int>)
    ensures x in a + b <==> x in a || x in b
  {
  }

  lemma GoesThrough(path: seq<int>, k: int, long: seq<int>)
    ensures path + [k] <= long <==> path < long && long[|path|] == k
  {
    if path + [k] <= long {
      assert long[|path|] == (path + [k])[|path|];
      assert forall i :: 0 <= i < |path| ==> long[i] == (path + [k])[i];
    }
  }

  /** Whatever the tree below a path lists is the end of a path that goes on from it. */
  lemma {:induction false} ListedIsReached(ds: seq<District>, path: seq<int>, id: int) returns (long: seq<int>)
    requires Keyed(ds) && IsPath(ds, path) && id in Preorder(Expand(ds, path))
    ensures IsPath(ds, long) && path <= long && Last(long) == id
    ensures id in PreorderAll(Expand(ds, path).childs) ==> path < long
    decreases |ds| - |path|, 1, 0
  {
    AllGrow(ds, path);
    if id in PreorderAll(Expand(ds, path).childs) {
      long := AllListedReached(ds, path, Kids(ds, Last(path)), id);
    } else {
      long := path;
    }
  }

  lemma {:induction false} AllListedReached(ds: seq<District>, path: seq<int>, kids: seq<int>, id: int)
    returns (long: seq<int>)
    requires Keyed(ds) && Grows(ds, path, kids) && id in PreorderAll(ExpandAll(ds, path, kids))
    ensures IsPath(ds, long) && path < long && Last(long) == id && long[|path|] in kids
    decreases |ds| - |path|, 0, |kids|
  {
    var n := |kids| - 1;
    ExpandAllSnoc(ds, path, kids);
    var front, last := PreorderAll(ExpandAll(ds, path, kids[..n])), Preorder(Expand(ds, path + [kids[n]]));
    InAppend(id, front, last);
    if id in front {
      long := AllListedReached(ds, path, kids[..n], id);
    } else {
      long := ListedIsReached(ds, path + [kids[n]], id);
      GoesThrough(path, kids[n], long);
    }
  }

  /** Every path that goes on from `path` ends at an id that the tree lists. */
  lemma {:induction false} ReachedIsListed(ds: seq<District>, path: seq<int>, long: seq<int>)
    requires Keyed(ds) && IsPath(ds, path) && IsPath(ds, long) && path <= long
    ensures Last(long) in Preorder(Expand(ds, path))
    ensures path < long ==> Last(long) in PreorderAll(Expand(ds, path).childs)
    decreases |ds| - |path|, 1, 0
  {
    AllGrow(ds, path);
    if path != long {
      var n := |path|;
      PathPrefix(ds, long, n + 1);
      assert long[..n + 1][..n] == path;
      KidsAreEdges(ds, Last(path), long[n]);
      AllReachedListed(ds, path, Kids(ds, Last(path)), long);
    }
  }

  lemma {:induction false} AllReachedListed(ds: seq<District>, path: seq<int>, kids: seq<int>, long: seq<int>)
    requires Keyed(ds) && Grows(ds, path, kids) && IsPath(ds, long) && path < long && long[|path|] in kids
    ensures Last(long) in PreorderAll(ExpandAll(ds, path, kids))
    decreases |ds| - |path|, 0, |kids|
  {
    var n := |kids| - 1;
    ExpandAllSnoc(ds, path, kids);
    if long[|path|] == kids[n] {
      GoesThrough(path, kids[n], long);
      ReachedIsListed(ds, path + [kids[n]], long);
    } else {
      AllReachedListed(ds, path, kids[..n], long);
    }
  }

  lemma DistinctAppend(a: seq<int>, b: seq<int>)
    requires Distinct(a) && Distinct(b) && forall x :: x in a ==> x !in b
    ensures Distinct(a + b)
  {
    forall i, j | 0 <= i < j < |a + b|
      ensures (a + b)[i] != (a + b)[j]
    {
      if i < |a| <= j {
        assert (a + b)[i] in a && (a + b)[j] == b[j - |a|];
      }
    }
  }

  /** Nothing is listed twice. */
  lemma {:induction false} ListedOnce(ds: seq<District>, path: seq<int>)
    requires Keyed(ds) && IsPath(ds, path)
    ensures Distinct(Preorder(Expand(ds, path)))
    decreases |ds| - |path|, 1, 0
  {
    AllGrow(ds, path);
    var kids := Kids(ds, Last(path));
    KidsDistinct(ds, Last(path));
    AllListedOnce(ds, path, kids);
    forall x | x in [Last(path)]
      ensures x !in PreorderAll(ExpandAll(ds, path, kids))
    {
      if x in PreorderAll(ExpandAll(ds, path, kids)) {
        var long := AllListedReached(ds, path, kids, x);
        OnePath(ds, path, long);
      }
    }
    DistinctAppend([Last(path)], PreorderAll(ExpandAll(ds, path, kids)));
  }

  lemma {:induction false} AllListedOnce(ds: seq<District>, path: seq<int>, kids: seq<int>)
    requires Keyed(ds) && Grows(ds, path, kids) && Distinct(kids)
    ensures Distinct(PreorderAll(ExpandAll(ds, path, kids)))
    decreases |ds| - |path|, 0, |kids|
  {
    if kids != [] {
      var n := |kids| - 1;
      ExpandAllSnoc(ds, path, kids);
      AllListedOnce(ds, path, kids[..n]);
      ListedOnce(ds, path + [kids[n]]);
      forall x | x in PreorderAll(ExpandAll(ds, path, kids[..n]))
        ensures x !in Preorder(Expand(ds, path + [kids[n]]))
      {
        NotInBoth(ds, path, kids, x);
      }
      DistinctAppend(PreorderAll(ExpandAll(ds, path, kids[..n])), Preorder(Expand(ds, path + [kids[n]])));
    }
  }

  lemma NotInBoth(ds: seq<District>, path: seq<int>, kids: seq<int>, x: int)
    requires Keyed(ds) && Grows(ds, path, kids) && kids != [] && Distinct(kids)
    requires IsPath(ds, path + [kids[|kids| - 1]])
    requires x in PreorderAll(ExpandAll(ds, path, kids[..|kids| - 1]))
    ensures x !in Preorder(Expand(ds, path + [kids[|kids| - 1]]))
  {
    var n := |kids| - 1;
    var a := AllListedReached(ds, path, kids[..n], x);
    if x in Preorder(Expand(ds, path + [kids[n]])) {
      var b := ListedIsReached(ds, path + [kids[n]], x);
      GoesThrough(path, kids[n], b);
      OnePath(ds, a, b);
    }
  }

  ghost predicate Reachable(ds: seq<District>, id: int) {
    exists path :: IsPath(ds, path) && path != [] && Last(path) == id
  }

  /** `get_district_json_data`: the forest below the root lists every district that can be reached from 0
      and nothing else, each once, below its own parent and with its siblings in the order of the query. */
  lemma ForestListsReachable(ds: seq<District>, id: int)
    requires Keyed(ds)
    ensures var forest := Expand(ds, []).childs;
      && (id in PreorderAll(forest) <==> Reachable(ds, id))
      && Distinct(PreorderAll(forest))
      && RootIds(forest) == Kids(ds, 0)
      && forall t :: t in forest ==> FollowsTable(ds, t)
  {
    var root := Expand(ds, []);
    ExpandFollows(ds, []);
    ListedOnce(ds, []);
    assert Preorder(root)[1..] == PreorderAll(root.childs);
    if id in PreorderAll(root.childs) {
      var long := ListedIsReached(ds, [], id);
    }
    if Reachable(ds, id) {
      var path :| IsPath(ds, path) && path != [] && Last(path) == id;
      ReachedIsListed(ds, [], path);
    }
  }

  // ---- As the program does it ----

  type Table = map<int, seq<int>>

  function Lookup(nodes: Table, id: int): seq<int> {
    if id in nodes then nodes[id] else []
  }

  /** The table lists the children of every id. */
  ghost predicate Groups(nodes: Table, ds: seq<District>) {
    forall p :: Lookup(nodes, p) == Kids(ds, p)
  }

  /** The grouping loop. */
  method GroupByParent(ds: seq<District>) returns (nodes: Table)
    ensures Groups(nodes, ds)
  {
    nodes := map[];
    for i := 0 to |ds|
      invariant Groups(nodes, ds[..i])
    {
      assert ds[..i + 1][..i] == ds[..i];
      var p := ds[i].parent;
      nodes := nodes[p := Lookup(nodes, p) + [ds[i].id]];
    }
    assert ds[..|ds|] == ds;
  }

  lemma ExpandIs(ds: seq<District>, path: seq<int>)
    requires Keyed(ds) && IsPath(ds, path)
    ensures Grows(ds, path, Kids(ds, Last(path))) && |path| <= |ds|
    ensures Expand(ds, path) == Tree(Last(path), ExpandAll(ds, path, Kids(ds, Last(path))))
    ensures Grows(ds, path, []) && ExpandAll(ds, path, []) == []
  {
    AllGrow(ds, path);
  }

  lemma ExpandAllStep(ds: seq<District>, path: seq<int>, kids: seq<int>, i: nat, longer: seq<int>)
    requires Keyed(ds) && Grows(ds, path, kids) && i < |kids| && longer == path + [kids[i]]
    ensures Grows(ds, path, kids[..i]) && Grows(ds, path, kids[..i + 1])
    ensures IsPath(ds, longer) && Last(longer) == kids[i] && |path| < |longer| <= |ds|
    ensures ExpandAll(ds, path, kids[..i + 1]) == ExpandAll(ds, path, kids[..i]) + [Expand(ds, longer)]
  {
    PathSnoc(ds, path, kids[i]);
    assert kids[..i + 1][..i] == kids[..i];
  }

  /** `recursive_append_child_districts` on a copy of the node at the end of `path`. */
  method AppendChildren(ghost ds: seq<District>, ghost path: seq<int>, id: int, nodes: Table) returns (node: Tree)
    requires Keyed(ds) && IsPath(ds, path) && id == Last(path)
    requires Groups(nodes, ds)
    ensures node == Expand(ds, path)
    decreases |ds| - |path|, 1
  {
    ExpandIs(ds, path);
    var childs := AppendEach(ds, path, Lookup(nodes, id), nodes);
    node := Tree(id, childs);
  }

  /** The loop over the children. */
  method AppendEach(ghost ds: seq<District>, ghost path: seq<int>, kids: seq<int>, nodes: Table)
    returns (childs: seq<Tree>)
    requires Keyed(ds) && Grows(ds, path, kids) && |path| <= |ds|
    requires Groups(nodes, ds)
    ensures childs == ExpandAll(ds, path, kids)
    decreases |ds| - |path|, 0
  {
    childs := [];
    for i := 0 to |kids|
      invariant Grows(ds, path, kids[..i]) && childs == ExpandAll(ds, path, kids[..i])
    {
      ghost var longer := path + [kids[i]];
      ExpandAllStep(ds, path, kids, i, longer);
      var child := AppendChildren(ds, longer, kids[i], nodes);
      childs := childs + [child];
    }
    assert kids[..|kids|] == kids;
  }

  method GetDistrictJsonData(ds: seq<District>) returns (forest: seq<Tree>)
    requires Keyed(ds)
    ensures forest == Expand(ds, []).childs
    ensures Distinct(PreorderAll(forest)) && RootIds(forest) == Kids(ds, 0)
  {
    var nodes := GroupByParent(ds);
    var root := AppendChildren(ds, [], 0, nodes);
    forest := root.childs;
    ForestListsReachable(ds, 0);
  }
}
