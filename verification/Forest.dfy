// Which item contains which, over all rules: internal/engine/forest.go.
module Forest {
  import opened Paths
  import opened Catalog

  /** The cleaned path of every item that has one. */
  type PathMap = map<Ref, CleanPath>

  function PathsOf(fs: seq<Finding>): PathMap {
    map r | r in AllRefs(fs) && HasPath(fs, r) :: PathOf(fs, r)
  }

  /** a's path strictly contains b's, or they are equal and a comes first. */
  predicate Above(ps: PathMap, a: Ref, b: Ref) {
    && a in ps && b in ps
    && Contains(ps[a], ps[b])
    && (ps[a] == ps[b] ==> RefLess(a, b))
  }

  lemma AboveTransitive(ps: PathMap, a: Ref, b: Ref, c: Ref)
    requires Above(ps, a, b) && Above(ps, b, c)
    ensures Above(ps, a, c)
  {
    assert ps[a] == ps[c] ==> ps[a] == ps[b] by { assert ps[a].comps <= ps[b].comps <= ps[c].comps; }
  }

  /** Two items above a third are above one another: containment is a forest. */
  lemma AboveChain(ps: PathMap, a: Ref, b: Ref, c: Ref)
    requires Above(ps, a, c) && Above(ps, b, c) && a != b
    ensures Above(ps, a, b) != Above(ps, b, a)
  {
    var pa, pb, pc := ps[a], ps[b], ps[c];
    if |pa.comps| <= |pb.comps| {
      assert pa.comps == pc.comps[..|pa.comps|] == pb.comps[..|pa.comps|];
    } else {
      assert pb.comps == pc.comps[..|pb.comps|] == pa.comps[..|pb.comps|];
    }
  }

  datatype Forest = Forest(parent: map<Ref, Ref>, children: map<Ref, seq<Ref>>, paths: PathMap) {
    function ChildrenOf(r: Ref): seq<Ref> {
      if r in children then children[r] else []
    }

    /** The true forest: an item's parent is the nearest one above it, and
        every item with a parent is listed once, under that parent. */
    ghost predicate Valid() {
      && (forall a, b | Above(paths, a, b) :: b in parent)
      && (forall b <- parent :: IsParent(paths, parent[b], b))
      && Lists(parent, children)
    }

    /** Every list of children follows the sort. */
    ghost predicate InOrder() {
      && (forall r <- paths :: paths[r].Valid())
      && forall p <- children :: ByPlace(paths, children[p])
    }
  }

  predicate Precedes(ps: PathMap, a: Ref, b: Ref) {
    a in ps && b in ps && NodeLess(Node(a, Key(ps[a])), Node(b, Key(ps[b])))
  }

  ghost predicate ByPlace(ps: PathMap, rs: seq<Ref>) {
    forall i, j | 0 <= i < j < |rs| :: Precedes(ps, rs[i], rs[j])
  }

  ghost predicate IsParent(ps: PathMap, p: Ref, b: Ref) {
    && Above(ps, p, b)
    && (forall a | Above(ps, a, b) :: a == p || Above(ps, a, p))
  }

  /** The children lists are the parent map turned round, nothing twice. */
  ghost predicate Lists(parent: map<Ref, Ref>, children: map<Ref, seq<Ref>>) {
    && (forall p, c :: p in children && c in children[p] <==> c in parent && parent[c] == p)
    && (forall p, i, j | p in children && 0 <= i < j < |children[p]| :: children[p][i] != children[p][j])
  }

  // ---- the sort ----

  datatype Node = Node(ref: Ref, key: string)

  predicate NodeLess(a: Node, b: Node) {
    Less(a.key, b.key) || (a.key == b.key && RefLess(a.ref, b.ref))
  }

  ghost predicate NodesOf(ps: PathMap, ns: seq<Node>) {
    && (forall n <- ns :: n.ref in ps && n.key == Key(ps[n.ref]))
    && (forall r <- ps :: Node(r, Key(ps[r])) in ns)
  }

  /** Above, as the sort sees it. */
  predicate Over(a: Node, b: Node) {
    NodeLess(a, b) && a.key <= b.key
  }

  ghost predicate Nearest(ns: seq<Node>, m: Node, n: Node) {
    m in ns && Over(m, n) && forall a <- ns | Over(a, n) :: a == m || Over(a, m)
  }

  ghost predicate Sorted(ns: seq<Node>) {
    forall i, j | 0 <= i < j < |ns| :: NodeLess(ns[i], ns[j])
  }

  lemma NodeOrder(a: Node, b: Node, c: Node)
    ensures NodeLess(a, b) && NodeLess(b, c) ==> NodeLess(a, c)
    ensures a.ref != b.ref ==> NodeLess(a, b) != NodeLess(b, a)
    ensures !NodeLess(a, a)
  {
    LessTotal(a.key, b.key);
    LessIrreflexive(a.key);
    if Less(a.key, b.key) && Less(b.key, c.key) { LessTransitive(a.key, b.key, c.key); }
  }

  /** sort.Slice, as an insertion. */
  function Insert(n: Node, ns: seq<Node>): (r: seq<Node>)
    requires Sorted(ns) && forall m <- ns :: m.ref != n.ref
    ensures Sorted(r)
    ensures forall m :: m in r <==> m == n || m in ns
  {
    if ns == [] then [n]
    else if NodeLess(n, ns[0]) then
      assert forall m <- ns[1..] :: NodeLess(n, m) by {
        forall m <- ns[1..] ensures NodeLess(n, m) { NodeOrder(n, ns[0], m); }
      }
      [n] + ns
    else
      var rest := Insert(n, ns[1..]);
      assert forall m <- rest :: NodeLess(ns[0], m) by { NodeOrder(ns[0], n, n); }
      assert forall m <- ns :: m == ns[0] || m in ns[1..];
      [ns[0]] + rest
  }

  function SortNodes(ns: seq<Node>): (r: seq<Node>)
    requires forall i, j | 0 <= i < j < |ns| :: ns[i].ref != ns[j].ref
    ensures Sorted(r)
    ensures forall m :: m in r <==> m in ns
  {
    if ns == [] then []
    else
      assert forall m <- ns :: m == ns[0] || m in ns[1..];
      Insert(ns[0], SortNodes(ns[1..]))
  }

  /** In sorted order, above is "comes earlier, and its key is a prefix". */
  lemma AboveIsEarlierPrefix(ps: PathMap, a: Node, b: Node)
    requires a.ref in ps && ps[a.ref].Valid() && a.key == Key(ps[a.ref])
    requires b.ref in ps && ps[b.ref].Valid() && b.key == Key(ps[b.ref])
    ensures Above(ps, a.ref, b.ref) <==> Over(a, b)
  {
    KeyPrefixIsContainment(ps[a.ref], ps[b.ref]);
    LessIrreflexive(a.key);
    if a.key <= b.key { PrefixLess(a.key, b.key); }
  }

  // ---- the stack walk ----

  /** The stack after node i: exactly the nodes up to i whose key opens i's. */
  ghost predicate StackOf(ns: seq<Node>, done: nat, key: string, stack: seq<Node>)
    requires done <= |ns|
  {
    && Sorted(stack)
    && (forall n :: n in stack <==> n in ns[..done] && n.key <= key)
  }

  lemma StackCarries(ns: seq<Node>, i: nat, stack: seq<Node>, kept: seq<Node>)
    requires 0 < i < |ns| && Sorted(ns)
    requires StackOf(ns, i, ns[i - 1].key, stack)
    requires kept <= stack
    requires forall k | |kept| <= k < |stack| :: !(stack[k].key <= ns[i].key)
    requires kept != [] ==> kept[|kept| - 1].key <= ns[i].key
    ensures StackOf(ns, i, ns[i].key, kept)
  {
    var top := ns[i - 1].key;
    forall k | 0 <= k < |kept| ensures kept[k].key <= ns[i].key {
      var last := kept[|kept| - 1];
      if k < |kept| - 1 {
        assert kept[k] in stack && last in stack && NodeLess(kept[k], last);
        PrefixOfSmaller(kept[k], last, top);
      }
    }
    forall n | n in ns[..i] && n.key <= ns[i].key ensures n in kept {
      var j :| 0 <= j < i && ns[j] == n;
      assert j == i - 1 || NodeLess(n, ns[i - 1]);
      assert NodeLess(ns[i - 1], ns[i]);
      PrefixBlock(n.key, top, ns[i].key);
      var k :| 0 <= k < |stack| && stack[k] == n;
      assert k < |kept|;
    }
  }

  lemma PrefixOfSmaller(a: Node, b: Node, whole: string)
    requires NodeLess(a, b) && a.key <= whole && b.key <= whole
    ensures a.key <= b.key
  {
    if |b.key| < |a.key| {
      PrefixChain(b.key, a.key, whole);
      PrefixLess(b.key, a.key);
      LessTotal(a.key, b.key);
    } else {
      PrefixChain(a.key, b.key, whole);
    }
  }

  /** The top of the stack is the nearest item above the next node. */
  lemma TopIsNearest(ns: seq<Node>, i: nat, stack: seq<Node>)
    requires i < |ns| && Sorted(ns)
    requires StackOf(ns, i, ns[i].key, stack)
    ensures stack == [] ==> forall a <- ns :: !Over(a, ns[i])
    ensures stack != [] ==> Nearest(ns, stack[|stack| - 1], ns[i])
  {
    var n := ns[i];
    forall a <- ns | Over(a, n)
      ensures stack != []
      ensures a == stack[|stack| - 1] || Over(a, stack[|stack| - 1])
    {
      EarlierInPrefix(ns, i, a);
      assert a in stack;
      var k :| 0 <= k < |stack| && stack[k] == a;
      var top := stack[|stack| - 1];
      if k < |stack| - 1 {
        assert top in stack && top in ns[..i];
        PrefixOfSmaller(a, top, n.key);
      }
    }
    if stack != [] {
      var top := stack[|stack| - 1];
      assert top in stack && top in ns[..i];
    }
  }

  lemma EarlierInPrefix(ns: seq<Node>, i: nat, m: Node)
    requires i < |ns| && Sorted(ns) && m in ns && NodeLess(m, ns[i])
    ensures m in ns[..i]
  {
    var j :| 0 <= j < |ns| && ns[j] == m;
    NodeOrder(m, ns[i], m);
    NodeOrder(m, m, m);
    assert j < i;
  }

  /** The inner loop: drop what does not contain node i. */
  method Pop(ns: seq<Node>, i: nat, before: seq<Node>) returns (stack: seq<Node>)
    requires i < |ns| && Sorted(ns)
    requires if i == 0 then before == [] else StackOf(ns, i, ns[i - 1].key, before)
    ensures StackOf(ns, i, ns[i].key, stack)
  {
    stack := before;
    while stack != [] && !(stack[|stack| - 1].key <= ns[i].key)
      invariant stack <= before
      invariant forall k | |stack| <= k < |before| :: !(before[k].key <= ns[i].key)
    {
      stack := stack[..|stack| - 1];
    }
    if i > 0 { StackCarries(ns, i, before, stack); }
  }

  ghost predicate Walked(ns: seq<Node>, i: nat, stack: seq<Node>, parent: map<Ref, Ref>, children: map<Ref, seq<Ref>>)
    requires i <= |ns|
  {
    && (if i == 0 then stack == [] else StackOf(ns, i, ns[i - 1].key, stack))
    && ParentsOf(ns, i, parent)
    && Lists(parent, children)
  }

  ghost predicate UniqueRefs(ns: seq<Node>) {
    forall i, j | 0 <= i < j < |ns| :: ns[i].ref != ns[j].ref
  }

  /** In order, one node for each item. */
  lemma SortedUnique(ns: seq<Node>)
    requires Sorted(ns)
    requires forall n, m | n in ns && m in ns && n.ref == m.ref :: n == m
    ensures UniqueRefs(ns)
  {
    forall i, j | 0 <= i < j < |ns| ensures ns[i].ref != ns[j].ref {
      NodeOrder(ns[i], ns[i], ns[i]);
      assert NodeLess(ns[i], ns[j]);
    }
  }

  /** a's node comes before b's. */
  ghost predicate Earlier(ns: seq<Node>, a: Ref, b: Ref) {
    exists i, j :: 0 <= i < j < |ns| && ns[i].ref == a && ns[j].ref == b
  }

  /** The children of each item among the first n nodes, as they come. */
  ghost predicate AsTheyCome(ns: seq<Node>, n: nat, children: map<Ref, seq<Ref>>)
    requires n <= |ns|
  {
    && (forall p, c | p in children && c in children[p] :: Seen(ns, n, c))
    && (forall p, i, j | p in children && 0 <= i < j < |children[p]| :: Earlier(ns, children[p][i], children[p][j]))
  }

  lemma OneMoreComes(ns: seq<Node>, n: nat, children: map<Ref, seq<Ref>>, p: Ref)
    requires n < |ns| && AsTheyCome(ns, n, children)
    ensures AsTheyCome(ns, n + 1, children)
    ensures AsTheyCome(ns, n + 1, children[p := (if p in children then children[p] else []) + [ns[n].ref]])
  {
    forall q, c | q in children && c in children[q] ensures Seen(ns, n + 1, c) { ComesBefore(ns, n, c); }
    var row := if p in children then children[p] else [];
    forall c <- row ensures Seen(ns, n, c) { assert p in children && c in children[p]; }
    RowGrows(ns, n, row);
    var all := row + [ns[n].ref];
    var grown := children[p := all];
    forall q, c | q in grown && c in grown[q] ensures Seen(ns, n + 1, c) {
      if q == p {
        assert c in all;
      } else {
        assert q in children && c in children[q];
        ComesBefore(ns, n, c);
      }
    }
    forall q, i, j | q in grown && 0 <= i < j < |grown[q]| ensures Earlier(ns, grown[q][i], grown[q][j]) {
      if q == p { assert Earlier(ns, all[i], all[j]); }
    }
  }

  lemma ComesBefore(ns: seq<Node>, n: nat, c: Ref)
    requires n < |ns| && Seen(ns, n, c)
    ensures Seen(ns, n + 1, c) && Earlier(ns, c, ns[n].ref)
  {
    var i :| 0 <= i < n && ns[i].ref == c;
    assert i < n < |ns| && ns[i].ref == c && ns[n].ref == ns[n].ref;
  }

  lemma RowGrows(ns: seq<Node>, n: nat, row: seq<Ref>)
    requires n < |ns| && forall c <- row :: Seen(ns, n, c)
    requires forall i, j | 0 <= i < j < |row| :: Earlier(ns, row[i], row[j])
    ensures forall c <- row + [ns[n].ref] :: Seen(ns, n + 1, c)
    ensures var all := row + [ns[n].ref]; forall i, j | 0 <= i < j < |all| :: Earlier(ns, all[i], all[j])
  {
    forall c <- row ensures Seen(ns, n + 1, c) && Earlier(ns, c, ns[n].ref) { ComesBefore(ns, n, c); }
    assert ns[n].ref == ns[n].ref && n < n + 1;
    assert Seen(ns, n + 1, ns[n].ref);
    forall i | 0 <= i < |row| ensures Earlier(ns, row[i], ns[n].ref) { assert row[i] in row; }
  }

  /** One walk over the sorted nodes gives every node its nearest container. */
  method Walk(ns: seq<Node>) returns (parent: map<Ref, Ref>, children: map<Ref, seq<Ref>>)
    requires Sorted(ns)
    requires UniqueRefs(ns)
    ensures ParentsOf(ns, |ns|, parent)
    ensures Lists(parent, children) && AsTheyCome(ns, |ns|, children)
  {
    parent, children := map[], map[];
    var stack: seq<Node> := [];
    for i := 0 to |ns|
      invariant Walked(ns, i, stack, parent, children) && AsTheyCome(ns, i, children)
    {
      stack, parent, children := WalkOne(ns, i, stack, parent, children);
    }
  }

  /** Node i: what it is not inside comes off the stack, it goes under the top, and on top of it. */
  method WalkOne(ns: seq<Node>, i: nat, stack0: seq<Node>, parent0: map<Ref, Ref>, children0: map<Ref, seq<Ref>>)
    returns (stack: seq<Node>, parent: map<Ref, Ref>, children: map<Ref, seq<Ref>>)
    requires i < |ns| && Sorted(ns) && Walked(ns, i, stack0, parent0, children0)
    requires UniqueRefs(ns) && AsTheyCome(ns, i, children0)
    ensures Walked(ns, i + 1, stack, parent, children) && AsTheyCome(ns, i + 1, children)
  {
    var open := Pop(ns, i, stack0);
    parent, children := Attach(open, ns[i].ref, parent0, children0);
    WalkStep(ns, i, open, parent0, children0, parent, children);
    OneMoreComes(ns, i, children0, if open != [] then open[|open| - 1].ref else ns[i].ref);
    stack := open + [ns[i]];
  }

  /** The item goes under the top of the stack, when there is one. */
  method Attach(stack: seq<Node>, ref: Ref, parent0: map<Ref, Ref>, children0: map<Ref, seq<Ref>>)
    returns (parent: map<Ref, Ref>, children: map<Ref, seq<Ref>>)
    ensures stack == [] ==> parent == parent0 && children == children0
    ensures stack != [] ==>
      var p := stack[|stack| - 1].ref;
      && parent == parent0[ref := p]
      && children == children0[p := (if p in children0 then children0[p] else []) + [ref]]
  {
    parent, children := parent0, children0;
    if stack != [] {
      var p := stack[|stack| - 1].ref;
      parent := parent[ref := p];
      children := children[p := (if p in children then children[p] else []) + [ref]];
    }
  }

  lemma WalkStep(ns: seq<Node>, i: nat, stack: seq<Node>, parent0: map<Ref, Ref>, children0: map<Ref, seq<Ref>>,
                 parent: map<Ref, Ref>, children: map<Ref, seq<Ref>>)
    requires i < |ns| && Sorted(ns) && StackOf(ns, i, ns[i].key, stack)
    requires UniqueRefs(ns)
    requires ParentsOf(ns, i, parent0) && Lists(parent0, children0)
    requires stack == [] ==> parent == parent0 && children == children0
    requires stack != [] ==>
      var p, c := stack[|stack| - 1].ref, ns[i].ref;
      && parent == parent0[c := p]
      && children == children0[p := (if p in children0 then children0[p] else []) + [c]]
    ensures Walked(ns, i + 1, stack + [ns[i]], parent, children)
  {
    TopIsNearest(ns, i, stack);
    assert forall j | 0 <= j < i :: ns[j].ref != ns[i].ref;
    PushedStack(ns, i, stack);
    if stack == [] {
      RootAdded(ns, i, parent);
    } else {
      ParentAdded(ns, i, parent0, stack[|stack| - 1]);
      ListedChild(parent0, children0, stack[|stack| - 1].ref, ns[i].ref);
    }
  }

  lemma PushedStack(ns: seq<Node>, i: nat, stack: seq<Node>)
    requires i < |ns| && Sorted(ns) && StackOf(ns, i, ns[i].key, stack)
    ensures StackOf(ns, i + 1, ns[i].key, stack + [ns[i]])
  {
    assert ns[..i + 1] == ns[..i] + [ns[i]];
    assert forall m <- stack :: m in ns[..i] && NodeLess(m, ns[i]);
  }

  /** The first n nodes have their nearest containers as parents. */
  ghost predicate ParentsOf(ns: seq<Node>, n: nat, parent: map<Ref, Ref>)
    requires n <= |ns|
  {
    && (forall b <- parent :: Seen(ns, n, b))
    && (forall i | 0 <= i < n :: ParentIs(ns, ns[i], Lookup(parent, ns[i].ref)))
  }

  ghost predicate Seen(ns: seq<Node>, n: nat, b: Ref)
    requires n <= |ns|
  {
    exists i :: 0 <= i < n && ns[i].ref == b
  }

  ghost predicate ParentIs(ns: seq<Node>, n: Node, p: Option<Ref>) {
    match p
    case Some(r) => exists m :: Nearest(ns, m, n) && r == m.ref
    case None => forall a <- ns :: !Over(a, n)
  }

  function Lookup(parent: map<Ref, Ref>, r: Ref): Option<Ref> {
    if r in parent then Some(parent[r]) else None
  }

  lemma ListedChild(parent: map<Ref, Ref>, children: map<Ref, seq<Ref>>, p: Ref, c: Ref)
    requires Lists(parent, children) && c !in parent
    ensures Lists(parent[c := p], children[p := (if p in children then children[p] else []) + [c]])
  {
    var row := if p in children then children[p] else [];
    var grown := children[p := row + [c]];
    assert c !in row;
    forall q, d ensures q in grown && d in grown[q] <==> d in parent[c := p] && parent[c := p][d] == q {
      assert q == p ==> (d in grown[q] <==> d in row || d == c);
    }
  }

  lemma ParentAdded(ns: seq<Node>, i: nat, parent: map<Ref, Ref>, m: Node)
    requires i < |ns| && ParentsOf(ns, i, parent) && Nearest(ns, m, ns[i])
    requires forall j | 0 <= j < i :: ns[j].ref != ns[i].ref
    ensures ns[i].ref !in parent
    ensures ParentsOf(ns, i + 1, parent[ns[i].ref := m.ref])
  {
    var grown := parent[ns[i].ref := m.ref];
    forall j | 0 <= j < i + 1 ensures ParentIs(ns, ns[j], Lookup(grown, ns[j].ref)) {
      if j < i {
        assert Lookup(grown, ns[j].ref) == Lookup(parent, ns[j].ref);
      }
    }
    forall b <- grown ensures Seen(ns, i + 1, b) {
      assert b == ns[i].ref || Seen(ns, i, b);
    }
  }

  lemma RootAdded(ns: seq<Node>, i: nat, parent: map<Ref, Ref>)
    requires i < |ns| && ParentsOf(ns, i, parent) && forall a <- ns :: !Over(a, ns[i])
    requires forall j | 0 <= j < i :: ns[j].ref != ns[i].ref
    ensures ParentsOf(ns, i + 1, parent)
  {
    forall b <- parent ensures Seen(ns, i + 1, b) { assert Seen(ns, i, b); }
  }

  lemma NearestIsParent(ps: PathMap, ns: seq<Node>, m: Node, n: Node)
    requires forall r <- ps :: ps[r].Valid()
    requires NodesOf(ps, ns) && n in ns && Nearest(ns, m, n)
    ensures IsParent(ps, m.ref, n.ref)
  {
    AboveIsEarlierPrefix(ps, m, n);
    forall a | Above(ps, a, n.ref) ensures a == m.ref || Above(ps, a, m.ref) {
      var na := Node(a, Key(ps[a]));
      AboveIsEarlierPrefix(ps, na, n);
      AboveIsEarlierPrefix(ps, na, m);
    }
  }

  lemma WalkedParent(ps: PathMap, ns: seq<Node>, parent: map<Ref, Ref>, b: Ref)
    requires forall r <- ps :: ps[r].Valid()
    requires NodesOf(ps, ns) && ParentsOf(ns, |ns|, parent) && b in ps
    ensures b !in parent ==> forall a :: !Above(ps, a, b)
    ensures b in parent ==> IsParent(ps, parent[b], b)
  {
    var n := Node(b, Key(ps[b]));
    var i :| 0 <= i < |ns| && ns[i] == n;
    assert ParentIs(ns, ns[i], Lookup(parent, b));
    if b in parent {
      var m :| Nearest(ns, m, n) && parent[b] == m.ref;
      NearestIsParent(ps, ns, m, n);
    } else {
      forall a ensures !Above(ps, a, b) {
        if Above(ps, a, b) {
          AboveIsEarlierPrefix(ps, Node(a, Key(ps[a])), n);
          assert false;
        }
      }
    }
  }

  lemma WalkedForest(ns: seq<Node>, f: Forest)
    requires forall r <- f.paths :: f.paths[r].Valid()
    requires NodesOf(f.paths, ns) && ParentsOf(ns, |ns|, f.parent) && Lists(f.parent, f.children)
    ensures f.Valid()
  {
    forall b <- f.paths
      ensures b !in f.parent ==> forall a :: !Above(f.paths, a, b)
      ensures b in f.parent ==> IsParent(f.paths, f.parent[b], b)
    {
      WalkedParent(f.paths, ns, f.parent, b);
    }
    forall b <- f.parent ensures b in f.paths {
      assert Seen(ns, |ns|, b);
      var i :| 0 <= i < |ns| && ns[i].ref == b;
      assert ns[i] in ns;
    }
  }

  lemma WalkedInOrder(ns: seq<Node>, f: Forest)
    requires NodesOf(f.paths, ns) && Sorted(ns) && AsTheyCome(ns, |ns|, f.children)
    requires forall r <- f.paths :: f.paths[r].Valid()
    ensures f.InOrder()
  {
    forall p, i, j | p in f.children && 0 <= i < j < |f.children[p]|
      ensures Precedes(f.paths, f.children[p][i], f.children[p][j])
    {
      assert Earlier(ns, f.children[p][i], f.children[p][j]);
      EarlierPrecedes(f.paths, ns, f.children[p][i], f.children[p][j]);
    }
  }

  lemma EarlierPrecedes(ps: PathMap, ns: seq<Node>, a: Ref, b: Ref)
    requires NodesOf(ps, ns) && Sorted(ns) && Earlier(ns, a, b)
    ensures Precedes(ps, a, b)
  {
    var i, j :| 0 <= i < j < |ns| && ns[i].ref == a && ns[j].ref == b;
    assert ns[i] in ns && ns[j] in ns;
  }

  /** What is at one item or below it comes before what is at or below a later one
      that is not below it. */
  lemma SubtreesInOrder(ps: PathMap, k: Ref, l: Ref, c: Ref, d: Ref)
    requires forall r <- ps :: ps[r].Valid()
    requires Precedes(ps, k, l) && !Above(ps, k, l)
    requires (c == k || Above(ps, k, c)) && (d == l || Above(ps, l, d))
    ensures Precedes(ps, c, d)
  {
    var nk, nl, nc, nd := Node(k, Key(ps[k])), Node(l, Key(ps[l])), Node(c, Key(ps[c])), Node(d, Key(ps[d]));
    AboveIsEarlierPrefix(ps, nk, nl);
    AboveIsEarlierPrefix(ps, nk, nc);
    AboveIsEarlierPrefix(ps, nl, nd);
    KeysApart(nk.key, nl.key, nc.key, nd.key);
  }

  lemma KeysApart(k: string, l: string, c: string, d: string)
    requires (Less(k, l) || k == l) && !(k <= l) && k <= c && l <= d
    ensures Less(c, d)
  {
    PrefixLess(l, d);
    if l != d && k != l { LessTransitive(k, l, d); }
    LessTotal(c, d);
    if !Less(c, d) {
      if l != d && c != d { LessTransitive(l, d, c); }
      PrefixBlock(k, l, c);
    }
  }

  /** buildForest: collect, sort, and one walk over a stack. */
  method BuildForest(fs: seq<Finding>) returns (f: Forest)
    ensures f.Valid() && f.InOrder() && f.paths == PathsOf(fs)
  {
    var nodes, paths := Collect(fs);
    var ns := SortNodes(nodes);
    SortedUnique(ns);
    var parent, children := Walk(ns);
    f := Forest(parent, children, paths);
    WalkedForest(ns, f);
    WalkedInOrder(ns, f);
  }

  method Collect(fs: seq<Finding>) returns (nodes: seq<Node>, paths: PathMap)
    ensures paths == PathsOf(fs) && NodesOf(paths, nodes)
    ensures forall r <- paths :: paths[r].Valid()
    ensures forall i, j | 0 <= i < j < |nodes| :: nodes[i].ref != nodes[j].ref
  {
    nodes, paths := [], map[];
    var fi := 0;
    while fi < |fs|
      invariant 0 <= fi <= |fs|
      invariant Collected(fs, fi, 0, nodes, paths)
    {
      var ii := 0;
      while ii < |fs[fi].items|
        invariant 0 <= ii <= |fs[fi].items|
        invariant Collected(fs, fi, ii, nodes, paths)
      {
        nodes, paths := CollectItem(fs, Ref(fi, ii), nodes, paths);
        ii := ii + 1;
      }
      RowCollected(fs, fi, nodes, paths);
      fi := fi + 1;
    }
    AllCollected(fs, nodes, paths);
  }

  method CollectItem(fs: seq<Finding>, r: Ref, nodes0: seq<Node>, paths0: PathMap)
    returns (nodes: seq<Node>, paths: PathMap)
    requires ValidRef(fs, r) && Collected(fs, r.finding, r.item, nodes0, paths0)
    ensures Collected(fs, r.finding, r.item + 1, nodes, paths)
  {
    nodes, paths := nodes0, paths0;
    var it := ItemAt(fs, r);
    if it.path == "" {
      CollectNone(fs, r, nodes, paths);
    } else {
      var p := Clean(it.path);
      CollectOne(fs, r, p, nodes, paths);
      paths := paths[r := p];
      nodes := nodes + [Node(r, Key(p))];
    }
  }

  lemma RowCollected(fs: seq<Finding>, fi: nat, nodes: seq<Node>, paths: PathMap)
    requires fi < |fs| && Collected(fs, fi, |fs[fi].items|, nodes, paths)
    ensures Collected(fs, fi + 1, 0, nodes, paths)
  {
  }

  lemma AllCollected(fs: seq<Finding>, nodes: seq<Node>, paths: PathMap)
    requires Collected(fs, |fs|, 0, nodes, paths)
    ensures paths == PathsOf(fs) && NodesOf(paths, nodes)
    ensures forall r <- paths :: paths[r].Valid()
  {
    assert forall r :: r in paths <==> HasPath(fs, r);
  }

  lemma CollectOne(fs: seq<Finding>, r: Ref, p: CleanPath, nodes: seq<Node>, paths: PathMap)
    requires Collected(fs, r.finding, r.item, nodes, paths) && HasPath(fs, r) && p == PathOf(fs, r)
    ensures Collected(fs, r.finding, r.item + 1, nodes + [Node(r, Key(p))], paths[r := p])
  {
    assert r !in paths;
    RefsNext(fs, r, p, paths, paths[r := p]);
    OneNodeMore(nodes, r, p, paths, paths[r := p]);
    NodesApart(nodes, Node(r, Key(p)), paths);
  }

  lemma OneNodeMore(nodes: seq<Node>, r: Ref, p: CleanPath, paths: PathMap, grown: PathMap)
    requires EachHasNode(nodes, paths) && r !in paths && grown == paths[r := p]
    ensures EachHasNode(nodes + [Node(r, Key(p))], grown)
  {
    var n := Node(r, Key(p));
    forall q | q in grown ensures Node(q, Key(grown[q])) in nodes + [n] {
      if q != r { assert Node(q, Key(paths[q])) in nodes; }
    }
    forall m <- nodes + [n] ensures m.ref in grown && m.key == Key(grown[m.ref]) {
      if m in nodes { assert m.ref in paths; }
    }
  }

  lemma RefsNext(fs: seq<Finding>, r: Ref, p: CleanPath, paths: PathMap, grown: PathMap)
    requires HasPath(fs, r) && p == PathOf(fs, r) && grown == paths[r := p]
    requires forall q :: q in paths <==> HasPath(fs, q) && RefLess(q, r)
    requires forall q <- paths :: HasPath(fs, q) && paths[q] == PathOf(fs, q)
    ensures forall q :: q in grown <==> HasPath(fs, q) && RefLess(q, Ref(r.finding, r.item + 1))
    ensures forall q <- grown :: HasPath(fs, q) && grown[q] == PathOf(fs, q)
  {
  }

  lemma NodesApart(nodes: seq<Node>, n: Node, paths: PathMap)
    requires forall i, j | 0 <= i < j < |nodes| :: nodes[i].ref != nodes[j].ref
    requires EachHasNode(nodes, paths) && n.ref !in paths
    ensures var all := nodes + [n]; forall i, j | 0 <= i < j < |all| :: all[i].ref != all[j].ref
  {
    forall i | 0 <= i < |nodes| ensures nodes[i].ref != n.ref { assert nodes[i] in nodes; }
  }

  lemma CollectNone(fs: seq<Finding>, r: Ref, nodes: seq<Node>, paths: PathMap)
    requires Collected(fs, r.finding, r.item, nodes, paths) && ValidRef(fs, r) && !HasPath(fs, r)
    ensures Collected(fs, r.finding, r.item + 1, nodes, paths)
  {
    forall q ensures RefLess(q, Ref(r.finding, r.item + 1)) <==> RefLess(q, r) || q == r {
      assert q == Ref(q.finding, q.item) && r == Ref(r.finding, r.item);
    }
  }

  /** The nodes and paths of the items before position (fi, ii). */
  ghost predicate Collected(fs: seq<Finding>, fi: nat, ii: nat, nodes: seq<Node>, paths: PathMap) {
    && (forall r :: r in paths <==> HasPath(fs, r) && RefLess(r, Ref(fi, ii)))
    && (forall r <- paths :: paths[r] == PathOf(fs, r))
    && EachHasNode(nodes, paths)
    && (forall i, j | 0 <= i < j < |nodes| :: nodes[i].ref != nodes[j].ref)
  }

  /** The nodes are those of the paths, each with its key. */
  ghost predicate EachHasNode(nodes: seq<Node>, paths: PathMap) {
    && (forall r | r in paths :: Node(r, Key(paths[r])) in nodes)
    && (forall n <- nodes :: n.ref in paths && n.key == Key(paths[n.ref]))
  }

  // ---- reading the forest ----

  function Depth(ps: PathMap, r: Ref): nat {
    if r in ps then |ps[r].comps| else 0
  }

  /** Going up, the path shortens, or stays and the catalog position drops. */
  lemma AboveDescends(ps: PathMap, a: Ref, b: Ref)
    requires Above(ps, a, b)
    ensures Depth(ps, a) < Depth(ps, b) || (Depth(ps, a) == Depth(ps, b) && RefLess(a, b))
  {
    if |ps[a].comps| == |ps[b].comps| { assert ps[a] == ps[b]; }
  }

  /** out lists exactly what is above ref, nearest first. */
  ghost predicate NearestFirst(ps: PathMap, out: seq<Ref>, ref: Ref) {
    && (forall a :: a in out <==> Above(ps, a, ref))
    && (forall i, j | 0 <= i < j < |out| :: Above(ps, out[j], out[i]))
  }

  /** Climbed from ref to cur: all of the way up to cur, and the rest above it. */
  ghost predicate Climbed(ps: PathMap, out: seq<Ref>, ref: Ref, cur: Ref) {
    && cur == (if out == [] then ref else out[|out| - 1])
    && (forall a <- out :: Above(ps, a, ref))
    && (forall a | Above(ps, a, ref) :: a in out || Above(ps, a, cur))
    && (forall i, j | 0 <= i < j < |out| :: Above(ps, out[j], out[i]))
  }

  lemma ClimbOne(ps: PathMap, out: seq<Ref>, ref: Ref, cur: Ref, p: Ref)
    requires Climbed(ps, out, ref, cur) && IsParent(ps, p, cur)
    ensures Climbed(ps, out + [p], ref, p)
  {
    forall i | 0 <= i < |out| ensures Above(ps, p, out[i]) {
      if out[i] != cur { AboveTransitive(ps, p, cur, out[i]); }
    }
    if cur != ref { AboveTransitive(ps, p, cur, ref); }
    forall a | Above(ps, a, ref) ensures a in out + [p] || Above(ps, a, p) {
    }
  }

  method Ancestors(f: Forest, ref: Ref) returns (out: seq<Ref>)
    requires f.Valid()
    ensures NearestFirst(f.paths, out, ref)
  {
    out := [];
    var cur := ref;
    while cur in f.parent
      invariant Climbed(f.paths, out, ref, cur)
      decreases Depth(f.paths, cur), cur.finding, cur.item
    {
      ClimbOne(f.paths, out, ref, cur, f.parent[cur]);
      AboveDescends(f.paths, f.parent[cur], cur);
      cur := f.parent[cur];
      out := out + [cur];
    }
  }

  /** The items at exactly ref's path under earlier rules. */
  method SharesPath(f: Forest, ref: Ref) returns (out: seq<Ref>)
    requires f.Valid()
    ensures forall a :: a in out <==> Above(f.paths, a, ref) && f.paths[a] == f.paths[ref]
    ensures forall i, j | 0 <= i < j < |out| :: Above(f.paths, out[j], out[i])
  {
    var up := Ancestors(f, ref);
    out := [];
    var i := 0;
    while i < |up|
      invariant 0 <= i <= |up|
      invariant out == up[..i]
      invariant forall k | 0 <= k < i :: Above(f.paths, up[k], ref) && f.paths[up[k]] == f.paths[ref]
    {
      assert up[i] in up;
      if f.paths[up[i]] != f.paths[ref] {
        forall k | i <= k < |up| ensures f.paths[up[k]] != f.paths[ref] {
          assert up[k] in up;
          assert k == i || Above(f.paths, up[k], up[i]);
        }
        assert up == up[..i] + up[i..];
        return;
      }
      out := out + [up[i]];
      i := i + 1;
    }
  }

  ghost predicate Apart(ps: PathMap, a: Ref, b: Ref) {
    a != b && !Above(ps, a, b) && !Above(ps, b, a)
  }

  /** Below n, everything is a child of n or below one. */
  lemma ChildTowards(f: Forest, n: Ref, d: Ref) returns (c: Ref)
    requires f.Valid() && Above(f.paths, n, d)
    ensures c in f.ChildrenOf(n) && (c == d || Above(f.paths, c, d))
    decreases Depth(f.paths, d), d.finding, d.item
  {
    var p := f.parent[d];
    if p == n {
      c := d;
    } else {
      AboveDescends(f.paths, p, d);
      c := ChildTowards(f, n, p);
      if c != p { AboveTransitive(f.paths, c, p, d); }
    }
  }

  lemma ChildrenBelow(f: Forest, n: Ref)
    requires f.Valid()
    ensures forall c <- f.ChildrenOf(n) :: Above(f.paths, n, c)
  {
    forall c <- f.ChildrenOf(n) ensures Above(f.paths, n, c) {
      assert IsParent(f.paths, f.parent[c], c);
    }
  }

  lemma SiblingsApart(f: Forest, n: Ref, c: Ref, d: Ref)
    requires f.Valid()
    requires c in f.ChildrenOf(n) && d in f.ChildrenOf(n) && c != d
    ensures Apart(f.paths, c, d)
  {
    SiblingNotAbove(f, n, c, d);
    SiblingNotAbove(f, n, d, c);
  }

  lemma SiblingNotAbove(f: Forest, n: Ref, c: Ref, d: Ref)
    requires f.Valid()
    requires c in f.parent && d in f.parent && f.parent[c] == f.parent[d] == n
    ensures !Above(f.paths, c, d)
  {
    assert IsParent(f.paths, n, c) && IsParent(f.paths, n, d);
    if Above(f.paths, c, d) && c != n { AboveTransitive(f.paths, n, c, n); }
  }

  /** What hangs off n is apart from whatever n is apart from. */
  lemma BelowApart(ps: PathMap, n: Ref, c: Ref, s: Ref)
    requires Above(ps, n, c) && Apart(ps, n, s)
    ensures Apart(ps, c, s)
  {
    if Above(ps, c, s) { AboveTransitive(ps, n, c, s); }
    if Above(ps, s, c) { AboveChain(ps, s, n, c); }
  }

  /** Visited, and still to visit from the stack: every item below ref once. */
  ghost predicate Visiting(ps: PathMap, ref: Ref, out: seq<Ref>, stack: seq<Ref>) {
    && AllBelow(ps, ref, out) && AllBelow(ps, ref, stack)
    && Complete(ps, ref, out, stack)
    && Distinct(out)
    && Ahead(ps, out, stack)
    && PairsApart(ps, stack)
  }

  ghost predicate AllBelow(ps: PathMap, ref: Ref, rs: seq<Ref>) {
    forall d <- rs :: Above(ps, ref, d)
  }

  ghost predicate Complete(ps: PathMap, ref: Ref, out: seq<Ref>, stack: seq<Ref>) {
    forall d | Above(ps, ref, d) :: d in out || Reaches(ps, stack, d)
  }

  ghost predicate Reaches(ps: PathMap, stack: seq<Ref>, d: Ref) {
    exists s <- stack :: s == d || Above(ps, s, d)
  }

  ghost predicate Distinct<T>(rs: seq<T>) {
    forall i, j | 0 <= i < j < |rs| :: rs[i] != rs[j]
  }

  /** Nothing on the stack is, or is above, something visited already. */
  ghost predicate Ahead(ps: PathMap, out: seq<Ref>, stack: seq<Ref>) {
    forall s, d | s in stack && d in out :: s != d && !Above(ps, s, d)
  }

  ghost predicate PairsApart(ps: PathMap, stack: seq<Ref>) {
    forall i, j | 0 <= i < j < |stack| :: Apart(ps, stack[i], stack[j])
  }

  lemma VisitOne(f: Forest, ref: Ref, out: seq<Ref>, rest: seq<Ref>, n: Ref)
    requires f.Valid() && Visiting(f.paths, ref, out, rest + [n])
    ensures n !in out && Visiting(f.paths, ref, out + [n], rest + f.ChildrenOf(n))
  {
    var stack := rest + [n];
    assert stack[|rest|] == n && n in stack;
    VisitBelow(f, ref, n);
    DistinctAppend(out, n);
    assert AllBelow(f.paths, ref, rest) by { assert forall s <- rest :: s in stack; }
    VisitAhead(f, out, rest, n);
    StackApart(f, rest, n);
    VisitComplete(f, ref, out, rest, n);
  }

  lemma DistinctAppend<T>(rs: seq<T>, r: T)
    requires Distinct(rs) && r !in rs
    ensures Distinct(rs + [r])
  {
  }

  lemma VisitBelow(f: Forest, ref: Ref, n: Ref)
    requires f.Valid() && Above(f.paths, ref, n)
    ensures AllBelow(f.paths, ref, f.ChildrenOf(n))
  {
    ChildrenBelow(f, n);
    forall c <- f.ChildrenOf(n) ensures Above(f.paths, ref, c) { AboveTransitive(f.paths, ref, n, c); }
  }

  lemma VisitAhead(f: Forest, out: seq<Ref>, rest: seq<Ref>, n: Ref)
    requires f.Valid() && Ahead(f.paths, out, rest + [n]) && PairsApart(f.paths, rest + [n])
    ensures Ahead(f.paths, out + [n], rest + f.ChildrenOf(n))
  {
    var ps, stack := f.paths, rest + [n];
    assert stack[|rest|] == n && n in stack;
    ChildrenBelow(f, n);
    forall s, d | s in rest + f.ChildrenOf(n) && d in out + [n] ensures s != d && !Above(ps, s, d) {
      if s in rest {
        var i :| 0 <= i < |rest| && rest[i] == s;
        assert stack[i] == s && s in stack;
        assert Apart(ps, stack[i], stack[|rest|]);
      } else if Above(ps, s, d) {
        AboveTransitive(ps, n, s, d);
      }
    }
  }

  lemma StackApart(f: Forest, rest: seq<Ref>, n: Ref)
    requires f.Valid() && PairsApart(f.paths, rest + [n])
    ensures PairsApart(f.paths, rest + f.ChildrenOf(n))
  {
    var stack, kids := rest + [n], f.ChildrenOf(n);
    var next := rest + kids;
    ChildrenBelow(f, n);
    forall i, j | 0 <= i < j < |next| ensures Apart(f.paths, next[i], next[j]) {
      if j < |rest| {
        assert Apart(f.paths, stack[i], stack[j]);
      } else {
        var c := kids[j - |rest|];
        assert c in kids;
        if i >= |rest| {
          assert kids[i - |rest|] in kids;
          SiblingsApart(f, n, kids[i - |rest|], c);
        } else {
          assert Apart(f.paths, stack[i], stack[|rest|]);
          BelowApart(f.paths, n, c, stack[i]);
        }
      }
    }
  }

  lemma VisitComplete(f: Forest, ref: Ref, out: seq<Ref>, rest: seq<Ref>, n: Ref)
    requires f.Valid() && Complete(f.paths, ref, out, rest + [n])
    ensures Complete(f.paths, ref, out + [n], rest + f.ChildrenOf(n))
  {
    var next := rest + f.ChildrenOf(n);
    forall d | Above(f.paths, ref, d) && d !in out && d != n ensures Reaches(f.paths, next, d) {
      assert Reaches(f.paths, rest + [n], d);
      var s :| s in rest + [n] && (s == d || Above(f.paths, s, d));
      if s == n {
        var c := ChildTowards(f, n, d);
        assert c in next;
      } else {
        assert s in next;
      }
    }
  }

  ghost function Unseen(ps: PathMap, out: seq<Ref>): set<Ref> {
    set r | r in ps && r !in out
  }

  /** Every item below ref, each once. */
  method Descendants(f: Forest, ref: Ref) returns (out: seq<Ref>)
    requires f.Valid()
    ensures forall d :: d in out <==> Above(f.paths, ref, d)
    ensures Distinct(out)
  {
    out := [];
    var stack := f.ChildrenOf(ref);
    FirstVisit(f, ref);
    while stack != []
      invariant Visiting(f.paths, ref, out, stack)
      decreases |Unseen(f.paths, out)|
    {
      var n, rest := stack[|stack| - 1], stack[..|stack| - 1];
      assert stack == rest + [n];
      VisitOne(f, ref, out, rest, n);
      VisitShrinks(f.paths, ref, out, n, stack);
      stack := rest + f.ChildrenOf(n);
      out := out + [n];
    }
  }

  lemma VisitShrinks(ps: PathMap, ref: Ref, out: seq<Ref>, n: Ref, stack: seq<Ref>)
    requires Visiting(ps, ref, out, stack) && n in stack && n !in out
    ensures |Unseen(ps, out + [n])| < |Unseen(ps, out)|
  {
    assert Above(ps, ref, n);
    assert n in Unseen(ps, out);
    assert Unseen(ps, out + [n]) == Unseen(ps, out) - {n};
  }

  lemma FirstVisit(f: Forest, ref: Ref)
    requires f.Valid()
    ensures Visiting(f.paths, ref, [], f.ChildrenOf(ref))
  {
    var kids := f.ChildrenOf(ref);
    ChildrenBelow(f, ref);
    forall d | Above(f.paths, ref, d) ensures Reaches(f.paths, kids, d) {
      var c := ChildTowards(f, ref, d);
    }
    forall i, j | 0 <= i < j < |kids| ensures Apart(f.paths, kids[i], kids[j]) {
      assert kids[i] in kids && kids[j] in kids;
      SiblingsApart(f, ref, kids[i], kids[j]);
    }
  }
}
