// The part of the disk moves and restores act on: internal/trash/move.go. A volume
// decides which names lead to the same place, as one that ignores case does.
module Disk {
  import opened Catalog
  import opened Journal

  type Place = seq<string>

  /** The inode at every place, folders included. */
  type Nodes = map<Place, nat>

  /** at: where a path leads. fold: lower case. Paths that lead to one place differ
      in case alone. */
  datatype Volume = Volume(at: string -> Place, fold: string -> string) {
    ghost predicate Valid() { forall a, b :: at(a) == at(b) ==> fold(a) == fold(b) }
  }

  predicate Free(nodes: Nodes, p: Place) { forall q <- nodes :: !(p <= q) }

  /** Every place's folder exists. */
  predicate Closed(nodes: Nodes) {
    forall q <- nodes :: q != [] ==> q[..|q| - 1] in nodes
  }

  predicate CanRename(nodes: Nodes, src: Place, dst: Place) {
    && src in nodes && Free(nodes, dst) && !(src <= dst)
    && dst != [] && dst[..|dst| - 1] in nodes
  }

  /** Where the node now at q was before src went to dst. */
  function Was(q: Place, src: Place, dst: Place): Place {
    if dst <= q then src + q[|dst|..] else q
  }

  /** Some node is at q once src went to dst. */
  predicate Reaches(nodes: Nodes, src: Place, dst: Place, q: Place) {
    if dst <= q then src + q[|dst|..] in nodes else q in nodes && !(src <= q)
  }

  function Becomes(q: Place, src: Place, dst: Place): Place {
    if src <= q then dst + q[|src|..] else q
  }

  function Renamed(nodes: Nodes, src: Place, dst: Place): Nodes {
    map q | q in (set p | p in nodes :: Becomes(p, src, dst)) && Reaches(nodes, src, dst, q) :: nodes[Was(q, src, dst)]
  }

  /** What a rename does to each place: the subtree goes along, nothing else does. */
  ghost predicate IsRenamed(nodes: Nodes, src: Place, dst: Place, after: Nodes) {
    forall q :: (q in after <==> Reaches(nodes, src, dst, q)) && (q in after ==> after[q] == nodes[Was(q, src, dst)])
  }

  lemma RenamedIs(nodes: Nodes, src: Place, dst: Place)
    ensures IsRenamed(nodes, src, dst, Renamed(nodes, src, dst))
  {
    forall q | Reaches(nodes, src, dst, q) ensures q in Renamed(nodes, src, dst) {
      var w := Was(q, src, dst);
      if dst <= q {
        assert (src + q[|dst|..])[|src|..] == q[|dst|..];
        assert dst + q[|dst|..] == q;
      }
      assert w in nodes && Becomes(w, src, dst) == q;
    }
  }

  /** Two places above one are above each other. */
  lemma Nested(a: Place, b: Place, q: Place)
    requires a <= q && b <= q
    ensures a <= b || b <= a
  {
    if |a| <= |b| {
      assert q[..|a|] == q[..|b|][..|a|];
    } else {
      assert q[..|b|] == q[..|a|][..|b|];
    }
  }

  lemma CanRenameBack(nodes: Nodes, src: Place, dst: Place, after: Nodes)
    requires CanRename(nodes, src, dst) && Closed(nodes) && IsRenamed(nodes, src, dst, after)
    ensures CanRename(after, dst, src) && after[dst] == nodes[src]
  {
    forall q <- after ensures !(src <= q) {
      if src <= q && dst <= q { Nested(src, dst, q); }
    }
    assert src + dst[|dst|..] == src;
    assert Reaches(nodes, src, dst, dst) && Was(dst, src, dst) == src;
    assert Reaches(nodes, src, dst, src[..|src| - 1]);
  }

  lemma BackAt(nodes: Nodes, src: Place, dst: Place, after: Nodes, back: Nodes, q: Place)
    requires CanRename(nodes, src, dst) && IsRenamed(nodes, src, dst, after) && IsRenamed(after, dst, src, back)
    ensures (q in back <==> q in nodes) && (q in nodes ==> back[q] == nodes[q])
  {
    if src <= q {
      var moved := dst + q[|src|..];
      assert moved[|dst|..] == q[|src|..];
      assert src + q[|src|..] == q;
      assert Reaches(nodes, src, dst, moved) <==> q in nodes;
      assert Reaches(after, dst, src, q) <==> moved in after;
    } else {
      assert Reaches(after, dst, src, q) <==> q in after && !(dst <= q);
      assert Reaches(nodes, src, dst, q) || q !in nodes || dst <= q;
    }
  }

  /** Renaming back gives the disk as it was. */
  lemma RenameBack(nodes: Nodes, src: Place, dst: Place, after: Nodes, back: Nodes)
    requires CanRename(nodes, src, dst) && IsRenamed(nodes, src, dst, after) && IsRenamed(after, dst, src, back)
    ensures back == nodes
  {
    forall q ensures (q in back <==> q in nodes) && (q in nodes ==> back[q] == nodes[q]) {
      BackAt(nodes, src, dst, after, back, q);
    }
  }

  lemma RenamedCloses(nodes: Nodes, src: Place, dst: Place, after: Nodes)
    requires CanRename(nodes, src, dst) && Closed(nodes) && IsRenamed(nodes, src, dst, after)
    ensures Closed(after)
  {
    forall q | q in after && q != [] ensures q[..|q| - 1] in after {
      UpReaches(nodes, src, dst, q);
    }
  }

  lemma UpReaches(nodes: Nodes, src: Place, dst: Place, q: Place)
    requires CanRename(nodes, src, dst) && Closed(nodes) && Reaches(nodes, src, dst, q) && q != []
    ensures Reaches(nodes, src, dst, q[..|q| - 1])
  {
    var up := q[..|q| - 1];
    if dst <= q && |q| > |dst| {
      UpInside(src, dst, q);
      assert (src + q[|dst|..])[..|src + q[|dst|..]| - 1] in nodes;
    } else if dst <= q {
      assert q == dst;
      UpStays(nodes, src, dst);
    } else {
      assert up in nodes && (src <= up ==> src <= q) && (dst <= up ==> dst <= q);
    }
  }

  lemma UpInside(src: Place, dst: Place, q: Place)
    requires dst <= q && |q| > |dst|
    ensures var from := src + q[|dst|..]; var up := q[..|q| - 1];
      dst <= up && from != [] && from[..|from| - 1] == src + up[|dst|..]
  {
  }

  lemma UpStays(nodes: Nodes, src: Place, dst: Place)
    requires CanRename(nodes, src, dst)
    ensures Reaches(nodes, src, dst, dst[..|dst| - 1])
  {
    var up := dst[..|dst| - 1];
    assert src <= up ==> src <= dst;
  }

  /** A rename moves what two parts of a disk hold as it would move each alone. */
  lemma RenamedBoth(a: Nodes, b: Nodes, src: Place, dst: Place, newA: Nodes, newB: Nodes, both: Nodes)
    requires IsRenamed(a, src, dst, newA) && IsRenamed(b, src, dst, newB) && IsRenamed(a + b, src, dst, both)
    ensures both == newA + newB
  {
    forall q ensures q in both <==> q in newA || q in newB {
      assert Reaches(a + b, src, dst, q) <==> Reaches(a, src, dst, q) || Reaches(b, src, dst, q);
    }
    forall q <- both ensures both[q] == (newA + newB)[q] {
      assert Was(q, src, dst) in b <==> q in newB;
    }
  }

  // ---- moving and restoring one item ----

  /** What an action makes on its way to a place: everything missing down to it, each
      a new item. */
  predicate Makes(nodes: Nodes, made: Nodes) {
    && (forall p <- made :: p !in nodes && (p != [] ==> p[..|p| - 1] in nodes || p[..|p| - 1] in made))
    && (forall p, q | p in made && q in made :: p <= q || q <= p)
    && (forall p, q | p in made && q in nodes :: made[p] != nodes[q])
    && (forall p, q | p in made && q in made && made[p] == made[q] :: p == q)
  }

  /** Where the mover puts an item, when the move goes through: always a name that
      is free there. known: the identity at the new place could be read. */
  datatype Landing = Landing(to: string, how: Method, known: bool)

  /** The item is there and Finder did not take it: the staging folder is made. */
  predicate Stages(v: Volume, nodes: Nodes, path: string, landing: Option<Landing>) {
    v.at(path) in nodes && !(landing.Some? && landing.value.how == Finder)
  }

  /** GuardPath and Lstat are asked first; Finder and the staging fallback then
      answer with where the item landed, staging once what it makes is there. */
  predicate Moves(v: Volume, nodes: Nodes, made: Nodes, path: string, landing: Option<Landing>) {
    && landing.Some? && landing.value.how != Export && (landing.value.how == Finder ==> made == map[])
    && v.at(path) in nodes && CanRename(nodes + made, v.at(path), v.at(landing.value.to))
  }

  function ReceiptOf(v: Volume, nodes: Nodes, path: string, landing: Landing): Receipt
    requires v.at(path) in nodes
  {
    Receipt(path, landing.to, landing.how, if landing.known then nodes[v.at(path)] else 0)
  }

  /** No longer there: nothing at the place, or another item. */
  predicate Gone(v: Volume, nodes: Nodes, r: Receipt) {
    v.at(r.to) !in nodes || (r.ino != 0 && nodes[v.at(r.to)] != r.ino)
  }

  predicate Restores(v: Volume, nodes: Nodes, r: Receipt) {
    && r.Restorable() && !Gone(v, nodes, r)
    && v.at(r.original) !in nodes && !(v.at(r.to) <= v.at(r.original))
  }

  /** A restore works exactly on a Trash or staging move whose copy is there, still the same
      item when that was recorded, with nothing where it was and that not inside the copy. */
  lemma RestoresExactly(v: Volume, nodes: Nodes, r: Receipt)
    ensures Restores(v, nodes, r) <==>
      && (r.how == Finder || r.how == Staging)
      && v.at(r.to) in nodes && (r.ino == 0 || nodes[v.at(r.to)] == r.ino)
      && v.at(r.original) !in nodes && !(v.at(r.to) <= v.at(r.original))
  {
  }

  /** The missing folders above a place are made anew. */
  function WithParents(nodes: Nodes, p: Place): Nodes {
    map q | q in nodes.Keys + (set i | 0 <= i < |p| :: p[..i]) :: if q in nodes then nodes[q] else 0
  }

  function AfterRestore(v: Volume, nodes: Nodes, r: Receipt): Nodes {
    if Restores(v, nodes, r) then Renamed(WithParents(nodes, v.at(r.original)), v.at(r.to), v.at(r.original)) else nodes
  }

  lemma {:induction false} ClosedUp(nodes: Nodes, p: Place, i: nat)
    requires Closed(nodes) && p in nodes && i <= |p|
    ensures p[..i] in nodes
    decreases |p| - i
  {
    if i < |p| {
      ClosedUp(nodes, p, i + 1);
      assert p[..i + 1][..i] == p[..i];
    } else {
      assert p[..i] == p;
    }
  }

  lemma NoParentsMade(nodes: Nodes, p: Place)
    requires Closed(nodes) && p != [] && p[..|p| - 1] in nodes
    ensures WithParents(nodes, p) == nodes
  {
    var up := p[..|p| - 1];
    forall i | 0 <= i < |p| ensures p[..i] in nodes {
      ClosedUp(nodes, up, i);
      assert up[..i] == p[..i];
    }
  }

  lemma BackTo(nodes: Nodes, src: Place, dst: Place, after: Nodes)
    requires CanRename(nodes, src, dst) && Closed(nodes) && IsRenamed(nodes, src, dst, after)
    ensures WithParents(after, src) == after && Renamed(after, dst, src) == nodes
  {
    RenamedCloses(nodes, src, dst, after);
    CanRenameBack(nodes, src, dst, after);
    NoParentsMade(after, src);
    RenamedIs(after, dst, src);
    RenameBack(nodes, src, dst, after, Renamed(after, dst, src));
  }

  /** Places of its own, with folders above that are there. */
  predicate Beside(nodes: Nodes, more: Nodes) {
    more.Keys !! nodes.Keys && Closed(nodes + more)
  }

  /** Where nothing is at a place nothing is under it. */
  lemma ClosedFrees(nodes: Nodes, p: Place)
    requires Closed(nodes)
    ensures p in nodes || Free(nodes, p)
  {
    forall q | q in nodes && p <= q ensures p in nodes {
      ClosedUp(nodes, q, |p|);
      assert q[..|p|] == p;
    }
  }

  lemma CanGoBack(after: Nodes, src: Place, dst: Place, more: Nodes)
    requires CanRename(after, dst, src) && Beside(after, more) && src !in more
    ensures CanRename(after + more, dst, src) && WithParents(after + more, src) == after + more
  {
    assert src !in after by { assert src <= src; }
    ClosedFrees(after + more, src);
    NoParentsMade(after + more, src);
  }

  lemma CarriedApart(after: Nodes, src: Place, dst: Place, more: Nodes, nodes: Nodes, carried: Nodes)
    requires IsRenamed(after, dst, src, nodes) && IsRenamed(more, dst, src, carried) && more.Keys !! after.Keys
    ensures carried.Keys !! nodes.Keys
  {
    forall q <- carried ensures q !in nodes {
      assert Reaches(more, dst, src, q);
      assert Was(q, dst, src) in more;
    }
  }

  /** Renaming back beside other places: they stay beside, taken along where they lie
      under what goes back. */
  lemma BackBeside(nodes: Nodes, src: Place, dst: Place, after: Nodes, more: Nodes, all: Nodes, back: Nodes,
                   carried: Nodes)
    requires CanRename(nodes, src, dst) && Closed(nodes) && IsRenamed(nodes, src, dst, after)
    requires Beside(after, more) && src !in more && all == after + more
    requires IsRenamed(all, dst, src, back) && IsRenamed(more, dst, src, carried)
    ensures CanRename(all, dst, src) && WithParents(all, src) == all
    ensures back == nodes + carried && Beside(nodes, carried)
  {
    CanRenameBack(nodes, src, dst, after);
    CanGoBack(after, src, dst, more);
    assert IsRenamed(after, dst, src, nodes) by {
      BackTo(nodes, src, dst, after);
      RenamedIs(after, dst, src);
    }
    RenamedBoth(after, more, dst, src, nodes, carried, back);
    RenamedCloses(all, dst, src, back);
    CarriedApart(after, src, dst, more, nodes, carried);
  }

  /** What lies beside, and not under what goes back, stays where it is. */
  lemma StaysBeside(nodes: Nodes, src: Place, dst: Place, after: Nodes, more: Nodes)
    requires CanRename(nodes, src, dst) && Closed(nodes) && IsRenamed(nodes, src, dst, after)
    requires Beside(after, more) && src !in more && forall p <- more :: !(dst <= p)
    ensures Renamed(more, dst, src) == more
  {
    CanRenameBack(nodes, src, dst, after);
    FreeBeside(after, src, more);
    RenamedNothing(more, dst, src);
  }

  lemma FreeBeside(after: Nodes, src: Place, more: Nodes)
    requires Free(after, src) && Beside(after, more) && src !in more
    ensures Free(more, src)
  {
    assert src !in after by { assert src <= src; }
    ClosedFrees(after + more, src);
    forall q <- more ensures !(src <= q) { assert q in after + more; }
  }

  lemma RenamedNothing(nodes: Nodes, src: Place, dst: Place)
    requires forall p <- nodes :: !(src <= p) && !(dst <= p)
    ensures Renamed(nodes, src, dst) == nodes
  {
    RenamedIs(nodes, src, dst);
    forall q ensures q in Renamed(nodes, src, dst) <==> q in nodes {
      assert dst <= q ==> src <= src + q[|dst|..];
    }
  }

  lemma MakesCloses(nodes: Nodes, made: Nodes)
    requires Closed(nodes) && Makes(nodes, made)
    ensures Closed(nodes + made)
  {
  }

  /** A restore after its move undoes it, whole subtree and all, whatever lies beside,
      unless something lies where the item was: it is then refused. */
  lemma RestoreUndoesMove(v: Volume, nodes: Nodes, made: Nodes, path: string, landing: Landing, after: Nodes,
                          more: Nodes)
    requires Closed(nodes) && Makes(nodes, made) && Moves(v, nodes, made, path, Some(landing))
    requires IsRenamed(nodes + made, v.at(path), v.at(landing.to), after) && Beside(after, more)
    ensures var src, dst, r := v.at(path), v.at(landing.to), ReceiptOf(v, nodes, path, landing);
      && (Restores(v, after + more, r) <==> src !in more)
      && (src !in more ==>
            && AfterRestore(v, after + more, r) == nodes + made + Renamed(more, dst, src)
            && Beside(nodes + made, Renamed(more, dst, src)))
  {
    var src, dst := v.at(path), v.at(landing.to);
    MakesCloses(nodes, made);
    CanRenameBack(nodes + made, src, dst, after);
    RestoresBeside(v, nodes, made, path, landing, after, more);
    if src !in more {
      var all := after + more;
      RenamedIs(all, dst, src);
      RenamedIs(more, dst, src);
      BackBeside(nodes + made, src, dst, after, more, all, Renamed(all, dst, src), Renamed(more, dst, src));
    }
  }

  lemma RestoresBeside(v: Volume, nodes: Nodes, made: Nodes, path: string, landing: Landing, after: Nodes, more: Nodes)
    requires v.at(path) in nodes && landing.how != Export && !(v.at(path) in made)
    requires CanRename(after, v.at(landing.to), v.at(path)) && after[v.at(landing.to)] == nodes[v.at(path)]
    requires more.Keys !! after.Keys
    ensures Restores(v, after + more, ReceiptOf(v, nodes, path, landing)) <==> v.at(path) !in more
  {
    var src, dst := v.at(path), v.at(landing.to);
    assert (after + more)[dst] == after[dst];
    assert src !in after by { assert src <= src; }
  }
}
