// resolveNesting: no byte is planned twice, and what goes along is named.
// internal/engine/plan.go, lines 547 to 648.
module Nesting {
  import opened Catalog
  import opened Forest

  ghost function PlannedBy(ds: seq<Draft>): set<Ref> {
    set d, r | d in ds && r in d.items :: r
  }

  ghost predicate Covered(ps: PathMap, planned: set<Ref>, r: Ref) {
    exists a :: a in planned && Above(ps, a, r)
  }

  ghost predicate KeptDraft(ps: PathMap, planned: set<Ref>, d: Draft) {
    exists r :: r in d.items && !Covered(ps, planned, r)
  }

  ghost predicate RefsValid(fs: seq<Finding>, rs: seq<Ref>) {
    forall r <- rs :: ValidRef(fs, r)
  }

  /** The bytes of the items with no planned ancestor. */
  ghost function UncoveredBytes(fs: seq<Finding>, ps: PathMap, planned: set<Ref>, items: seq<Ref>): int
    requires RefsValid(fs, items)
  {
    if items == [] then 0 else
      var last := items[|items| - 1];
      UncoveredBytes(fs, ps, planned, items[..|items| - 1])
      + (if Covered(ps, planned, last) then 0 else ItemAt(fs, last).bytes)
  }

  /** Deleting r takes c along, and no draft plans c: c is an earlier rule's
      item at r's own path, or below r with everything between planned. */
  ghost predicate GoesAlong(ps: PathMap, planned: set<Ref>, r: Ref, c: Ref) {
    c !in planned && ((Above(ps, c, r) && ps[c] == ps[r]) || TopmostBelow(ps, planned, r, c))
  }

  ghost predicate TopmostBelow(ps: PathMap, planned: set<Ref>, r: Ref, c: Ref) {
    && c !in planned && Above(ps, r, c)
    && forall m | Above(ps, r, m) && Above(ps, m, c) :: m in planned
  }

  /** The topmost planned item over a covered one has no planned ancestor. */
  lemma TopmostPlanned(ps: PathMap, planned: set<Ref>, r: Ref) returns (top: Ref)
    requires Covered(ps, planned, r)
    ensures top in planned && Above(ps, top, r) && !Covered(ps, planned, top)
    decreases Depth(ps, r), r.finding, r.item
  {
    var a :| a in planned && Above(ps, a, r);
    if Covered(ps, planned, a) {
      AboveDescends(ps, a, r);
      top := TopmostPlanned(ps, planned, a);
      AboveTransitive(ps, top, a, r);
    } else {
      top := a;
    }
  }

  method HasPlannedAncestor(f: Forest, owner: map<Ref, nat>, ref: Ref) returns (yes: bool)
    requires f.Valid()
    ensures yes <==> Covered(f.paths, owner.Keys, ref)
  {
    var up := Ancestors(f, ref);
    for i := 0 to |up|
      invariant forall a <- up[..i] :: a !in owner
    {
      if up[i] in owner {
        assert up[i] in up;
        return true;
      }
    }
    assert up[..|up|] == up;
    return false;
  }

  /** Who to name for a covered item: going up, the first item whose draft is kept. */
  method RunningAncestor(f: Forest, owner: map<Ref, nat>, kept: seq<bool>, ref: Ref) returns (cover: Ref)
    requires f.Valid() && Covered(f.paths, owner.Keys, ref)
    requires forall r <- owner :: owner[r] < |kept| && (!Covered(f.paths, owner.Keys, r) ==> kept[owner[r]])
    ensures cover in owner && kept[owner[cover]] && Above(f.paths, cover, ref)
    ensures forall a <- owner | Above(f.paths, a, ref) && kept[owner[a]] :: a == cover || Above(f.paths, a, cover)
  {
    var up := Ancestors(f, ref);
    ghost var top := TopmostPlanned(f.paths, owner.Keys, ref);
    for i := 0 to |up|
      invariant top in up[i..]
      invariant forall a <- up[..i] | a in owner :: !kept[owner[a]]
    {
      if up[i] in owner && kept[owner[up[i]]] {
        cover := up[i];
        assert cover in up;
        assert forall k | 0 <= k < i :: up[k] in up[..i];
        forall a <- owner | Above(f.paths, a, ref) && kept[owner[a]] ensures a == cover || Above(f.paths, a, cover) {
          var j :| 0 <= j < |up| && up[j] == a;
        }
        return;
      }
    }
    assert false;
    cover := ref;
  }

  ghost function BelowSet(ps: PathMap, r: Ref): set<Ref> {
    set d | d in ps && Above(ps, r, d)
  }

  lemma BelowShrinks(f: Forest, r: Ref, c: Ref)
    requires f.Valid() && c in f.ChildrenOf(r)
    ensures |BelowSet(f.paths, c)| < |BelowSet(f.paths, r)|
  {
    ChildrenBelow(f, r);
    var inner, outer := BelowSet(f.paths, c), BelowSet(f.paths, r);
    forall d <- inner ensures d in outer { AboveTransitive(f.paths, r, c, d); }
    assert c in outer && c !in inner;
    SubsetSmaller(inner, outer);
  }

  lemma SubsetSmaller<T>(a: set<T>, b: set<T>)
    requires a < b
    ensures |a| < |b|
  {
    assert b == a + (b - a) && b - a != {};
  }

  /** The topmost unplanned items below r, through planned ones, each once. */
  method UnplannedBelow(f: Forest, owner: map<Ref, nat>, r: Ref) returns (out: seq<Ref>)
    requires f.Valid()
    ensures forall c :: c in out <==> TopmostBelow(f.paths, owner.Keys, r, c)
    ensures Distinct(out) && (f.InOrder() ==> ByPlace(f.paths, out))
    decreases |BelowSet(f.paths, r)|
  {
    out := [];
    var kids := f.ChildrenOf(r);
    ChildrenBelow(f, r);
    for i := 0 to |kids|
      invariant forall c :: c in out <==> UnderSome(f.paths, owner.Keys, kids[..i], c)
      invariant Distinct(out) && (f.InOrder() ==> ByPlace(f.paths, out))
    {
      var kid, more := kids[i], [kids[i]];
      assert kid in kids;
      if kid in owner {
        BelowShrinks(f, r, kid);
        more := UnplannedBelow(f, owner, kid);
      }
      assert forall c :: c in more <==> UnderOne(f.paths, owner.Keys, kid, c);
      UnderNext(f, owner.Keys, r, i);
      DistinctConcat(out, more);
      if f.InOrder() { KidsInOrder(f, owner.Keys, r, i, out, more); }
      out := out + more;
    }
    assert kids[..|kids|] == kids;
    forall c ensures UnderSome(f.paths, owner.Keys, kids, c) <==> TopmostBelow(f.paths, owner.Keys, r, c) {
      UnderKids(f, owner.Keys, r, c);
    }
  }

  lemma DistinctConcat<T>(a: seq<T>, b: seq<T>)
    requires Distinct(a) && Distinct(b) && forall c <- a :: c !in b
    ensures Distinct(a + b)
  {
    forall i, j | 0 <= i < j < |a + b| ensures (a + b)[i] != (a + b)[j] {
      assert i < |a| ==> a[i] in a;
      assert j >= |a| ==> b[j - |a|] in b;
    }
  }

  ghost predicate UnderOne(ps: PathMap, planned: set<Ref>, kid: Ref, c: Ref) {
    if kid in planned then TopmostBelow(ps, planned, kid, c) else c == kid
  }

  ghost predicate UnderSome(ps: PathMap, planned: set<Ref>, kids: seq<Ref>, c: Ref) {
    exists kid <- kids :: UnderOne(ps, planned, kid, c)
  }

  /** What is under one child is under no other. */
  lemma UnderNext(f: Forest, planned: set<Ref>, r: Ref, i: nat)
    requires f.Valid() && i < |f.ChildrenOf(r)|
    ensures var kids := f.ChildrenOf(r);
      forall c :: UnderSome(f.paths, planned, kids[..i + 1], c) <==>
        UnderSome(f.paths, planned, kids[..i], c) || UnderOne(f.paths, planned, kids[i], c)
    ensures var kids := f.ChildrenOf(r);
      forall c :: !(UnderSome(f.paths, planned, kids[..i], c) && UnderOne(f.paths, planned, kids[i], c))
  {
    var ps, kids := f.paths, f.ChildrenOf(r);
    assert kids[..i + 1] == kids[..i] + [kids[i]];
    forall c | UnderOne(ps, planned, kids[i], c) ensures !UnderSome(ps, planned, kids[..i], c) {
      if k :| k in kids[..i] && UnderOne(ps, planned, k, c) {
        assert k in kids && kids[i] in kids;
        SiblingsApart(f, r, k, kids[i]);
        if k != c && kids[i] != c { AboveChain(ps, k, kids[i], c); }
        assert false;
      }
    }
  }

  /** What is under the children before one comes before what is under it. */
  lemma KidsInOrder(f: Forest, planned: set<Ref>, r: Ref, i: nat, out: seq<Ref>, more: seq<Ref>)
    requires f.Valid() && f.InOrder() && i < |f.ChildrenOf(r)| && ByPlace(f.paths, out) && ByPlace(f.paths, more)
    requires forall c <- out :: UnderSome(f.paths, planned, f.ChildrenOf(r)[..i], c)
    requires forall c <- more :: UnderOne(f.paths, planned, f.ChildrenOf(r)[i], c)
    ensures ByPlace(f.paths, out + more)
  {
    var kids := f.ChildrenOf(r);
    forall a, b | a in out && b in more ensures Precedes(f.paths, a, b) {
      var k :| k in kids[..i] && UnderOne(f.paths, planned, k, a);
      var x :| 0 <= x < i && kids[x] == k;
      assert k in kids && kids[i] in kids && Precedes(f.paths, kids[x], kids[i]);
      SiblingsApart(f, r, k, kids[i]);
      SubtreesInOrder(f.paths, k, kids[i], a, b);
    }
    forall x, y | 0 <= x < y < |out + more| ensures Precedes(f.paths, (out + more)[x], (out + more)[y]) {
      assert x < |out| ==> out[x] in out;
      assert y >= |out| ==> more[y - |out|] in more;
    }
  }

  lemma UnderKids(f: Forest, planned: set<Ref>, r: Ref, c: Ref)
    requires f.Valid()
    ensures UnderSome(f.paths, planned, f.ChildrenOf(r), c) <==> TopmostBelow(f.paths, planned, r, c)
  {
    var ps, kids := f.paths, f.ChildrenOf(r);
    ChildrenBelow(f, r);
    if kid :| kid in kids && UnderOne(ps, planned, kid, c) {
      if c != kid { AboveTransitive(ps, r, kid, c); }
      forall m | Above(ps, r, m) && Above(ps, m, c) ensures m in planned {
        MidwayUnderKid(f, r, kid, m, c);
      }
    }
    if TopmostBelow(ps, planned, r, c) {
      var kid := ChildTowards(f, r, c);
      if kid != c {
        forall m | Above(ps, kid, m) && Above(ps, m, c) ensures m in planned { AboveTransitive(ps, r, kid, m); }
      }
      assert UnderOne(ps, planned, kid, c);
    }
  }

  /** Between r and something under its child kid, there is kid and what is under it. */
  lemma MidwayUnderKid(f: Forest, r: Ref, kid: Ref, m: Ref, c: Ref)
    requires f.Valid() && kid in f.ChildrenOf(r)
    requires c == kid || Above(f.paths, kid, c)
    requires Above(f.paths, r, m) && Above(f.paths, m, c)
    ensures c != kid && (m == kid || Above(f.paths, kid, m))
  {
    var k := ChildTowards(f, r, m);
    if k != m { AboveTransitive(f.paths, k, m, c); }
    if k != kid {
      SiblingsApart(f, r, k, kid);
      if c != kid { AboveChain(f.paths, k, kid, c); }
      assert false;
    }
    if c == kid && k != m {
      AboveTransitive(f.paths, k, m, c);
    }
  }

  method UnplannedInside(f: Forest, owner: map<Ref, nat>, ref: Ref) returns (out: seq<Ref>)
    requires f.Valid()
    ensures forall c :: c in out <==> GoesAlong(f.paths, owner.Keys, ref, c)
    ensures Distinct(out) && (f.InOrder() ==> InsideOrder(f.paths, ref, out))
  {
    out := [];
    var shares := SharesPath(f, ref);
    for i := 0 to |shares|
      invariant forall c :: c in out <==> c in shares[..i] && c !in owner
      invariant Distinct(out) && Upwards(f.paths, out)
    {
      if shares[i] !in owner {
        SharedOnce(f.paths, shares, i);
        assert forall c <- out :: Above(f.paths, shares[i], c);
        DistinctAppend(out, shares[i]);
        out := out + [shares[i]];
      }
    }
    assert shares[..|shares|] == shares;
    var below := UnplannedBelow(f, owner, ref);
    forall c <- out ensures c !in below { assert Above(f.paths, c, ref); }
    DistinctConcat(out, below);
    forall c <- below ensures Above(f.paths, ref, c) && !Above(f.paths, c, ref) {}
    if f.InOrder() { ThenBelow(f.paths, ref, out, below); }
    out := out + below;
  }

  ghost predicate Upwards(ps: PathMap, rs: seq<Ref>) {
    forall i, j | 0 <= i < j < |rs| :: Above(ps, rs[j], rs[i])
  }

  /** First those at the item's own path, nearest first, then those below it by place. */
  ghost predicate InsideOrder(ps: PathMap, ref: Ref, out: seq<Ref>) {
    forall i, j | 0 <= i < j < |out| ::
      if Above(ps, out[j], ref) then Above(ps, out[j], out[i]) && Above(ps, out[i], ref)
      else Above(ps, out[i], ref) || Precedes(ps, out[i], out[j])
  }

  lemma ThenBelow(ps: PathMap, ref: Ref, up: seq<Ref>, below: seq<Ref>)
    requires Upwards(ps, up) && ByPlace(ps, below)
    requires (forall c <- up :: Above(ps, c, ref)) && forall c <- below :: !Above(ps, c, ref)
    ensures InsideOrder(ps, ref, up + below)
  {
    var all := up + below;
    forall i, j | 0 <= i < j < |all|
      ensures if Above(ps, all[j], ref) then Above(ps, all[j], all[i]) && Above(ps, all[i], ref)
              else Above(ps, all[i], ref) || Precedes(ps, all[i], all[j])
    {
      assert i < |up| ==> all[i] == up[i] && up[i] in up;
      assert j < |up| ==> all[j] == up[j] && up[j] in up;
      assert j >= |up| ==> all[j] == below[j - |up|] && below[j - |up|] in below;
    }
  }

  /** The items on the way up come once each. */
  lemma SharedOnce(ps: PathMap, up: seq<Ref>, i: nat)
    requires i < |up| && forall j, k | 0 <= j < k < |up| :: Above(ps, up[k], up[j])
    ensures up[i] !in up[..i]
  {
    forall j | 0 <= j < i ensures up[j] != up[i] { assert Above(ps, up[i], up[j]); }
  }

  /** Of two items one goes along with, one is above the other. */
  lemma AlongBoth(ps: PathMap, planned: set<Ref>, r: Ref, q: Ref, c: Ref)
    requires r != q && GoesAlong(ps, planned, r, c) && GoesAlong(ps, planned, q, c)
    ensures Above(ps, r, q) || Above(ps, q, r)
  {
    if Above(ps, r, c) && Above(ps, q, c) {
      AboveChain(ps, r, q, c);
    } else if Above(ps, r, c) {
      AboveTransitive(ps, r, c, q);
    } else if Above(ps, q, c) {
      AboveTransitive(ps, q, c, r);
    }
  }

  /** No item goes along with two planned items that no planned item is above. */
  lemma AlongOnce(ps: PathMap, planned: set<Ref>, r: Ref, q: Ref, c: Ref)
    requires r in planned && q in planned && r != q && !Covered(ps, planned, r) && !Covered(ps, planned, q)
    requires GoesAlong(ps, planned, r, c)
    ensures !GoesAlong(ps, planned, q, c)
  {
    if GoesAlong(ps, planned, q, c) { AlongBoth(ps, planned, r, q, c); }
  }

  /** What resolving leaves of a draft, its includes aside. */
  ghost function Settled(fs: seq<Finding>, ps: PathMap, planned: set<Ref>, d: Draft): Draft
    requires RefsValid(fs, d.items)
  {
    d.(action := d.action.(bytes := UncoveredBytes(fs, ps, planned, d.items), includes := []))
  }

  /** The kept drafts among the first n, in order: those that empty the Trash, or the others. */
  ghost function Survivors(fs: seq<Finding>, ps: PathMap, planned: set<Ref>, ds: seq<Draft>, first: bool): seq<Draft>
    requires forall d <- ds :: RefsValid(fs, d.items)
  {
    if ds == [] then [] else
      var d := ds[|ds| - 1];
      Survivors(fs, ps, planned, ds[..|ds| - 1], first)
      + (if KeptDraft(ps, planned, d) && d.action.emptiesTrash == first then [Settled(fs, ps, planned, d)] else [])
  }

  function Bare(ds: seq<Draft>): seq<Draft> {
    seq(|ds|, i requires 0 <= i < |ds| => ds[i].(action := ds[i].action.(includes := [])))
  }

  /** What goes along with the items no planned item is above, each once. */
  ghost predicate IncludesRight(ps: PathMap, planned: set<Ref>, items: seq<Ref>, includes: seq<Ref>) {
    Distinct(includes) && forall c ::
      c in includes <==> exists r :: r in items && !Covered(ps, planned, r) && GoesAlong(ps, planned, r, c)
  }

  /** A dropped draft is named with the item of a kept draft that covers it. */
  ghost predicate DroppedFor(fs: seq<Finding>, ps: PathMap, ds: seq<Draft>, d: Draft, s: Skip) {
    && s.ruleID == d.action.ruleID && s.itemKey == d.action.itemKey && d.items != []
    && exists cover, over :: CoversFirst(fs, ps, ds, d, s, cover, over)
  }

  ghost predicate CoversFirst(fs: seq<Finding>, ps: PathMap, ds: seq<Draft>, d: Draft, s: Skip, cover: Ref, over: Draft)
    requires d.items != []
  {
    && over in ds && KeptDraft(ps, PlannedBy(ds), over) && cover in over.items && ValidRef(fs, cover)
    && Above(ps, cover, d.items[0]) && s.reason == Inside(RefID(fs, cover))
  }

  ghost predicate AnyUncovered(ps: PathMap, planned: set<Ref>, items: seq<Ref>) {
    exists r <- items :: !Covered(ps, planned, r)
  }

  /** What the first items of a draft keep of their own. */
  ghost predicate ItemsWeighed(fs: seq<Finding>, ps: PathMap, planned: set<Ref>, items: seq<Ref>, kept: bool,
                               bytes: int, includes: seq<Ref>)
    requires RefsValid(fs, items)
  {
    && kept == AnyUncovered(ps, planned, items)
    && bytes == UncoveredBytes(fs, ps, planned, items)
    && IncludesRight(ps, planned, items, includes)
  }

  lemma WeighNext(fs: seq<Finding>, ps: PathMap, planned: set<Ref>, items: seq<Ref>, r: Ref, kept: bool, bytes: int,
                  includes: seq<Ref>, along: seq<Ref>)
    requires RefsValid(fs, items) && ValidRef(fs, r) && ItemsWeighed(fs, ps, planned, items, kept, bytes, includes)
    requires r in planned && r !in items && forall x <- items :: x in planned
    requires !Covered(ps, planned, r) ==> Distinct(along) && forall c :: c in along <==> GoesAlong(ps, planned, r, c)
    ensures RefsValid(fs, items + [r])
    ensures if Covered(ps, planned, r) then ItemsWeighed(fs, ps, planned, items + [r], kept, bytes, includes)
            else ItemsWeighed(fs, ps, planned, items + [r], true, bytes + ItemAt(fs, r).bytes, includes + along)
  {
    assert (items + [r])[..|items|] == items;
    IncludesNext(ps, planned, items, r, includes, along);
    AnyNext(ps, planned, items, r);
  }

  lemma AnyNext(ps: PathMap, planned: set<Ref>, items: seq<Ref>, r: Ref)
    ensures AnyUncovered(ps, planned, items + [r]) == (AnyUncovered(ps, planned, items) || !Covered(ps, planned, r))
  {
    if AnyUncovered(ps, planned, items) {
      var x :| x in items && !Covered(ps, planned, x);
      assert x in items + [r];
    }
    assert r in items + [r];
  }

  lemma IncludesNext(ps: PathMap, planned: set<Ref>, items: seq<Ref>, r: Ref, includes: seq<Ref>, along: seq<Ref>)
    requires IncludesRight(ps, planned, items, includes)
    requires r in planned && r !in items && forall x <- items :: x in planned
    requires !Covered(ps, planned, r) ==> Distinct(along) && forall c :: c in along <==> GoesAlong(ps, planned, r, c)
    ensures IncludesRight(ps, planned, items + [r], if Covered(ps, planned, r) then includes else includes + along)
  {
    var all := if Covered(ps, planned, r) then includes else includes + along;
    if !Covered(ps, planned, r) {
      IncludedApart(ps, planned, items, r, includes, along);
      DistinctConcat(includes, along);
    }
    forall c
      ensures c in all <==> exists x :: x in items + [r] && !Covered(ps, planned, x) && GoesAlong(ps, planned, x, c)
    {
      if x :| x in items && !Covered(ps, planned, x) && GoesAlong(ps, planned, x, c) {
        assert x in items + [r];
      }
      assert r in items + [r];
    }
  }

  lemma IncludedApart(ps: PathMap, planned: set<Ref>, items: seq<Ref>, r: Ref, includes: seq<Ref>, along: seq<Ref>)
    requires IncludesRight(ps, planned, items, includes)
    requires r in planned && r !in items && forall x <- items :: x in planned
    requires !Covered(ps, planned, r) && forall c :: c in along <==> GoesAlong(ps, planned, r, c)
    ensures forall c <- includes :: c !in along
  {
    forall c <- includes ensures c !in along {
      var x :| x in items && !Covered(ps, planned, x) && GoesAlong(ps, planned, x, c);
      AlongOnce(ps, planned, x, r, c);
    }
  }

  /** Pass two: what each draft keeps of its own. */
  method Weigh(fs: seq<Finding>, f: Forest, owner: map<Ref, nat>, d: Draft)
    returns (kept: bool, bytes: int, includes: seq<Ref>)
    requires f.Valid() && RefsValid(fs, d.items) && Distinct(d.items) && forall r <- d.items :: r in owner
    ensures kept <==> KeptDraft(f.paths, owner.Keys, d)
    ensures bytes == UncoveredBytes(fs, f.paths, owner.Keys, d.items)
    ensures IncludesRight(f.paths, owner.Keys, d.items, includes)
  {
    kept, bytes, includes := false, 0, [];
    for i := 0 to |d.items|
      invariant ItemsWeighed(fs, f.paths, owner.Keys, d.items[..i], kept, bytes, includes)
    {
      assert d.items[..i + 1] == d.items[..i] + [d.items[i]];
      kept, bytes, includes := WeighOne(fs, f, owner, d.items[..i], d.items[i], kept, bytes, includes);
    }
    assert d.items[..|d.items|] == d.items;
  }

  /** One item more. */
  method WeighOne(fs: seq<Finding>, f: Forest, owner: map<Ref, nat>, ghost before: seq<Ref>, ref: Ref, kept0: bool,
                  bytes0: int, includes0: seq<Ref>)
    returns (kept: bool, bytes: int, includes: seq<Ref>)
    requires f.Valid() && RefsValid(fs, before) && ValidRef(fs, ref) && ref in owner && ref !in before
    requires (forall x <- before :: x in owner)
      && ItemsWeighed(fs, f.paths, owner.Keys, before, kept0, bytes0, includes0)
    ensures RefsValid(fs, before + [ref])
    ensures ItemsWeighed(fs, f.paths, owner.Keys, before + [ref], kept, bytes, includes)
  {
    kept, bytes, includes := kept0, bytes0, includes0;
    var covered := HasPlannedAncestor(f, owner, ref);
    var along: seq<Ref> := [];
    if !covered {
      along := UnplannedInside(f, owner, ref);
    }
    WeighNext(fs, f.paths, owner.Keys, before, ref, kept, bytes, includes, along);
    if !covered {
      kept := true;
      bytes := bytes + ItemAt(fs, ref).bytes;
      includes := includes + along;
    }
  }

  method Owners(ds: seq<Draft>) returns (owner: map<Ref, nat>)
    ensures owner.Keys == PlannedBy(ds)
    ensures forall r <- owner :: owner[r] < |ds| && r in ds[owner[r]].items
  {
    owner := map[];
    for di := 0 to |ds|
      invariant owner.Keys == PlannedBy(ds[..di])
      invariant forall r <- owner :: owner[r] < |ds| && r in ds[owner[r]].items
    {
      assert ds[..di + 1] == ds[..di] + [ds[di]];
      for k := 0 to |ds[di].items|
        invariant owner.Keys == PlannedBy(ds[..di]) + set r | r in ds[di].items[..k]
        invariant forall r <- owner :: owner[r] < |ds| && r in ds[owner[r]].items
      {
        owner := owner[ds[di].items[k] := di];
      }
      assert ds[di].items[..|ds[di].items|] == ds[di].items;
    }
    assert ds[..|ds|] == ds;
  }

  method ResolveNesting(fs: seq<Finding>, f: Forest, ds: seq<Draft>) returns (kept: seq<Draft>, skips: seq<Skip>)
    requires f.Valid()
    requires forall d <- ds :: d.items != [] && RefsValid(fs, d.items) && Distinct(d.items)
    ensures Bare(kept) ==
      Survivors(fs, f.paths, PlannedBy(ds), ds, true) + Survivors(fs, f.paths, PlannedBy(ds), ds, false)
    ensures forall d <- kept :: IncludesRight(f.paths, PlannedBy(ds), d.items, d.action.includes)
    ensures AllNamed(fs, f.paths, ds, |ds|, skips) && OnlyDropped(fs, f.paths, ds, skips)
  {
    var owner := Owners(ds);
    var keeps, settled := WeighAll(fs, f, ds, owner);
    kept, skips := Arrange(fs, f, ds, owner, keeps, settled);
  }

  method WeighAll(fs: seq<Finding>, f: Forest, ds: seq<Draft>, owner: map<Ref, nat>)
    returns (keeps: seq<bool>, settled: seq<Draft>)
    requires f.Valid() && owner.Keys == PlannedBy(ds)
    requires forall d <- ds :: RefsValid(fs, d.items) && Distinct(d.items)
    ensures |keeps| == |settled| == |ds|
    ensures forall k | 0 <= k < |ds| :: Weighed(fs, f.paths, owner.Keys, ds[k], keeps[k], settled[k])
  {
    keeps, settled := [], [];
    for di := 0 to |ds|
      invariant |keeps| == |settled| == di
      invariant forall k | 0 <= k < di :: Weighed(fs, f.paths, owner.Keys, ds[k], keeps[k], settled[k])
    {
      var keep, s := WeighDraft(fs, f, ds, owner, ds[di]);
      keeps, settled := keeps + [keep], settled + [s];
    }
  }

  method WeighDraft(fs: seq<Finding>, f: Forest, ghost ds: seq<Draft>, owner: map<Ref, nat>, d: Draft)
    returns (keep: bool, s: Draft)
    requires f.Valid() && owner.Keys == PlannedBy(ds) && d in ds && RefsValid(fs, d.items) && Distinct(d.items)
    ensures Weighed(fs, f.paths, owner.Keys, d, keep, s)
  {
    var bytes, includes;
    keep, bytes, includes := Weigh(fs, f, owner, d);
    s := d.(action := d.action.(bytes := bytes, includes := includes));
  }

  /** Pass three: order the kept drafts, and say what covers each dropped one. */
  method Arrange(fs: seq<Finding>, f: Forest, ds: seq<Draft>, owner: map<Ref, nat>, keeps: seq<bool>,
                 settled: seq<Draft>)
    returns (kept: seq<Draft>, skips: seq<Skip>)
    requires f.Valid()
    requires forall d <- ds :: d.items != [] && RefsValid(fs, d.items)
    requires owner.Keys == PlannedBy(ds)
    requires forall r <- owner :: owner[r] < |ds| && r in ds[owner[r]].items
    requires |keeps| == |settled| == |ds|
    requires forall k | 0 <= k < |ds| :: Weighed(fs, f.paths, owner.Keys, ds[k], keeps[k], settled[k])
    ensures Bare(kept) ==
      Survivors(fs, f.paths, PlannedBy(ds), ds, true) + Survivors(fs, f.paths, PlannedBy(ds), ds, false)
    ensures forall d <- kept :: IncludesRight(f.paths, PlannedBy(ds), d.items, d.action.includes)
    ensures AllNamed(fs, f.paths, ds, |ds|, skips) && OnlyDropped(fs, f.paths, ds, skips)
  {
    ghost var ps, planned := f.paths, PlannedBy(ds);
    var first: seq<Draft>, rest: seq<Draft> := [], [];
    skips := [];
    for di := 0 to |ds|
      invariant Sorted(fs, ps, planned, ds[..di], first, true)
      invariant Sorted(fs, ps, planned, ds[..di], rest, false)
      invariant AllNamed(fs, ps, ds, di, skips) && OnlyDropped(fs, ps, ds, skips)
    {
      SortOne(fs, ps, planned, ds, di, first, true, keeps[di], settled[di]);
      SortOne(fs, ps, planned, ds, di, rest, false, keeps[di], settled[di]);
      if !keeps[di] {
        var s := NameCover(fs, f, ds, owner, keeps, settled, di);
        NameOne(fs, ps, ds, di, skips, s);
        skips := skips + [s];
      } else {
        KeepOne(fs, ps, ds, di, skips);
        if settled[di].action.emptiesTrash {
          first := first + [settled[di]];
        } else {
          rest := rest + [settled[di]];
        }
      }
    }
    assert ds[..|ds|] == ds;
    kept := first + rest;
    assert Bare(kept) == Bare(first) + Bare(rest);
  }

  method NameCover(fs: seq<Finding>, f: Forest, ds: seq<Draft>, owner: map<Ref, nat>, keeps: seq<bool>,
                   ghost settled: seq<Draft>, di: nat) returns (s: Skip)
    requires f.Valid() && di < |ds|
    requires forall d <- ds :: d.items != [] && RefsValid(fs, d.items)
    requires owner.Keys == PlannedBy(ds)
    requires forall r <- owner :: owner[r] < |ds| && r in ds[owner[r]].items
    requires |keeps| == |settled| == |ds|
    requires forall k | 0 <= k < |ds| :: Weighed(fs, f.paths, owner.Keys, ds[k], keeps[k], settled[k])
    requires !KeptDraft(f.paths, owner.Keys, ds[di])
    ensures DroppedFor(fs, f.paths, ds, ds[di], s)
  {
    assert ds[di].items[0] in ds[di].items;
    forall r <- owner | !Covered(f.paths, owner.Keys, r) ensures keeps[owner[r]] {
      assert Weighed(fs, f.paths, owner.Keys, ds[owner[r]], keeps[owner[r]], settled[owner[r]]);
    }
    var cover := RunningAncestor(f, owner, keeps, ds[di].items[0]);
    ghost var over := ds[owner[cover]];
    assert over in ds && cover in over.items && KeptDraft(f.paths, owner.Keys, over) by {
      assert Weighed(fs, f.paths, owner.Keys, over, keeps[owner[cover]], settled[owner[cover]]);
    }
    s := Skip(ds[di].action.ruleID, ds[di].action.itemKey, Inside(RefID(fs, cover)));
    assert CoversFirst(fs, f.paths, ds, ds[di], s, cover, over);
  }

  /** part is what the first drafts, ds, put before or after the plan's middle. */
  ghost predicate Sorted(fs: seq<Finding>, ps: PathMap, planned: set<Ref>, ds: seq<Draft>, part: seq<Draft>,
                         first: bool)
    requires forall d <- ds :: RefsValid(fs, d.items)
  {
    && Bare(part) == Survivors(fs, ps, planned, ds, first)
    && forall d <- part :: IncludesRight(ps, planned, d.items, d.action.includes)
  }

  lemma SortOne(fs: seq<Finding>, ps: PathMap, planned: set<Ref>, ds: seq<Draft>, di: nat, part: seq<Draft>,
                first: bool, keep: bool, s: Draft)
    requires forall d <- ds :: RefsValid(fs, d.items)
    requires di < |ds| && Sorted(fs, ps, planned, ds[..di], part, first) && Weighed(fs, ps, planned, ds[di], keep, s)
    ensures Sorted(fs, ps, planned, ds[..di + 1], if keep && s.action.emptiesTrash == first then part + [s] else part,
      first)
  {
    assert ds[..di + 1][..di] == ds[..di];
    assert Bare(part + [s]) == Bare(part) + [s.(action := s.action.(includes := []))];
  }

  /** Every dropped draft among the first n is named. */
  ghost predicate AllNamed(fs: seq<Finding>, ps: PathMap, ds: seq<Draft>, n: nat, skips: seq<Skip>)
    requires n <= |ds|
  {
    forall k | 0 <= k < n && !KeptDraft(ps, PlannedBy(ds), ds[k]) ::
      exists s <- skips :: DroppedFor(fs, ps, ds, ds[k], s)
  }

  /** Nothing but dropped drafts is named. */
  ghost predicate OnlyDropped(fs: seq<Finding>, ps: PathMap, ds: seq<Draft>, skips: seq<Skip>) {
    forall s <- skips :: exists d <- ds :: !KeptDraft(ps, PlannedBy(ds), d) && DroppedFor(fs, ps, ds, d, s)
  }

  lemma KeepOne(fs: seq<Finding>, ps: PathMap, ds: seq<Draft>, di: nat, skips: seq<Skip>)
    requires di < |ds| && AllNamed(fs, ps, ds, di, skips) && KeptDraft(ps, PlannedBy(ds), ds[di])
    ensures AllNamed(fs, ps, ds, di + 1, skips)
  {
  }

  lemma NameOne(fs: seq<Finding>, ps: PathMap, ds: seq<Draft>, di: nat, skips: seq<Skip>, s: Skip)
    requires di < |ds| && AllNamed(fs, ps, ds, di, skips) && OnlyDropped(fs, ps, ds, skips)
    requires !KeptDraft(ps, PlannedBy(ds), ds[di]) && DroppedFor(fs, ps, ds, ds[di], s)
    ensures AllNamed(fs, ps, ds, di + 1, skips + [s]) && OnlyDropped(fs, ps, ds, skips + [s])
  {
    assert s in skips + [s];
    forall k | 0 <= k < di && !KeptDraft(ps, PlannedBy(ds), ds[k])
      ensures exists t <- skips + [s] :: DroppedFor(fs, ps, ds, ds[k], t)
    {
      var t :| t in skips && DroppedFor(fs, ps, ds, ds[k], t);
      assert t in skips + [s];
    }
  }

  ghost predicate Weighed(fs: seq<Finding>, ps: PathMap, planned: set<Ref>, d: Draft, keep: bool, s: Draft)
    requires RefsValid(fs, d.items)
  {
    && (keep <==> KeptDraft(ps, planned, d))
    && s.(action := s.action.(includes := [])) == Settled(fs, ps, planned, d)
    && IncludesRight(ps, planned, s.items, s.action.includes)
  }
}
