// Selection atoms: parsing them, resolving them against findings, and the
// atoms a face is given: internal/engine/plan.go.
module Selection {
  import opened Catalog

  /** The parsed form: whole-rule atoms, and item keys by rule. */
  datatype Selection = Selection(rules: set<string>, items: map<string, set<string>>) {
    predicate HasItem(ruleID: string, key: string) {
      ruleID in items && key in items[ruleID]
    }

    predicate Empty() { rules == {} && items == map[] }

    predicate Engages(ruleID: string) {
      ruleID in rules || (ruleID in items && items[ruleID] != {})
    }

    /** r is among what the selection asks for. */
    predicate Picks(fs: seq<Finding>, r: Ref) {
      && ValidRef(fs, r)
      && (RuleOf(fs, r).id in rules || (ItemAt(fs, r).key != "" && HasItem(RuleOf(fs, r).id, ItemAt(fs, r).key)))
    }
  }

  predicate On(selected: map<string, bool>, atom: string) {
    atom in selected && selected[atom]
  }

  /** sel holds exactly the atoms that are on, and no empty key set. */
  ghost predicate Parsed(selected: map<string, bool>, sel: Selection) {
    && (forall id :: id in sel.rules <==> On(selected, id) && '/' !in id)
    && (forall id, key :: sel.HasItem(id, key) <==> On(selected, ItemID(id, key)) && '/' !in id)
    && (forall id <- sel.items :: sel.items[id] != {})
  }

  /** r is among what the atoms ask for: its rule's atom, or its own id. */
  ghost predicate Picked(selected: map<string, bool>, fs: seq<Finding>, r: Ref) {
    && ValidRef(fs, r) && '/' !in RuleOf(fs, r).id
    && (On(selected, RuleOf(fs, r).id) || (ItemAt(fs, r).key != "" && On(selected, RefID(fs, r))))
  }

  ghost function PickedRefs(selected: map<string, bool>, fs: seq<Finding>): (rs: set<Ref>)
    ensures forall r :: r in rs <==> Picked(selected, fs, r)
  {
    set r | r in AllRefs(fs) && Picked(selected, fs, r)
  }

  /** Some atom names the rule, or an item under it. */
  ghost predicate Engaged(selected: map<string, bool>, id: string) {
    '/' !in id && (On(selected, id) || exists key :: On(selected, ItemID(id, key)))
  }

  ghost function EngagedRules(selected: map<string, bool>, fs: seq<Finding>): set<nat> {
    set fi: nat | fi < |fs| && Engaged(selected, fs[fi].rule.id)
  }

  method ParseSelection(selected: map<string, bool>) returns (sel: Selection)
    ensures Parsed(selected, sel)
  {
    sel := Selection({}, map[]);
    ghost var done: map<string, bool> := map[];
    var todo := selected.Keys;
    while todo != {}
      invariant todo <= selected.Keys
      invariant done == map a | a in selected && a !in todo :: selected[a]
      invariant Parsed(done, sel)
      decreases |todo|
    {
      var atom :| atom in todo;
      ParseOne(done, sel, atom, selected[atom]);
      if selected[atom] {
        sel := AddAtom(sel, atom);
      }
      todo := todo - {atom};
      done := done[atom := selected[atom]];
    }
    assert done == selected;
  }

  function AddAtom(sel: Selection, atom: string): Selection {
    var (id, key, isItem) := SplitItemID(atom);
    if !isItem then sel.(rules := sel.rules + {id})
    else sel.(items := sel.items[id := (if id in sel.items then sel.items[id] else {}) + {key}])
  }

  lemma ParseOne(done: map<string, bool>, sel: Selection, atom: string, on: bool)
    requires Parsed(done, sel) && atom !in done
    ensures Parsed(done[atom := on], if on then AddAtom(sel, atom) else sel)
  {
    var more, grown := done[atom := on], if on then AddAtom(sel, atom) else sel;
    forall i ensures i in grown.rules <==> On(more, i) && '/' !in i {
      AddedRule(sel, atom, i);
      assert On(more, i) <==> On(done, i) || (i == atom && on);
    }
    forall i, k ensures grown.HasItem(i, k) <==> On(more, ItemID(i, k)) && '/' !in i {
      AddedItem(sel, atom, i, k);
      assert On(more, ItemID(i, k)) <==> On(done, ItemID(i, k)) || (ItemID(i, k) == atom && on);
    }
    AddedKeys(sel, atom);
  }

  lemma AddedRule(sel: Selection, atom: string, i: string)
    ensures i in AddAtom(sel, atom).rules <==> i in sel.rules || (i == atom && '/' !in i)
  {
    if '/' !in i { SplitRule(i); }
  }

  lemma AddedItem(sel: Selection, atom: string, i: string, k: string)
    ensures AddAtom(sel, atom).HasItem(i, k) <==> sel.HasItem(i, k) || (ItemID(i, k) == atom && '/' !in i)
  {
    if '/' !in i { SplitJoined(i, k); }
  }

  lemma AddedKeys(sel: Selection, atom: string)
    requires forall id <- sel.items :: sel.items[id] != {}
    ensures forall id <- AddAtom(sel, atom).items :: AddAtom(sel, atom).items[id] != {}
  {
    var (id, key, isItem) := SplitItemID(atom);
    assert isItem ==> key in AddAtom(sel, atom).items[id];
  }

  /** What the selection asks of finding fi: its picked items, whether it asks anything,
      whether it leaves an item out, and the atoms answered by it. */
  method ItemsFor(sel: Selection, fs: seq<Finding>, fi: nat, matched0: set<string>)
    returns (refs: seq<Ref>, engaged: bool, partial: bool, matched: set<string>)
    requires fi < |fs|
    ensures engaged <==> sel.Engages(fs[fi].rule.id)
    ensures forall r :: r in refs <==> r.finding == fi && sel.Picks(fs, r)
    ensures forall i, j | 0 <= i < j < |refs| :: RefLess(refs[i], refs[j])
    ensures engaged ==> (partial <==> exists r: Ref :: r.finding == fi && ValidRef(fs, r) && r !in refs)
    ensures matched == matched0 +
      (if fs[fi].rule.id in sel.rules then {} else IDsOf(fs, refs))
  {
    var f := fs[fi];
    var all := seq(|f.items|, i requires 0 <= i => Ref(fi, i));
    assert forall r: Ref | r.finding == fi && ValidRef(fs, r) :: all[r.item] == r;
    matched := matched0;
    if f.rule.id in sel.rules {
      return all, true, false, matched;
    }
    var keys := if f.rule.id in sel.items then sel.items[f.rule.id] else {};
    if keys == {} {
      return [], false, false, matched;
    }
    refs, matched := PickItems(sel, fs, fi, keys, matched0);
    return refs, true, |refs| < |f.items|, matched;
  }

  /** The loop over the items, for a rule whose own atom is off. */
  method PickItems(sel: Selection, fs: seq<Finding>, fi: nat, keys: set<string>, matched0: set<string>)
    returns (refs: seq<Ref>, matched: set<string>)
    requires fi < |fs| && fs[fi].rule.id !in sel.rules
    requires keys == if fs[fi].rule.id in sel.items then sel.items[fs[fi].rule.id] else {}
    ensures PickedSoFar(sel, fs, fi, |fs[fi].items|, refs)
    ensures matched == matched0 + IDsOf(fs, refs)
  {
    var f := fs[fi];
    refs, matched := [], matched0;
    for i := 0 to |f.items|
      invariant PickedSoFar(sel, fs, fi, i, refs)
      invariant matched == matched0 + IDsOf(fs, refs)
    {
      PickNext(sel, fs, fi, i, refs);
      if f.items[i].key != "" && f.items[i].key in keys {
        IDsNext(fs, refs, Ref(fi, i));
        refs := refs + [Ref(fi, i)];
        matched := matched + {ItemID(f.rule.id, f.items[i].key)};
      }
    }
  }

  ghost function IDsOf(fs: seq<Finding>, refs: seq<Ref>): set<string> {
    set r | r in refs && ValidRef(fs, r) :: RefID(fs, r)
  }

  lemma IDsNext(fs: seq<Finding>, refs: seq<Ref>, r: Ref)
    requires ValidRef(fs, r)
    ensures IDsOf(fs, refs + [r]) == IDsOf(fs, refs) + {RefID(fs, r)}
  {
    assert forall q :: q in refs + [r] <==> q in refs || q == r;
  }

  /** refs are the picks among the first n items, in order, fewer than n when one is left out. */
  ghost predicate PickedSoFar(sel: Selection, fs: seq<Finding>, fi: nat, n: nat, refs: seq<Ref>) {
    && (forall r :: r in refs <==> r.finding == fi && r.item < n && sel.Picks(fs, r))
    && (forall x, y | 0 <= x < y < |refs| :: RefLess(refs[x], refs[y]))
    && Fewer(fi, n, refs)
  }

  ghost predicate Fewer(fi: nat, n: nat, refs: seq<Ref>) {
    |refs| <= n && (|refs| < n <==> exists k: nat :: k < n && Ref(fi, k) !in refs)
  }

  lemma FewerNext(fi: nat, n: nat, refs: seq<Ref>)
    requires Fewer(fi, n, refs) && Ref(fi, n) !in refs
    ensures Fewer(fi, n + 1, refs) && Fewer(fi, n + 1, refs + [Ref(fi, n)])
  {
    assert Ref(fi, n) !in refs && n < n + 1;
    if |refs| < n {
      var k: nat :| k < n && Ref(fi, k) !in refs;
      assert Ref(fi, k) !in refs + [Ref(fi, n)];
    }
  }

  lemma PickNext(sel: Selection, fs: seq<Finding>, fi: nat, n: nat, refs: seq<Ref>)
    requires fi < |fs| && n < |fs[fi].items| && PickedSoFar(sel, fs, fi, n, refs)
    ensures PickedSoFar(sel, fs, fi, n + 1, if sel.Picks(fs, Ref(fi, n)) then refs + [Ref(fi, n)] else refs)
  {
    var r := Ref(fi, n);
    var more := if sel.Picks(fs, r) then refs + [r] else refs;
    assert r !in refs;
    assert forall q :: q in more <==> q.finding == fi && q.item < n + 1 && sel.Picks(fs, q);
    forall x, y | 0 <= x < y < |more| ensures RefLess(more[x], more[y]) {
      if y == |refs| { assert more[x] in refs; }
    }
    FewerNext(fi, n, refs);
  }

  // ---- atoms that address nothing ----

  ghost predicate KnownRule(fs: seq<Finding>, id: string) {
    exists fi :: 0 <= fi < |fs| && fs[fi].rule.id == id
  }

  /** Some item of a finding whose rule atom is off carries the id. */
  ghost predicate Marked(sel: Selection, fs: seq<Finding>, n: nat, atom: string) {
    exists r: Ref :: r.finding < n && sel.Picks(fs, r) && RuleOf(fs, r).id !in sel.rules && RefID(fs, r) == atom
  }

  ghost predicate Unmatched(sel: Selection, fs: seq<Finding>, atom: string) {
    || (atom in sel.rules && !KnownRule(fs, atom))
    || exists id, key :: sel.HasItem(id, key) && atom == ItemID(id, key) && !Marked(sel, fs, |fs|, atom)
  }

  /** selection.unmatched, as a set: the source sorts it. */
  method FindUnmatched(sel: Selection, fs: seq<Finding>, matched: set<string>) returns (out: set<string>)
    requires forall atom :: atom in matched <==> Marked(sel, fs, |fs|, atom)
    ensures forall atom :: atom in out <==> Unmatched(sel, fs, atom)
  {
    var known: set<string> := {};
    for fi := 0 to |fs|
      invariant known == set k | 0 <= k < fi :: fs[k].rule.id
    {
      known := known + {fs[fi].rule.id};
    }
    out := {};
    var rules := sel.rules;
    while rules != {}
      invariant rules <= sel.rules
      invariant forall atom :: atom in out <==> atom in sel.rules && atom !in rules && !KnownRule(fs, atom)
    {
      var id :| id in rules;
      if id !in known { out := out + {id}; }
      rules := rules - {id};
    }
    ghost var ruleAtoms := out;
    var ids := sel.items.Keys;
    while ids != {}
      invariant ids <= sel.items.Keys
      invariant forall atom :: atom in out <==> atom in ruleAtoms || exists id, key ::
        id !in ids && sel.HasItem(id, key) && atom == ItemID(id, key) && atom !in matched
    {
      var id :| id in ids;
      var keys := sel.items[id];
      ghost var before := out;
      while keys != {}
        invariant keys <= sel.items[id]
        invariant forall atom :: atom in out <==> atom in before || exists key ::
          key in sel.items[id] && key !in keys && atom == ItemID(id, key) && atom !in matched
      {
        var key :| key in keys;
        if ItemID(id, key) !in matched { out := out + {ItemID(id, key)}; }
        keys := keys - {key};
      }
      ids := ids - {id};
    }
  }

  /** What a caller can check of an atom: a rule atom is a known rule's, an item
      atom is an item's, its own rule's atom being off. */
  ghost predicate Addressed(selected: map<string, bool>, fs: seq<Finding>, atom: string) {
    if '/' !in atom then KnownRule(fs, atom)
    else exists r ::
      ValidRef(fs, r) && ItemAt(fs, r).key != "" && RefID(fs, r) == atom && !On(selected, RuleOf(fs, r).id)
  }

  ghost predicate Consistent(selected: map<string, bool>, fs: seq<Finding>) {
    forall atom | On(selected, atom) :: Addressed(selected, fs, atom)
  }

  /** Exactly the atoms that address nothing are unmatched; among them an item's
      atom given beside its own rule's. */
  lemma UnmatchedExactly(selected: map<string, bool>, sel: Selection, fs: seq<Finding>)
    requires RuleIDsDistinct(fs) && Parsed(selected, sel)
    ensures forall atom :: Unmatched(sel, fs, atom) <==> On(selected, atom) && !Addressed(selected, fs, atom)
  {
    forall atom ensures Unmatched(sel, fs, atom) <==> On(selected, atom) && !Addressed(selected, fs, atom) {
      if On(selected, atom) {
        UnmatchedOne(selected, sel, fs, atom);
        if '/' in atom { MarkedExactly(selected, sel, fs, atom); }
      }
    }
  }

  lemma UnmatchedOne(selected: map<string, bool>, sel: Selection, fs: seq<Finding>, atom: string)
    requires RuleIDsDistinct(fs) && Parsed(selected, sel) && On(selected, atom)
    ensures '/' !in atom ==> (Unmatched(sel, fs, atom) <==> !KnownRule(fs, atom))
    ensures '/' in atom ==> (Unmatched(sel, fs, atom) <==> !Marked(sel, fs, |fs|, atom))
  {
    var (id, key, isItem) := SplitItemID(atom);
    assert isItem ==> atom[|id|] == '/';
    if isItem { assert sel.HasItem(id, key); }
    forall i, k | sel.HasItem(i, k) && atom == ItemID(i, k) ensures '/' in atom { assert atom[|i|] == '/'; }
  }

  lemma MarkedExactly(selected: map<string, bool>, sel: Selection, fs: seq<Finding>, atom: string)
    requires RuleIDsDistinct(fs) && Parsed(selected, sel) && On(selected, atom) && '/' in atom
    ensures Marked(sel, fs, |fs|, atom) <==> Addressed(selected, fs, atom)
  {
    if r :| ValidRef(fs, r) && ItemAt(fs, r).key != "" && RefID(fs, r) == atom && !On(selected, RuleOf(fs, r).id) {
      assert sel.HasItem(RuleOf(fs, r).id, ItemAt(fs, r).key);
      assert sel.Picks(fs, r);
    }
  }

  /** An item's atom given beside its own rule's is unmatched, and yet the item is picked. */
  lemma BesideItsRule(selected: map<string, bool>, sel: Selection, fs: seq<Finding>, r: Ref)
    requires RuleIDsDistinct(fs) && Parsed(selected, sel) && ValidRef(fs, r) && ItemAt(fs, r).key != ""
    requires On(selected, RuleOf(fs, r).id) && On(selected, RefID(fs, r))
    ensures Unmatched(sel, fs, RefID(fs, r)) && !Unmatched(sel, fs, RuleOf(fs, r).id) && r in PickedRefs(selected, fs)
  {
    var id, key := RuleOf(fs, r).id, ItemAt(fs, r).key;
    SplitJoined(id, key);
    forall q | ValidRef(fs, q) && RefID(fs, q) == RefID(fs, r) ensures RuleOf(fs, q).id == id {
      SplitJoined(RuleOf(fs, q).id, ItemAt(fs, q).key);
    }
    assert KnownRule(fs, id);
    UnmatchedExactly(selected, sel, fs);
  }

  function OneItem(): Finding {
    Finding(Rule("go", Safe, false, None, "", "", false, false, false), [Item("/a/b", "", "k", "", 1, false)], "", "")
  }

  /** So for a rule with one item, its atom and the item's. */
  lemma ItemBesideItsRule(sel: Selection)
    requires Parsed(map["go" := true, "go/k" := true], sel)
    ensures Unmatched(sel, [OneItem()], "go/k") && !Unmatched(sel, [OneItem()], "go")
    ensures Ref(0, 0) in PickedRefs(map["go" := true, "go/k" := true], [OneItem()])
  {
    var fs, r := [OneItem()], Ref(0, 0);
    assert RefID(fs, r) == "go/k" && RuleOf(fs, r).id == "go";
    BesideItsRule(map["go" := true, "go/k" := true], sel, fs, r);
  }

  // ---- the atoms a face starts from, and may pick ----

  /** The atoms of f: its rule's alone, or some of its keyed items' ids. */
  ghost predicate AtomsOf(f: Finding, atoms: set<string>) {
    || atoms == {f.rule.id}
    || forall a <- atoms :: exists i :: 0 <= i < |f.items| && f.items[i].key != "" && !f.items[i].Unreadable()
                                        && a == ItemID(f.rule.id, f.items[i].key)
  }

  /** The ids of the items that were read. */
  ghost function ReadSet(f: Finding): set<string> {
    set it | it in f.items && !it.Unreadable() :: ItemID(f.rule.id, it.key)
  }

  ghost predicate AllRead(f: Finding) { forall it <- f.items :: !it.Unreadable() }

  ghost predicate ReadKeyed(f: Finding) { forall it <- f.items | !it.Unreadable() :: it.key != "" }

  /** i is the first item that was read with the id. */
  ghost predicate FirstAt(f: Finding, id: string, i: nat) {
    && i < |f.items| && !f.items[i].Unreadable() && id == ItemID(f.rule.id, f.items[i].key)
    && forall k | 0 <= k < i :: f.items[k].Unreadable() || id != ItemID(f.rule.id, f.items[k].key)
  }

  ghost predicate ByFirst(f: Finding, ids: seq<string>) {
    forall x: nat, y: nat, i: nat, j: nat | x < y < |ids| && FirstAt(f, ids[x], i) && FirstAt(f, ids[y], j) :: i < j
  }

  /** The ids of the items that were read, each once, in item order. */
  method ReadIDs(f: Finding) returns (read: seq<string>, nRead: nat, keyed: bool)
    ensures keyed <==> ReadKeyed(f)
    ensures nRead <= |f.items| && (nRead == |f.items| <==> AllRead(f))
    ensures (set id | id in read) == ReadSet(f)
    ensures forall i, j | 0 <= i < j < |read| :: read[i] != read[j]
    ensures ByFirst(f, read)
    ensures nRead > 0 <==> read != []
  {
    read, nRead, keyed := [], 0, true;
    var seen: set<string> := {};
    for i := 0 to |f.items|
      invariant keyed <==> forall it <- f.items[..i] | !it.Unreadable() :: it.key != ""
      invariant nRead <= i && (nRead == i <==> forall it <- f.items[..i] :: !it.Unreadable())
      invariant forall id ::
        id in read <==> exists it <- f.items[..i] :: !it.Unreadable() && id == ItemID(f.rule.id, it.key)
      invariant seen == set id | id in read
      invariant forall x, y | 0 <= x < y < |read| :: read[x] != read[y]
      invariant ByFirst(f, read)
      invariant nRead > 0 <==> read != []
    {
      var it := f.items[i];
      assert f.items[..i + 1] == f.items[..i] + [it];
      if !it.Unreadable() {
        nRead := nRead + 1;
        keyed := keyed && it.key != "";
        var id := ItemID(f.rule.id, it.key);
        if id !in seen {
          LastByFirst(f, read, i, id);
          seen := seen + {id};
          read := read + [id];
        }
      }
    }
    assert f.items[..|f.items|] == f.items;
    assert forall id :: id in read <==> exists it <- f.items :: !it.Unreadable() && id == ItemID(f.rule.id, it.key);
  }

  lemma LastByFirst(f: Finding, read: seq<string>, n: nat, id: string)
    requires n < |f.items| && ByFirst(f, read) && id !in read
    requires forall a :: a in read <==> exists it <- f.items[..n] :: !it.Unreadable() && a == ItemID(f.rule.id, it.key)
    ensures ByFirst(f, read + [id])
  {
    var all := read + [id];
    forall k: nat | k < n && !f.items[k].Unreadable() ensures ItemID(f.rule.id, f.items[k].key) in read {
      assert f.items[..n][k] == f.items[k];
    }
    forall x: nat, y: nat, i: nat, j: nat | x < y < |all| && FirstAt(f, all[x], i) && FirstAt(f, all[y], j)
      ensures i < j
    {
      if y == |read| {
        assert all[x] in read;
        var it :| it in f.items[..n] && !it.Unreadable() && all[x] == ItemID(f.rule.id, it.key);
        var k :| 0 <= k < n && f.items[..n][k] == it;
        assert i <= k;
      } else {
        assert FirstAt(f, read[x], i) && FirstAt(f, read[y], j);
      }
    }
  }

  /** The atoms a row of f stands for. */
  ghost function Offered(f: Finding): set<string> {
    if !f.rule.risk.Actionable() || f.items == [] || f.err != "" then {}
    else if f.rule.PerItemActionable() && ReadSet(f) != {} && ReadKeyed(f) then ReadSet(f)
    else if AllRead(f) then {f.rule.id}
    else {}
  }

  /** Offered, in item order; [] stands for nil, a row that cannot be ticked. */
  method Selectable(f: Finding) returns (atoms: seq<string>)
    ensures (set a | a in atoms) == Offered(f)
    ensures forall i, j | 0 <= i < j < |atoms| :: atoms[i] != atoms[j]
    ensures atoms == [f.rule.id] || ByFirst(f, atoms)
  {
    if !f.rule.risk.Actionable() || |f.items| == 0 || f.err != "" {
      return [];
    }
    var read, nRead, keyed := ReadIDs(f);
    assert read != [] ==> read[0] in ReadSet(f);
    if f.rule.PerItemActionable() && nRead > 0 && keyed {
      return read;
    }
    if nRead == |f.items| {
      return [f.rule.id];
    }
    return [];
  }

  /** An unreadable item can never be picked, and every atom names f or an item of f. */
  lemma OfferedIsRead(f: Finding)
    ensures AtomsOf(f, Offered(f)) && AtomsOf(f, Preticked(f))
    ensures f.rule.id in Offered(f) + Preticked(f) ==> AllRead(f)
  {
    forall a <- ReadSet(f) | ReadKeyed(f) ensures
      '/' in a && exists i ::
        0 <= i < |f.items| && f.items[i].key != "" && !f.items[i].Unreadable()
        && a == ItemID(f.rule.id, f.items[i].key)
    {
      var it :| it in f.items && !it.Unreadable() && a == ItemID(f.rule.id, it.key);
    }
  }

  /** The atoms f starts with. */
  ghost function Preticked(f: Finding): set<string> {
    if f.rule.risk != Safe || f.items == [] || f.err != "" then {}
    else if AllRead(f) then {f.rule.id}
    else if f.rule.PerItemActionable() && ReadKeyed(f) then ReadSet(f)
    else {}
  }

  /** One finding's part of the default selection. */
  method DefaultAtoms(f: Finding) returns (atoms: set<string>)
    ensures atoms == Preticked(f)
  {
    if f.rule.risk != Safe || |f.items| == 0 || f.err != "" {
      return {};
    }
    var read, nRead, keyed := ReadIDs(f);
    if nRead == |f.items| {
      return {f.rule.id};
    }
    if f.rule.PerItemActionable() && keyed {
      return set id | id in read;
    }
    return {};
  }

  method DefaultSelection(fs: seq<Finding>) returns (sel: set<string>)
    ensures sel == set i, a | 0 <= i < |fs| && a in Preticked(fs[i]) :: a
  {
    sel := {};
    for i := 0 to |fs|
      invariant sel == set k, a | 0 <= k < i && a in Preticked(fs[k]) :: a
    {
      var atoms := DefaultAtoms(fs[i]);
      sel := sel + atoms;
    }
  }

  /** Its size is not known: nothing of it was read. */
  predicate NotRead(it: Item) { it.partial && it.bytes == 0 }

  /** The atom of one of the items that were read, all of which have a key. */
  ghost predicate ItemAtom(f: Finding, a: string) {
    && (forall it <- f.items :: NotRead(it) || it.key != "")
    && exists it <- f.items :: !NotRead(it) && a == f.rule.id + "/" + it.key
  }

  predicate OneByOne(rule: Rule) {
    rule.native.Some? ==> rule.native.value.usesPath || rule.native.value.usesArg
  }

  /** What a row offers: the items that were read, where its rule deletes them one by one and
      they can be told apart; else the rule, when all were read. Nothing of a rule that is
      only reported, or of a scan that failed or found nothing. */
  lemma OfferedExactly(f: Finding, a: string)
    ensures a in Offered(f) <==>
      && f.rule.risk != SurfaceOnly && f.items != [] && f.err == ""
      && ((ItemAtom(f, a) && OneByOne(f.rule))
          || (a == f.rule.id && (forall it <- f.items :: !NotRead(it))
              && !(OneByOne(f.rule) && forall it <- f.items :: it.key != "")))
  {
    assert forall it: Item :: it.Unreadable() <==> NotRead(it);
    if f.items != [] && AllRead(f) { assert ItemID(f.rule.id, f.items[0].key) in ReadSet(f); }
    forall it <- f.items | !NotRead(it) ensures ItemID(f.rule.id, it.key) in ReadSet(f) {}
  }

  /** What a row starts with: only of a safe rule, the whole of it when all was read, else the
      items that were. */
  lemma PretickedExactly(f: Finding, a: string)
    ensures a in Preticked(f) <==>
      && f.rule.risk == Safe && f.items != [] && f.err == ""
      && (if forall it <- f.items :: !NotRead(it) then a == f.rule.id else OneByOne(f.rule) && ItemAtom(f, a))
  {
    assert forall it: Item :: it.Unreadable() <==> NotRead(it);
    forall it <- f.items | !NotRead(it) ensures ItemID(f.rule.id, it.key) in ReadSet(f) {}
  }

  /** A selection that takes, finding by finding, some of the atoms one call of
      Selectable gave, or that DefaultSelection gave, leaves nothing unmatched. */
  lemma OfferedAtomsMatch(selected: map<string, bool>, fs: seq<Finding>, per: seq<set<string>>)
    requires RuleIDsDistinct(fs) && |per| == |fs|
    requires forall i | 0 <= i < |fs| :: AtomsOf(fs[i], per[i])
    requires forall a | On(selected, a) :: exists i :: 0 <= i < |per| && a in per[i]
    ensures Consistent(selected, fs)
  {
    forall atom | On(selected, atom)
      ensures Addressed(selected, fs, atom)
    {
      var i :| 0 <= i < |per| && atom in per[i];
      var id := fs[i].rule.id;
      if '/' in atom {
        assert per[i] != {id};
        var k :| 0 <= k < |fs[i].items| && fs[i].items[k].key != "" && atom == ItemID(id, fs[i].items[k].key);
        var r := Ref(i, k);
        assert RefID(fs, r) == atom;
        if On(selected, id) {
          var j :| 0 <= j < |per| && id in per[j];
          OfferedOnce(fs, i, j, per[i], per[j]);
          assert false;
        }
      } else {
        assert per[i] == {id};
      }
    }
  }

  /** No finding's atoms hold another's rule atom, or its own beside item atoms. */
  lemma OfferedOnce(fs: seq<Finding>, i: nat, j: nat, ai: set<string>, aj: set<string>)
    requires RuleIDsDistinct(fs) && i < |fs| && j < |fs|
    requires AtomsOf(fs[j], aj) && (i == j ==> ai == aj)
    requires ai != {fs[i].rule.id}
    ensures fs[i].rule.id !in aj
  {
    assert aj == {fs[j].rule.id} || fs[i].rule.id !in aj;
  }

  /** What a face was offered, or started with, finding by finding, addresses something. */
  lemma OffersMatch(selected: map<string, bool>, fs: seq<Finding>, pretick: seq<bool>)
    requires RuleIDsDistinct(fs) && |pretick| == |fs|
    requires forall a | On(selected, a) ::
      exists i :: 0 <= i < |fs| && a in (if pretick[i] then Preticked(fs[i]) else Offered(fs[i]))
    ensures Consistent(selected, fs)
  {
    var per := seq(|fs|, i requires 0 <= i < |fs| => if pretick[i] then Preticked(fs[i]) else Offered(fs[i]));
    forall i | 0 <= i < |fs| ensures AtomsOf(fs[i], per[i]) { OfferedIsRead(fs[i]); }
    forall a | On(selected, a) ensures exists i :: 0 <= i < |per| && a in per[i] {
      var i :| 0 <= i < |fs| && a in (if pretick[i] then Preticked(fs[i]) else Offered(fs[i]));
      assert a in per[i];
    }
    OfferedAtomsMatch(selected, fs, per);
  }
}
