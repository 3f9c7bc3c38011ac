// Rules, scanned items and the ids that address them.
module Catalog {
  import opened Paths

  datatype Option<+T> = None | Some(value: T)

  datatype Risk = Safe | Caution | SurfaceOnly {
    predicate Actionable() { this != SurfaceOnly }
  }

  /** A steward command: its program, and which placeholders its words hold. */
  datatype Native = Native(program: string, usesPath: bool, usesArg: bool) {
    predicate PerItem() { usesPath || usesArg }
  }

  const VOLUME_EXPORT := "docker-volume-export"

  datatype Rule = Rule(id: string, risk: Risk, phantom: bool, native: Option<Native>, preAction: string,
                       measure: string, emptiesTrash: bool, sudo: bool, prune: bool)
  {
    predicate PerItemActionable() {
      risk.Actionable() && (native.None? || native.value.PerItem())
    }
  }

  datatype Item = Item(path: string, title: string, key: string, arg: string, bytes: int, partial: bool) {
    predicate Unreadable() { partial && bytes == 0 }
  }

  datatype Finding = Finding(rule: Rule, items: seq<Item>, err: string, held: string)

  /** A position among the findings, as item ids need not be unique. */
  datatype Ref = Ref(finding: nat, item: nat)

  predicate RefLess(a: Ref, b: Ref) {
    a.finding < b.finding || (a.finding == b.finding && a.item < b.item)
  }

  predicate ValidRef(fs: seq<Finding>, r: Ref) {
    r.finding < |fs| && r.item < |fs[r.finding].items|
  }

  function ItemAt(fs: seq<Finding>, r: Ref): Item
    requires ValidRef(fs, r)
  {
    fs[r.finding].items[r.item]
  }

  function RuleOf(fs: seq<Finding>, r: Ref): Rule
    requires ValidRef(fs, r)
  {
    fs[r.finding].rule
  }

  predicate HasPath(fs: seq<Finding>, r: Ref) {
    ValidRef(fs, r) && ItemAt(fs, r).path != ""
  }

  function PathOf(fs: seq<Finding>, r: Ref): CleanPath
    requires ValidRef(fs, r)
  {
    Clean(ItemAt(fs, r).path)
  }

  /** Every position, in catalog order. */
  function AllRefs(fs: seq<Finding>): (rs: seq<Ref>)
    ensures forall r :: r in rs <==> ValidRef(fs, r)
    ensures forall i, j | 0 <= i < j < |rs| :: RefLess(rs[i], rs[j])
  {
    RefsFrom(fs, |fs|)
  }

  function RefsFrom(fs: seq<Finding>, n: nat): (rs: seq<Ref>)
    requires n <= |fs|
    ensures forall r :: r in rs <==> r.finding < n && ValidRef(fs, r)
    ensures forall i, j | 0 <= i < j < |rs| :: RefLess(rs[i], rs[j])
  {
    if n == 0 then [] else
      var row := seq(|fs[n - 1].items|, i requires 0 <= i => Ref(n - 1, i));
      assert forall r: Ref | r.finding == n - 1 && ValidRef(fs, r) :: row[r.item] == r;
      RefsFrom(fs, n - 1) + row
  }

  function ItemID(ruleID: string, key: string): (id: string)
    ensures '/' in id && ruleID < id
  {
    assert (ruleID + "/" + key)[|ruleID|] == '/';
    ruleID + "/" + key
  }

  function RefID(fs: seq<Finding>, r: Ref): string
    requires ValidRef(fs, r)
  {
    ItemID(RuleOf(fs, r).id, ItemAt(fs, r).key)
  }

  /** strings.Cut at the first slash. */
  function SplitItemID(atom: string): (r: (string, string, bool))
    ensures '/' !in r.0
    ensures atom == if r.2 then ItemID(r.0, r.1) else r.0
  {
    if atom == "" then ("", "", false)
    else if atom[0] == '/' then ("", atom[1..], true)
    else
      var (id, key, isItem) := SplitItemID(atom[1..]);
      ([atom[0]] + id, key, isItem)
  }

  lemma SplitCons(c: char, rest: string)
    requires c != '/'
    ensures SplitItemID([c] + rest).0 == [c] + SplitItemID(rest).0
    ensures SplitItemID([c] + rest).1 == SplitItemID(rest).1
    ensures SplitItemID([c] + rest).2 == SplitItemID(rest).2
  {
    assert ([c] + rest)[1..] == rest;
  }

  /** Ids name one rule and one key, since no rule id holds a slash. */
  lemma {:induction false} SplitJoined(ruleID: string, key: string)
    requires '/' !in ruleID
    ensures SplitItemID(ItemID(ruleID, key)) == (ruleID, key, true)
  {
    if ruleID == "" {
      assert ItemID(ruleID, key) == "/" + key;
    } else {
      SplitJoined(ruleID[1..], key);
      assert ItemID(ruleID, key) == [ruleID[0]] + ItemID(ruleID[1..], key);
      SplitCons(ruleID[0], ItemID(ruleID[1..], key));
      assert ruleID == [ruleID[0]] + ruleID[1..];
    }
  }

  lemma {:induction false} SplitRule(ruleID: string)
    requires '/' !in ruleID
    ensures SplitItemID(ruleID) == (ruleID, "", false)
  {
    if ruleID != "" {
      SplitRule(ruleID[1..]);
      assert ruleID == [ruleID[0]] + ruleID[1..];
    }
  }

  /** What the loader promises of a catalog: ids are distinct and slash-free. */
  ghost predicate RuleIDsDistinct(fs: seq<Finding>) {
    && (forall i | 0 <= i < |fs| :: '/' !in fs[i].rule.id)
    && (forall i, j | 0 <= i < j < |fs| :: fs[i].rule.id != fs[j].rule.id)
  }

  function TildePath(path: string, home: string): string {
    if home == "" then path
    else if path == home then "~"
    else if home + "/" <= path then "~/" + path[|home| + 1..]
    else path
  }

  function Keyed(it: Item, home: string): Item {
    if it.key != "" then it
    else it.(key := if it.arg != "" then it.arg else if it.path != "" then TildePath(it.path, home) else it.title)
  }

  /** An item without a key gets its argument, or with none its path as the home's user
      writes it, or with neither its title. */
  lemma KeyDerived(it: Item, home: string)
    ensures Keyed(it, home) == it.(key := Keyed(it, home).key)
    ensures it.key != "" ==> Keyed(it, home).key == it.key
    ensures it.key == "" && it.arg != "" ==> Keyed(it, home).key == it.arg
    ensures it.key == "" && it.arg == "" && it.path == "" ==> Keyed(it, home).key == it.title
    ensures it.key == "" && it.arg == "" && it.path != "" && home != "" ==>
      && (it.path == home ==> Keyed(it, home).key == "~")
      && forall rest: string | it.path == home + "/" + rest :: Keyed(it, home).key == "~/" + rest
    ensures it.key == "" && it.arg == "" && it.path != "" &&
            (home == "" || (it.path != home && !(home + "/" <= it.path))) ==>
      Keyed(it, home).key == it.path
  {
    forall rest: string | it.path == home + "/" + rest ensures it.path[|home| + 1..] == rest && it.path != home {
      assert it.path[..|home| + 1] == home + "/";
    }
  }

  /** The items are the same but for keys, and those that had one keep it. */
  ghost predicate OnlyKeysFilled(before: seq<Item>, after: seq<Item>) {
    && |after| == |before|
    && forall j | 0 <= j < |before| ::
         after[j] == before[j].(key := after[j].key) && (before[j].key != "" ==> after[j].key == before[j].key)
  }

  function WithItemKeys(fs: seq<Finding>, home: string): (r: seq<Finding>)
    ensures |r| == |fs|
    ensures forall i | 0 <= i < |fs| :: r[i] == fs[i].(items := r[i].items) && OnlyKeysFilled(fs[i].items, r[i].items)
  {
    seq(|fs|, i requires 0 <= i < |fs| =>
      fs[i].(items := seq(|fs[i].items|, j requires 0 <= j < |fs[i].items| => Keyed(fs[i].items[j], home))))
  }

  // ---- actions ----

  datatype Kind = NativeKind | TrashKind | PruneKind

  /** One exact command a plan would run. Includes holds the positions of the
      items the source lists as ids with their bytes. */
  datatype Action = Action(ruleID: string, itemKey: string, kind: Kind, preAction: string, measure: string,
                           path: string, bytes: int, emptiesTrash: bool, sudo: bool, includes: seq<Ref>)

  /** An action and the items it deletes, its targets. */
  datatype Draft = Draft(action: Action, items: seq<Ref>)

  datatype Reason =
    | ReportOnly
    | HeldBy(note: string)
    | NoPath
    | GuardedPath
    | HoldsSurfaceOnly(id: string)
    | WholeRuleOnly
    | NoValue
    | NotOnPath(program: string)
    | NeedsAdmin(selector: string)
    | Inside(id: string)

  datatype Skip = Skip(ruleID: string, itemKey: string, reason: Reason)
}
