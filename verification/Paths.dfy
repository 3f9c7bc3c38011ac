// Cleaned paths and the sort keys the containment forest is built on. A Go
// string is a Dafny string whose characters stand for bytes.
module Paths {
  /** A path after filepath.Clean: rooted or relative, as components. */
  datatype CleanPath = CleanPath(rooted: bool, comps: seq<string>) {
    /** No component is empty or holds a slash; a rooted path has no "." or
        "..", and a relative one has at least one component ("." at worst). */
    ghost predicate Valid() {
      && Plain(rooted, comps)
      && (!rooted ==> comps != [])
    }
  }

  ghost predicate Plain(rooted: bool, comps: seq<string>) {
    forall i | 0 <= i < |comps| ::
      comps[i] != "" && '/' !in comps[i] && (rooted ==> comps[i] != "." && comps[i] != "..")
  }

  ghost predicate Parts(parts: seq<string>) {
    forall i | 0 <= i < |parts| :: '/' !in parts[i]
  }

  function Split(s: string): (parts: seq<string>)
    ensures Parts(parts) && parts != []
  {
    if s == "" then [""] else Begin(s[0], Split(s[1..]))
  }

  function Begin(c: char, parts: seq<string>): (r: seq<string>)
    requires Parts(parts) && parts != []
    ensures Parts(r) && r != []
  {
    if c == '/' then [""] + parts else [[c] + parts[0]] + parts[1..]
  }

  /** One component of filepath.Clean: "" and "." vanish, ".." backs up. */
  function Push(rooted: bool, done: seq<string>, c: string): (r: seq<string>) {
    if c == "" || c == "." then done
    else if c != ".." then done + [c]
    else if done != [] && done[|done| - 1] != ".." then done[..|done| - 1]
    else if rooted then done
    else done + [".."]
  }

  function PushAll(rooted: bool, done: seq<string>, parts: seq<string>): (r: seq<string>)
    requires Parts(parts) && Plain(rooted, done)
    ensures Plain(rooted, r)
    decreases |parts|
  {
    if parts == [] then done else PushAll(rooted, Push(rooted, done, parts[0]), parts[1..])
  }

  /** filepath.Clean, kept as components. */
  function Clean(path: string): (p: CleanPath)
    ensures p.Valid()
    ensures p.rooted <==> IsAbs(path)
  {
    var comps := PushAll(IsAbs(path), [], Split(path));
    CleanPath(IsAbs(path), if !IsAbs(path) && comps == [] then ["."] else comps)
  }

  predicate IsAbs(path: string) {
    path != "" && path[0] == '/'
  }

  /** outer is inner, or a folder somewhere above it. */
  predicate Contains(outer: CleanPath, inner: CleanPath) {
    outer.rooted == inner.rooted && outer.comps <= inner.comps
  }

  function Joined(comps: seq<string>): string {
    if comps == [] then "" else comps[0] + "/" + Joined(comps[1..])
  }

  /** The sort key: the cleaned path and a slash ("/" alone for the root). */
  function Key(p: CleanPath): string {
    (if p.rooted then "/" else "") + Joined(p.comps)
  }

  /** Go's < on strings. */
  predicate Less(a: string, b: string) {
    b != "" && (a == "" || a[0] < b[0] || (a[0] == b[0] && Less(a[1..], b[1..])))
  }

  lemma {:induction false} LessIrreflexive(a: string)
    ensures !Less(a, a)
  {
    if a != "" { LessIrreflexive(a[1..]); }
  }

  lemma {:induction false} LessTotal(a: string, b: string)
    ensures a == b || Less(a, b) || Less(b, a)
    ensures !(Less(a, b) && Less(b, a))
    ensures !Less(a, a)
    decreases |a| + |b|
  {
    if a != "" {
      LessIrreflexive(a);
      if b != "" {
        LessTotal(a[1..], b[1..]);
        assert a == [a[0]] + a[1..] && b == [b[0]] + b[1..];
      }
    }
  }

  lemma {:induction false} LessTransitive(a: string, b: string, c: string)
    requires Less(a, b) && Less(b, c)
    ensures Less(a, c)
  {
    if a != "" && a[0] == b[0] && b[0] == c[0] {
      LessTransitive(a[1..], b[1..], c[1..]);
    }
  }

  lemma {:induction false} PrefixLess(a: string, b: string)
    requires a <= b
    ensures a == b || Less(a, b)
  {
    if a != "" {
      PrefixLess(a[1..], b[1..]);
      assert a == [a[0]] + a[1..] && b == [b[0]] + b[1..];
    }
  }

  /** What starts with a sorts as one block: the reason for the key's slash. */
  lemma {:induction false} PrefixBlock(a: string, m: string, b: string)
    requires a <= b
    requires a == m || Less(a, m)
    requires m == b || Less(m, b)
    ensures a <= m
  {
    if a != "" && a != m && m != b {
      if m[0] == a[0] {
        PrefixBlock(a[1..], m[1..], b[1..]);
        assert a == [a[0]] + a[1..] && m == [m[0]] + m[1..];
      }
    }
  }

  lemma PrefixChain(a: string, b: string, whole: string)
    requires a <= whole && b <= whole && |a| <= |b|
    ensures a <= b
  {
    assert forall i | 0 <= i < |a| :: a[i] == whole[i] == b[i];
  }

  lemma {:induction false} FirstSlash(c: string, rest: string, d: string, more: string)
    requires '/' !in c && '/' !in d
    requires c + "/" + rest <= d + "/" + more
    ensures c == d && rest <= more
  {
    var x, y := c + "/" + rest, d + "/" + more;
    assert x[|c|] == '/' && y[|d|] == '/';
    assert forall i | 0 <= i < |c| :: x[i] == c[i] && x[i] != '/';
    assert forall i | 0 <= i < |d| :: y[i] == d[i] && y[i] != '/';
    assert |c| == |d|;
    assert forall i | 0 <= i < |c| :: c[i] == x[i] == y[i] == d[i];
    assert c == d;
    assert forall i | 0 <= i < |rest| :: rest[i] == x[|c| + 1 + i] == y[|c| + 1 + i] == more[i];
  }

  lemma {:induction false} JoinedPrefix(a: seq<string>, b: seq<string>)
    requires Plain(false, a) && Plain(false, b)
    ensures Joined(a) <= Joined(b) <==> a <= b
  {
    if a == [] {
    } else if b == [] {
      assert |Joined(a)| > 0;
    } else {
      JoinedPrefix(a[1..], b[1..]);
      if Joined(a) <= Joined(b) {
        FirstSlash(a[0], Joined(a[1..]), b[0], Joined(b[1..]));
        assert a == [a[0]] + a[1..] && b == [b[0]] + b[1..];
      }
      if a <= b {
        assert a[1..] <= b[1..];
        var more := Joined(b[1..])[|Joined(a[1..])|..];
        assert Joined(b) == Joined(a) + more;
      }
    }
  }

  /** "Starts with the key" is containment, which every forest result rests on. */
  lemma KeyPrefixIsContainment(a: CleanPath, b: CleanPath)
    requires a.Valid() && b.Valid()
    ensures Key(a) <= Key(b) <==> Contains(a, b)
    ensures Key(a) == Key(b) <==> a == b
  {
    KeyPrefixOneWay(a, b);
    KeyPrefixOneWay(b, a);
  }

  lemma KeyPrefixOneWay(a: CleanPath, b: CleanPath)
    requires a.Valid() && b.Valid()
    ensures Key(a) <= Key(b) <==> Contains(a, b)
  {
    JoinedPrefix(a.comps, b.comps);
    var x, y := Joined(a.comps), Joined(b.comps);
    if a.rooted && b.rooted {
      assert "/" + x <= "/" + y <==> x <= y by {
        assert ("/" + x)[1..] == x && ("/" + y)[1..] == y;
      }
    } else if a.rooted != b.rooted {
      assert !a.rooted ==> Key(a)[0] == a.comps[0][0] != '/';
      assert !b.rooted ==> Key(b)[0] == b.comps[0][0] != '/';
    } else {
      assert Key(a) == x && Key(b) == y;
    }
  }

  // ---- Clean by its rules ----

  /** Nothing more to clean: no "." but alone, and ".." only at the front of a
      relative path. */
  ghost predicate Normal(p: CleanPath) {
    p.Valid() && (p.rooted || p.comps == ["."] || UpsFirst(p.comps))
  }

  ghost predicate UpsFirst(comps: seq<string>) {
    forall i | 0 <= i < |comps| ::
      comps[i] != "." && (comps[i] == ".." ==> forall j | 0 <= j < i :: comps[j] == "..")
  }

  lemma SplitCons(c: char, rest: string)
    ensures Split([c] + rest) == Begin(c, Split(rest))
  {
    assert ([c] + rest)[1..] == rest;
  }

  lemma BeginOver(c: char, x: seq<string>, y: seq<string>)
    requires Parts(x) && x != [] && Parts(y) && Parts(x + y)
    ensures Begin(c, x + y) == Begin(c, x) + y
  {
    assert (x + y)[0] == x[0] && (x + y)[1..] == x[1..] + y;
    if c == '/' { Regroup([""], x, y); } else { Regroup([[c] + x[0]], x[1..], y); }
  }

  lemma Regroup<T>(x: seq<T>, y: seq<T>, z: seq<T>)
    ensures x + (y + z) == x + y + z
  {
  }

  lemma SplitAt(a: string, b: string)
    ensures Split(a + "/" + b) == Split(a) + Split(b)
  {
    var tail := "/" + b;
    assert a + "/" + b == a + tail;
    SplitOver(a, tail, b);
  }

  lemma {:induction false} SplitOver(a: string, tail: string, b: string)
    requires tail == ['/'] + b
    ensures Split(a + tail) == Split(a) + Split(b)
  {
    if a == "" {
      assert a + tail == tail;
      SplitCons('/', b);
    } else {
      SplitOver(a[1..], tail, b);
      SplitCons(a[0], a[1..]);
      SplitCons(a[0], a[1..] + tail);
      BeginOver(a[0], Split(a[1..]), Split(b));
      assert a == [a[0]] + a[1..] && a + tail == [a[0]] + (a[1..] + tail);
    }
  }

  lemma {:induction false} SplitName(c: string)
    requires '/' !in c
    ensures Split(c) == [c]
  {
    if c != "" {
      SplitName(c[1..]);
      assert c == [c[0]] + c[1..];
    }
  }

  lemma {:induction false} PushOver(rooted: bool, done: seq<string>, a: seq<string>, b: seq<string>)
    requires Plain(rooted, done) && Parts(a) && Parts(b)
    ensures Parts(a + b) && PushAll(rooted, done, a + b) == PushAll(rooted, PushAll(rooted, done, a), b)
    decreases |a|
  {
    if a == [] {
      assert a + b == b;
    } else {
      assert (a + b)[0] == a[0] && (a + b)[1..] == a[1..] + b;
      PushOver(rooted, Push(rooted, done, a[0]), a[1..], b);
    }
  }

  /** Whatever was cleaned so far, m and n do the same to it. */
  ghost predicate SamePushed(rooted: bool, m: seq<string>, n: seq<string>)
    requires Parts(m) && Parts(n)
  {
    forall done | Plain(rooted, done) :: PushAll(rooted, done, m) == PushAll(rooted, done, n)
  }

  lemma PushedAlike(rooted: bool, a: seq<string>, m: seq<string>, n: seq<string>, b: seq<string>)
    requires Parts(a) && Parts(m) && Parts(n) && Parts(b) && SamePushed(rooted, m, n)
    ensures Parts(a + m + b) && Parts(a + n + b)
    ensures PushAll(rooted, [], a + m + b) == PushAll(rooted, [], a + n + b)
  {
    PushOver(rooted, [], a, m);
    PushOver(rooted, [], a, n);
    PushOver(rooted, [], a + m, b);
    PushOver(rooted, [], a + n, b);
  }

  /** Two paths that start alike and whose components do the same clean alike. */
  lemma CleansAlike(x: string, y: string, a: seq<string>, m: seq<string>, n: seq<string>, b: seq<string>)
    requires Parts(a) && Parts(m) && Parts(n) && Parts(b) && SamePushed(IsAbs(x), m, n)
    requires IsAbs(x) == IsAbs(y) && Split(x) == a + m + b && Split(y) == a + n + b
    ensures Clean(x) == Clean(y)
  {
    PushedAlike(IsAbs(x), a, m, n, b);
  }

  /** An empty component or "." does nothing, and ".." takes back the name before it. */
  lemma CleanSkips(a: string, name: string, b: string)
    requires '/' !in name && name != "" && name != "." && name != ".."
    ensures Clean(a + "//" + b) == Clean(a + "/" + b)
    ensures Clean(a + "/./" + b) == Clean(a + "/" + b)
    ensures Clean(a + "/" + name + "/../" + b) == Clean(a + "/" + b)
  {
    assert a + "/" + "" + "/" + b == a + "//" + b;
    assert a + "/" + "." + "/" + b == a + "/./" + b;
    SkippedAlone(a, "", b);
    SkippedAlone(a, ".", b);
    TakenBack(a, name, b);
  }

  lemma TakenBack(a: string, name: string, b: string)
    requires '/' !in name && name != "" && name != "." && name != ".."
    ensures Clean(a + "/" + name + "/../" + b) == Clean(a + "/" + b)
  {
    var back := "../" + b;
    assert a + "/" + name + "/../" + b == a + "/" + name + "/" + back;
    SplitAt(a, b);
    Inserted(a, name, back);
    StartsAlike(a, name + "/" + back, b);
    SplitBack(b);
    BackUp(IsAbs(a + "/" + b), name);
    JoinBack(Split(a), name, Split(b));
    CleansAlike(a + "/" + name + "/" + back, a + "/" + b, Split(a), [name, ".."], [], Split(b));
  }

  lemma JoinBack(x: seq<string>, name: string, y: seq<string>)
    ensures x + [name] + ([".."] + y) == x + [name, ".."] + y && x + y == x + [] + y
  {
  }

  lemma SplitBack(b: string)
    ensures Split("../" + b) == [".."] + Split(b)
  {
    assert ".." + "/" + b == "../" + b;
    SplitAt("..", b);
    SplitName("..");
  }

  lemma StartsAlike(a: string, x: string, y: string)
    ensures IsAbs(a + "/" + x) == IsAbs(a + "/" + y)
  {
    if a != "" { assert (a + "/" + x)[0] == a[0] == (a + "/" + y)[0]; }
  }

  lemma SkippedAlone(a: string, m: string, b: string)
    requires m == "" || m == "."
    ensures Clean(a + "/" + m + "/" + b) == Clean(a + "/" + b)
  {
    Inserted(a, m, b);
    StartsAlike(a, m + "/" + b, b);
    SplitAt(a, b);
    var plain := a + "/" + b;
    assert Split(plain) == Split(a) + [] + Split(b);
    assert SamePushed(IsAbs(plain), [m], []) by { PushedNone(IsAbs(plain), m); }
    CleansAlike(a + "/" + m + "/" + b, plain, Split(a), [m], [], Split(b));
  }

  lemma PushedNone(rooted: bool, m: string)
    requires m == "" || m == "."
    ensures SamePushed(rooted, [m], [])
  {
    assert [m][1..] == [];
  }

  lemma Inserted(a: string, m: string, b: string)
    requires '/' !in m
    ensures a + "/" + (m + "/" + b) == a + "/" + m + "/" + b
    ensures Split(a + "/" + m + "/" + b) == Split(a) + [m] + Split(b)
  {
    Regroup(a + "/", m + "/", b);
    Regroup(a + "/", m, "/");
    SplitAt(a, m + "/" + b);
    SplitAt(m, b);
    SplitName(m);
    Regroup(Split(a), [m], Split(b));
  }

  lemma BackUp(rooted: bool, name: string)
    requires '/' !in name && name != "" && name != "." && name != ".."
    ensures SamePushed(rooted, [name, ".."], [])
  {
    forall done | Plain(rooted, done) ensures PushAll(rooted, done, [name, ".."]) == PushAll(rooted, done, []) {
      assert [name, ".."][1..] == [".."] && [".."][1..] == [];
      assert Push(rooted, done + [name], "..") == done;
      assert PushAll(rooted, done + [name], [".."]) == PushAll(rooted, done, []);
    }
  }

  /** The root is its own parent. */
  lemma CleanRoot(b: string)
    ensures Clean("/../" + b) == Clean("/" + b)
  {
    var up, plain := "/../" + b, "/" + b;
    assert "" + "/" + ("../" + b) == up && "" + "/" + b == plain;
    SplitBack(b);
    SplitAt("", "../" + b);
    SplitAt("", b);
    assert Split(up) == ["", ".."] + Split(b) && Split(plain) == [""] + Split(b);
    RootUps();
    PushOver(true, [], ["", ".."], Split(b));
    PushOver(true, [], [""], Split(b));
  }

  lemma RootUps()
    ensures Parts(["", ".."]) && Parts([""])
    ensures PushAll(true, [], ["", ".."]) == [] == PushAll(true, [], [""])
  {
    assert ["", ".."][1..] == [".."] && [".."][1..] == [] && [""][1..] == [];
    assert PushAll(true, [], [".."]) == PushAll(true, [], []) == PushAll(true, [], [""]);
  }

  lemma {:induction false} PushNames(rooted: bool, done: seq<string>, comps: seq<string>)
    requires Plain(rooted, done) && Parts(comps + [""]) && Plain(rooted, done + comps)
    requires rooted || UpsFirst(done + comps)
    ensures PushAll(rooted, done, comps + [""]) == done + comps
    decreases |comps|
  {
    if comps == [] {
      assert comps + [""] == [""] && [""][1..] == [];
      assert PushAll(rooted, done, [""]) == PushAll(rooted, done, []) == done + comps;
    } else {
      var c := comps[0];
      assert (comps + [""])[0] == c && (comps + [""])[1..] == comps[1..] + [""];
      assert done + comps == (done + [c]) + comps[1..] && (done + comps)[|done|] == c;
      if done != [] && c == ".." { assert (done + comps)[|done| - 1] == ".."; }
      assert Push(rooted, done, c) == done + [c];
      PushNames(rooted, done + [c], comps[1..]);
    }
  }

  lemma {:induction false} SplitJoinedComps(comps: seq<string>)
    requires Plain(false, comps)
    ensures Split(Joined(comps)) == comps + [""]
  {
    if comps != [] {
      SplitJoinedComps(comps[1..]);
      SplitAt(comps[0], Joined(comps[1..]));
      SplitName(comps[0]);
      assert comps == [comps[0]] + comps[1..];
    }
  }

  /** What is clean already, written out, cleans to itself. */
  lemma CleanOfClean(p: CleanPath)
    requires Normal(p)
    ensures Clean(Key(p)) == p
  {
    SplitJoinedComps(p.comps);
    if p.rooted {
      RootedOfClean(p);
    } else if p.comps == ["."] {
      assert Key(p) == Joined(p.comps) && Split(Key(p)) == p.comps + [""] == [".", ""];
      assert Key(p)[0] == p.comps[0][0] == '.';
      assert [".", ""][1..] == [""] && [""][1..] == [];
      assert PushAll(false, [], [".", ""]) == PushAll(false, [], [""]) == PushAll(false, [], []) == [];
    } else {
      assert Key(p) == Joined(p.comps) && Key(p)[0] == p.comps[0][0];
      assert [] + p.comps == p.comps;
      PushNames(false, [], p.comps);
    }
  }

  lemma RootedOfClean(p: CleanPath)
    requires p.rooted && p.Valid()
    ensures Clean(Key(p)) == p
  {
    SplitJoinedComps(p.comps);
    SplitAt("", Joined(p.comps));
    assert "" + "/" + Joined(p.comps) == Key(p);
    assert [] + p.comps == p.comps;
    PushNames(true, [], p.comps);
    var parts := [""] + (p.comps + [""]);
    assert Split(Key(p)) == parts && parts[0] == "" && parts[1..] == p.comps + [""];
  }

  lemma {:induction false} PushUpsFirst(done: seq<string>, parts: seq<string>)
    requires Parts(parts) && Plain(false, done) && UpsFirst(done)
    ensures UpsFirst(PushAll(false, done, parts))
    decreases |parts|
  {
    if parts != [] {
      var c := parts[0];
      var next := Push(false, done, c);
      if next == done + [c] && c == ".." {
        assert forall j | 0 <= j < |done| :: done[j] == "..";
      }
      assert UpsFirst(next);
      PushUpsFirst(next, parts[1..]);
    }
  }

  /** Clean leaves nothing to clean. */
  lemma CleanIsNormal(path: string)
    ensures Normal(Clean(path))
  {
    if !IsAbs(path) { PushUpsFirst([], Split(path)); }
  }
}
