// A binary property list written out whole, and read back by the reader of
// internal/scanner/plist.go.
module PlistFile {
  import opened Catalog
  import opened Plist

  // ---- the writer ----

  /** Objects one after another. */
  function Concat(objs: seq<Bytes>): Bytes {
    if objs == [] then [] else Concat(objs[..|objs| - 1]) + objs[|objs| - 1]
  }

  /** Where object i starts, after the header. */
  function StartOf(objs: seq<Bytes>, i: nat): nat
    requires i <= |objs|
  {
    8 + |Concat(objs[..i])|
  }

  /** n pieces of one size. */
  function Times(n: nat, size: nat): nat {
    if n == 0 then 0 else Times(n - 1, size) + size
  }

  lemma {:induction false} TimesIs(n: nat, size: nat)
    ensures Times(n, size) == n * size
  {
    if n > 0 {
      TimesIs(n - 1, size);
      assert (n - 1) * size + size == n * size;
    }
  }

  /** The offset table of the first n objects, each entry as wide as size. */
  function Table(objs: seq<Bytes>, n: nat, size: nat): (t: Bytes)
    requires n <= |objs|
    ensures |t| == Times(n, size)
  {
    if n == 0 then [] else Table(objs, n - 1, size) + ToBytes(StartOf(objs, n - 1), size)
  }

  predicate Widths(f: Format) { 1 <= f.offsetSize <= 8 && 1 <= f.refSize <= 8 }

  function Trailer(f: Format, count: nat, top: nat, tableAt: nat): (t: Bytes)
    requires Widths(f)
    ensures |t| == 32
  {
    [0, 0, 0, 0, 0, 0, f.offsetSize as u8, f.refSize as u8] + ToBytes(count, 8) + ToBytes(top, 8) + ToBytes(tableAt, 8)
  }

  function FileOf(objs: seq<Bytes>, top: nat, f: Format): Bytes
    requires Widths(f)
  {
    HEADER + Concat(objs) + Table(objs, |objs|, f.offsetSize) + Trailer(f, |objs|, top, 8 + |Concat(objs)|)
  }

  /** Every object starts where an offset of the format can point. */
  predicate Writable(objs: seq<Bytes>, top: nat, f: Format) {
    && Widths(f) && (forall o <- objs :: o != [])
    && (forall i | 0 <= i < |objs| :: StartOf(objs, i) < Pow(256, f.offsetSize))
    && top < 0x8000_0000_0000_0000 && |FileOf(objs, top, f)| < 0x8000_0000_0000_0000
  }

  /** The layout the reader takes from a written file. */
  function LayoutOf(objs: seq<Bytes>, top: nat, f: Format): Bplist
    requires Writable(objs, top, f)
  {
    Sizes(objs, top, f);
    Bplist(FileOf(objs, top, f), f.offsetSize as u64, f.refSize as u64, |objs| as u64, top as u64,
           (8 + |Concat(objs)|) as u64, (|FileOf(objs, top, f)| - 32) as u64)
  }

  lemma Sizes(objs: seq<Bytes>, top: nat, f: Format)
    requires Widths(f)
    ensures |FileOf(objs, top, f)| == 8 + |Concat(objs)| + Times(|objs|, f.offsetSize) + 32
      && |objs| <= Times(|objs|, f.offsetSize)
  {
    TimesIs(|objs|, f.offsetSize);
    AtLeast(|objs|, f.offsetSize);
  }

  lemma AtLeast(n: nat, size: nat)
    requires size >= 1
    ensures n <= n * size
  {
  }

  // ---- pieces ----

  lemma HoldsIn(data: Bytes, at: nat, w: Bytes, skip: nat, piece: Bytes)
    requires HoldsAt(data, at, w) && HoldsAt(w, skip, piece)
    ensures HoldsAt(data, at + skip, piece)
  {
    PieceAt(data, at, w, skip, |piece|);
  }

  lemma MiddleHolds(a: Bytes, x: Bytes, c: Bytes)
    ensures HoldsAt(a + x + c, |a|, x)
  {
  }

  lemma Appended(rest: Bytes, last: Bytes, at: nat, piece: Bytes)
    ensures HoldsAt(rest, at, piece) ==> HoldsAt(rest + last, at, piece)
    ensures HoldsAt(rest + last, |rest|, last)
  {
    if HoldsAt(rest, at, piece) { assert (rest + last)[at..at + |piece|] == rest[at..at + |piece|]; }
  }

  lemma {:induction false} ObjectHolds(objs: seq<Bytes>, i: nat)
    requires i < |objs|
    ensures HoldsAt(Concat(objs), |Concat(objs[..i])|, objs[i])
  {
    var rest, last := objs[..|objs| - 1], objs[|objs| - 1];
    if i < |rest| {
      ObjectHolds(rest, i);
      assert rest[..i] == objs[..i];
    }
    Appended(Concat(rest), last, |Concat(objs[..i])|, objs[i]);
  }

  lemma {:induction false} EntryHolds(objs: seq<Bytes>, n: nat, i: nat, size: nat)
    requires i < n <= |objs|
    ensures HoldsAt(Table(objs, n, size), Times(i, size), ToBytes(StartOf(objs, i), size))
  {
    var at, piece := Times(i, size), ToBytes(StartOf(objs, i), size);
    if i < n - 1 { EntryHolds(objs, n - 1, i, size); }
    Appended(Table(objs, n - 1, size), ToBytes(StartOf(objs, n - 1), size), at, piece);
  }

  lemma FileHolds(objs: seq<Bytes>, top: nat, f: Format)
    requires Widths(f)
    ensures HoldsAt(FileOf(objs, top, f), 8, Concat(objs))
    ensures HoldsAt(FileOf(objs, top, f), 8 + |Concat(objs)|, Table(objs, |objs|, f.offsetSize))
    ensures FileOf(objs, top, f)[..8] == HEADER
    ensures FileOf(objs, top, f)[|FileOf(objs, top, f)| - 32..] == Trailer(f, |objs|, top, 8 + |Concat(objs)|)
  {
    var c, t, e := Concat(objs), Table(objs, |objs|, f.offsetSize), Trailer(f, |objs|, top, 8 + |Concat(objs)|);
    MiddleHolds(HEADER, c, t + e);
    assert HEADER + c + (t + e) == FileOf(objs, top, f);
    MiddleHolds(HEADER + c, t, e);
  }

  // ---- the reader on a written file ----

  lemma NumberRead(n: nat, s: Bytes)
    requires n < 0x8000_0000_0000_0000 && s == ToBytes(n, 8)
    ensures BigEndian(s) == n
  {
    EightIsEnough(n);
    ReadsWritten(n, 8);
  }

  lemma EightIsEnough(n: nat)
    requires n < 0x8000_0000_0000_0000
    ensures n < Pow(256, 8)
  {
    assert Pow(256, 4) == 0x1_0000_0000;
    assert Pow(256, 8) == 256 * (256 * (256 * (256 * Pow(256, 4))));
  }

  lemma TrailerParts(f: Format, count: nat, top: nat, tableAt: nat)
    requires Widths(f)
    ensures var tr := Trailer(f, count, top, tableAt);
      && tr[6] as nat == f.offsetSize && tr[7] as nat == f.refSize
      && tr[8..16] == ToBytes(count, 8) && tr[16..24] == ToBytes(top, 8) && tr[24..32] == ToBytes(tableAt, 8)
  {
  }

  /** The trailer is accepted, and says where everything is. */
  lemma LayoutRead(objs: seq<Bytes>, top: nat, f: Format)
    requires Writable(objs, top, f)
    ensures LayoutOf(objs, top, f).Valid() && ReadBplist(FileOf(objs, top, f)) == Ok(LayoutOf(objs, top, f))
  {
    var data, tableAt, table := FileOf(objs, top, f), 8 + |Concat(objs)|, Times(|objs|, f.offsetSize);
    Sizes(objs, top, f);
    FileHolds(objs, top, f);
    TimesIs(|objs|, f.offsetSize);
    FitsIn(|objs|, table, f.offsetSize);
    LayoutIs(data, f, |objs|, top, tableAt, Trailer(f, |objs|, top, tableAt));
    TrailerRead(data, LayoutOf(objs, top, f), table, Trailer(f, |objs|, top, tableAt));
  }

  lemma LayoutIs(data: Bytes, f: Format, count: nat, top: nat, tableAt: nat, tr: Bytes)
    requires Widths(f) && 32 <= |data| < 0x8000_0000_0000_0000 && tr == Trailer(f, count, top, tableAt)
    requires count < 0x8000_0000_0000_0000 && top < 0x8000_0000_0000_0000 && tableAt < 0x8000_0000_0000_0000
    ensures LayoutIn(data, tr) ==
      Bplist(data, f.offsetSize as u64, f.refSize as u64, count as u64, top as u64, tableAt as u64,
        (|data| - 32) as u64)
  {
    TrailerParts(f, count, top, tableAt);
    NumberRead(count, tr[8..16]);
    NumberRead(top, tr[16..24]);
    NumberRead(tableAt, tr[24..32]);
  }

  lemma TrailerRead(data: Bytes, b: Bplist, table: nat, tr: Bytes)
    requires 40 <= |data| < 0x8000_0000_0000_0000 && data[..8] == HEADER && data[|data| - 32..] == tr
    requires b == LayoutIn(data, tr) && 1 <= b.offsetSize <= 8 && 8 <= b.tableAt
    requires b.tableAt as nat + table + 32 == |data| && b.count as nat <= table / b.offsetSize as nat
    ensures b.Valid() && ReadBplist(data) == Ok(b)
  {
  }

  lemma FitsIn(n: nat, room: nat, width: nat)
    requires width > 0 && n * width <= room
    ensures n <= room / width
  {
    var q := room / width;
    assert room < q * width + width;
    assert (q + 1) * width == q * width + width;
    if q < n { Larger(q + 1, n, width); }
  }

  /** The reader finds object i where it was written, before the table. */
  ghost predicate There(b: Bplist, objs: seq<Bytes>, i: nat)
    requires i < |objs|
  {
    var at := StartOf(objs, i);
    && b.Valid() && objs[i] != [] && i < b.count as nat
    && at + |objs[i]| <= b.tableAt as nat && HoldsAt(b.data, at, objs[i])
    && ObjectAt(b, i as u64) == Ok(at as u64)
  }

  ghost predicate AllThere(b: Bplist, objs: seq<Bytes>, f: Format) {
    && b.Valid() && Widths(f) && b.refSize as nat == f.refSize && b.count as nat == |objs|
    && forall i | 0 <= i < |objs| :: There(b, objs, i)
  }

  lemma ObjectsFound(objs: seq<Bytes>, top: nat, f: Format)
    requires Writable(objs, top, f)
    ensures AllThere(LayoutOf(objs, top, f), objs, f) && LayoutOf(objs, top, f).top as nat == top
  {
    LayoutRead(objs, top, f);
    FileHolds(objs, top, f);
    forall i | 0 <= i < |objs| ensures There(LayoutOf(objs, top, f), objs, i) {
      assert objs[i] in objs;
      ObjectFound(objs, LayoutOf(objs, top, f), i, f.offsetSize);
    }
  }

  lemma ObjectFound(objs: seq<Bytes>, b: Bplist, i: nat, size: nat)
    requires b.Valid() && i < |objs| == b.count as nat && b.offsetSize as nat == size
    requires b.tableAt as nat == 8 + |Concat(objs)| && objs[i] != [] && StartOf(objs, i) < Pow(256, size)
    requires HoldsAt(b.data, 8, Concat(objs)) && HoldsAt(b.data, b.tableAt as nat, Table(objs, |objs|, size))
    ensures There(b, objs, i)
  {
    var at := StartOf(objs, i);
    ObjectHolds(objs, i);
    HoldsIn(b.data, 8, Concat(objs), |Concat(objs[..i])|, objs[i]);
    EntryHolds(objs, |objs|, i, size);
    HoldsIn(b.data, b.tableAt as nat, Table(objs, |objs|, size), Times(i, size), ToBytes(at, size));
    EntryRead(b, i as u64, at, size, b.tableAt as nat + Times(i, size));
  }

  lemma EntryRead(b: Bplist, i: u64, at: nat, size: nat, pos: nat)
    requires b.Valid() && i < b.count && b.offsetSize as nat == size && 8 <= at < b.tableAt as nat
    requires at < Pow(256, size) && pos == b.tableAt as nat + Times(i as nat, size)
      && HoldsAt(b.data, pos, ToBytes(at, size))
    ensures ObjectAt(b, i) == Ok(at as u64)
  {
    EntryFits(b, i);
    TimesIs(i as nat, size);
    IntegerRead(b, pos, at, size, b.body);
  }

  // ---- strings ----

  predicate AllStorable(texts: seq<Text>, f: Format) {
    forall t <- texts :: Storable(t, f)
  }

  function WrittenAll(texts: seq<Text>, f: Format): (objs: seq<Bytes>)
    requires AllStorable(texts, f)
    ensures |objs| == |texts| && forall o <- objs :: o != []
  {
    seq(|texts|, i requires 0 <= i < |texts| => Written(texts[i], f))
  }

  function Strings(texts: seq<Text>, decode: seq<nat> -> Bytes): seq<Bytes> {
    seq(|texts|, i requires 0 <= i < |texts| => Decoded(texts[i], decode))
  }

  lemma StringFound(b: Bplist, objs: seq<Bytes>, i: nat, t: Text, f: Format)
    requires i < |objs| && There(b, objs, i) && Storable(t, f) && objs[i] == Written(t, f)
    ensures ObjectString(b, i as u64) == Ok(Some(t))
  {
    StringReadBack(b, StartOf(objs, i) as u64, t, f);
  }

  lemma StringsNext(texts: seq<Text>, n: nat, decode: seq<nat> -> Bytes)
    requires n < |texts|
    ensures Strings(texts[..n + 1], decode) == Strings(texts[..n], decode) + [Decoded(texts[n], decode)]
  {
  }

  lemma {:induction false} StringsFound(b: Bplist, objs: seq<Bytes>, texts: seq<Text>, f: Format, n: nat,
                                        decode: seq<nat> -> Bytes)
    requires AllStorable(texts, f) && AllThere(b, objs, f) && objs == WrittenAll(texts, f) && n <= |texts|
    ensures StringsTo(b, n, decode) == Ok(Strings(texts[..n], decode))
  {
    if n == 0 {
      assert Strings(texts[..0], decode) == [];
    } else {
      var k := n - 1;
      StringsFound(b, objs, texts, f, k, decode);
      assert texts[k] in texts && There(b, objs, k);
      StringFound(b, objs, k, texts[k], f);
      NextString(b, k as u64, Strings(texts[..k], decode), decode);
      StringsNext(texts, k, decode);
    }
  }

  /** A list of strings, each stored as bytes or as UTF-16, written in any format and
      read: the same strings, in order. */
  lemma StringsReadBack(texts: seq<Text>, top: nat, f: Format, decode: seq<nat> -> Bytes)
    requires AllStorable(texts, f) && Writable(WrittenAll(texts, f), top, f)
    ensures var b := ReadBplist(FileOf(WrittenAll(texts, f), top, f));
      b.Ok? && StringsTo(b.value, b.value.count as nat, decode) == Ok(Strings(texts, decode))
  {
    var objs := WrittenAll(texts, f);
    LayoutRead(objs, top, f);
    ObjectsFound(objs, top, f);
    StringsFound(LayoutOf(objs, top, f), objs, texts, f, |texts|, decode);
    assert texts[..|texts|] == texts;
  }

  // ---- a dictionary ----

  /** References to the objects first to first + n - 1. */
  function RefList(first: nat, n: nat, size: nat): (r: Bytes)
    ensures |r| == Times(n, size)
  {
    if n == 0 then [] else RefList(first, n - 1, size) + ToBytes(first + n - 1, size)
  }

  /** n pairs can be counted, and the objects they take referred to. */
  predicate Pairable(n: nat, f: Format) {
    n < 0x4000_0000_0000_0000 && Spells(f, n) && 2 * n < Pow(256, f.refSize)
  }

  /** The dictionary object of n pairs: keys are objects 1 to n, values the n after them. */
  function DictObject(n: nat, f: Format): (o: Bytes)
    requires Spells(f, n)
    ensures o != []
  {
    Head(13, n, f) + RefList(1, 2 * n, f.refSize)
  }

  function DictObjects(keys: seq<Text>, values: seq<Text>, f: Format): (objs: seq<Bytes>)
    requires AllStorable(keys, f) && AllStorable(values, f) && |keys| == |values| && Pairable(|keys|, f)
    ensures |objs| == 1 + 2 * |keys| && forall o <- objs :: o != []
  {
    [DictObject(|keys|, f)] + WrittenAll(keys, f) + WrittenAll(values, f)
  }

  /** The pairs as a map: a later key replaces an equal earlier one. */
  function MapOf(keys: seq<Text>, values: seq<Text>, n: nat, decode: seq<nat> -> Bytes): map<Bytes, Bytes>
    requires n <= |keys| == |values|
  {
    if n == 0 then map[]
    else MapOf(keys, values, n - 1, decode)[Decoded(keys[n - 1], decode) := Decoded(values[n - 1], decode)]
  }

  lemma {:induction false} RefHolds(first: nat, n: nat, k: nat, size: nat)
    requires k < n
    ensures HoldsAt(RefList(first, n, size), Times(k, size), ToBytes(first + k, size))
  {
    var at, piece := Times(k, size), ToBytes(first + k, size);
    if k < n - 1 { RefHolds(first, n - 1, k, size); }
    Appended(RefList(first, n - 1, size), ToBytes(first + n - 1, size), at, piece);
  }

  /** n pairs of references of a size fit where they were written. */
  lemma PairsFitThere(b: Bplist, refs: u64, n: nat, size: nat)
    requires b.Valid() && b.refSize as nat == size && 1 <= size <= 8 && n < 0x4000_0000_0000_0000
    requires refs as nat + Times(2 * n, size) <= b.tableAt as nat
    ensures PairsFit(b, refs, n as u64)
  {
    TimesIs(2 * n, size);
    assert n * (2 * size) == (2 * n) * size;
    FitsIn(n, (b.tableAt - refs) as nat, 2 * size);
  }

  /** Reference k of the dictionary is to object k + 1. */
  lemma RefRead(b: Bplist, refs: u64, n: nat, k: nat, size: nat)
    requires b.Valid() && b.refSize as nat == size && 1 <= size <= 8 && k < 2 * n && n < 0x4000_0000_0000_0000
    requires refs <= b.tableAt && PairsFit(b, refs, n as u64) && 2 * n < Pow(256, size)
    requires HoldsAt(b.data, refs as nat, RefList(1, 2 * n, size))
    ensures RefAt(b, refs, n as u64, k as u64) as nat == k + 1
  {
    RefHoldsIn(b.data, refs as nat, 2 * n, k, size);
    RefReadAt(b, refs, n, k, size, refs as nat + Times(k, size));
  }

  lemma RefHoldsIn(data: Bytes, at: nat, n: nat, k: nat, size: nat)
    requires k < n && HoldsAt(data, at, RefList(1, n, size))
    ensures HoldsAt(data, at + Times(k, size), ToBytes(1 + k, size))
  {
    RefHolds(1, n, k, size);
    HoldsIn(data, at, RefList(1, n, size), Times(k, size), ToBytes(1 + k, size));
  }

  lemma RefReadAt(b: Bplist, refs: u64, n: nat, k: nat, size: nat, pos: nat)
    requires b.Valid() && b.refSize as nat == size && 1 <= size <= 8 && k < 2 * n && n < 0x4000_0000_0000_0000
    requires refs <= b.tableAt && PairsFit(b, refs, n as u64) && 1 + k < Pow(256, size)
    requires pos == refs as nat + Times(k, size) && HoldsAt(b.data, pos, ToBytes(1 + k, size))
    ensures RefAt(b, refs, n as u64, k as u64) as nat == k + 1
  {
    RefFits(b, refs, n as u64, k);
    TimesIs(k, size);
    IntegerRead(b, pos, 1 + k, size, b.tableAt);
  }

  lemma TopRefsRead(b: Bplist, objs: seq<Bytes>, n: nat, f: Format) returns (ks: seq<u64>)
    requires objs != [] && AllThere(b, objs, f) && b.top == 0 && Pairable(n, f) && objs[0] == DictObject(n, f)
    ensures TopRefs(b) == Ok(ks) && |ks| == 2 * n && forall k | 0 <= k < 2 * n :: ks[k] as nat == k + 1
  {
    assert There(b, objs, 0);
    var at, head, refs := StartOf(objs, 0), Head(13, n, f), RefList(1, 2 * n, f.refSize);
    TwoParts(b.data, at, head, refs);
    LengthRead(b, at as u64, 13, n, f, head);
    ks := RefsRead(b, (at + |head|) as u64, n, f.refSize);
  }

  lemma RefsRead(b: Bplist, refs: u64, n: nat, size: nat) returns (ks: seq<u64>)
    requires b.Valid() && b.refSize as nat == size && 1 <= size <= 8 && n < 0x4000_0000_0000_0000
      && 2 * n < Pow(256, size)
    requires refs as nat + Times(2 * n, size) <= b.tableAt as nat
      && HoldsAt(b.data, refs as nat, RefList(1, 2 * n, size))
    ensures refs <= b.tableAt && PairsFit(b, refs, n as u64) && ks == Refs(b, refs, n as u64)
    ensures |ks| == 2 * n && forall k | 0 <= k < 2 * n :: ks[k] as nat == k + 1
  {
    PairsFitThere(b, refs, n, size);
    ks := Refs(b, refs, n as u64);
    forall k | 0 <= k < 2 * n ensures ks[k] as nat == k + 1 {
      RefRead(b, refs, n, k, size);
    }
  }

  /** Object i is read as this text. */
  predicate ReadsAs(b: Bplist, i: nat, t: Text) {
    b.Valid() && i < 0x8000_0000_0000_0000 && ObjectString(b, i as u64) == Ok(Some(t))
  }

  lemma TextsFound(b: Bplist, objs: seq<Bytes>, texts: seq<Text>, f: Format, from: nat)
    requires AllThere(b, objs, f) && AllStorable(texts, f) && from + |texts| <= |objs| < 0x8000_0000_0000_0000
    requires objs[from..from + |texts|] == WrittenAll(texts, f)
    ensures AllReadAs(b, from, texts)
  {
    forall i | 0 <= i < |texts| ensures ReadsAs(b, from + i, texts[i]) {
      assert texts[i] in texts && objs[from..from + |texts|][i] == objs[from + i];
      assert There(b, objs, from + i);
      StringFound(b, objs, from + i, texts[i], f);
    }
  }

  /** Each pair is read as it was written. */
  ghost predicate PairsRead(ps: seq<Result<Pair>>, keys: seq<Text>, values: seq<Text>) {
    |keys| == |values| == |ps| && forall i | 0 <= i < |keys| :: ps[i] == Ok(Pair(keys[i], Some(values[i])))
  }

  lemma {:induction false} PairsFound(ps: seq<Result<Pair>>, keys: seq<Text>, values: seq<Text>, i: nat,
                                      decode: seq<nat> -> Bytes)
    requires PairsRead(ps, keys, values) && i <= |keys|
    ensures Gathered(ps, i, decode) == Ok(MapOf(keys, values, i, decode))
  {
    if i > 0 { PairsFound(ps, keys, values, i - 1, decode); }
  }

  lemma PairIs(b: Bplist, ks: seq<u64>, i: nat, n: nat, key: u64, value: u64, k: Text, v: Text)
    requires b.Valid() && i < n && |ks| == 2 * n && ks[i] == key && ks[n + i] == value
    requires ObjectString(b, key) == Ok(Some(k)) && ObjectString(b, value) == Ok(Some(v))
    ensures PairAt(b, ks, i) == Ok(Pair(k, Some(v)))
  {
  }

  lemma PairRead(b: Bplist, ks: seq<u64>, i: nat, n: nat, k: Text, v: Text)
    requires i < n && |ks| == 2 * n && ks[i] as nat == 1 + i && ks[n + i] as nat == 1 + n + i
    requires ReadsAs(b, 1 + i, k) && ReadsAs(b, 1 + n + i, v)
    ensures PairAt(b, ks, i) == Ok(Pair(k, Some(v)))
  {
    PairIs(b, ks, i, n, ks[i], ks[n + i], k, v);
  }

  /** Texts read as objects from one on. */
  predicate AllReadAs(b: Bplist, from: nat, texts: seq<Text>) {
    forall i | 0 <= i < |texts| :: ReadsAs(b, from + i, texts[i])
  }

  lemma OnePair(b: Bplist, keys: seq<Text>, values: seq<Text>, ks: seq<u64>, i: nat)
    requires |ks| == 2 * |keys| && |keys| == |values| && i < |keys| && ks[i] as nat == i + 1
    requires ks[|keys| + i] as nat == |keys| + i + 1
    requires AllReadAs(b, 1, keys) && AllReadAs(b, 1 + |keys|, values)
    ensures b.Valid() && PairAt(b, ks, i) == Ok(Pair(keys[i], Some(values[i])))
  {
    assert ReadsAs(b, 1 + i, keys[i]) && ReadsAs(b, 1 + |keys| + i, values[i]);
    PairRead(b, ks, i, |keys|, keys[i], values[i]);
  }

  lemma AllPairs(b: Bplist, keys: seq<Text>, values: seq<Text>, ks: seq<u64>)
    requires b.Valid() && |ks| == 2 * |keys| == 2 * |values| && forall k | 0 <= k < |ks| :: ks[k] as nat == k + 1
    requires AllReadAs(b, 1, keys) && AllReadAs(b, 1 + |keys|, values)
    ensures PairsRead(PairsOf(b, ks), keys, values)
  {
    forall i | 0 <= i < |keys| ensures PairAt(b, ks, i) == Ok(Pair(keys[i], Some(values[i]))) {
      OnePair(b, keys, values, ks, i);
    }
  }

  /** A dictionary of strings, each stored as bytes or as UTF-16, written in any format
      and read: the same pairs, the last one of a key that comes twice, however it is
      stored. */
  lemma DictReadBack(keys: seq<Text>, values: seq<Text>, f: Format, decode: seq<nat> -> Bytes)
    requires AllStorable(keys, f) && AllStorable(values, f) && |keys| == |values| && Pairable(|keys|, f)
    requires Writable(DictObjects(keys, values, f), 0, f)
    ensures var b := ReadBplist(FileOf(DictObjects(keys, values, f), 0, f));
      && b.Ok? && TopRefs(b.value).Ok?
      && var ks := TopRefs(b.value).value;
         Gathered(PairsOf(b.value, ks), |ks| / 2, decode) == Ok(MapOf(keys, values, |keys|, decode))
  {
    var objs := DictObjects(keys, values, f);
    LayoutRead(objs, 0, f);
    ObjectsFound(objs, 0, f);
    var ks := TopRefsRead(LayoutOf(objs, 0, f), objs, |keys|, f);
    DictFound(LayoutOf(objs, 0, f), objs, keys, values, f, ks, decode);
  }

  lemma DictFound(b: Bplist, objs: seq<Bytes>, keys: seq<Text>, values: seq<Text>, f: Format,
                  ks: seq<u64>, decode: seq<nat> -> Bytes)
    requires AllStorable(keys, f) && AllStorable(values, f) && |keys| == |values| && Pairable(|keys|, f)
    requires AllThere(b, objs, f) && objs == DictObjects(keys, values, f)
    requires |ks| == 2 * |keys| && forall k | 0 <= k < |ks| :: ks[k] as nat == k + 1
    ensures Gathered(PairsOf(b, ks), |keys|, decode) == Ok(MapOf(keys, values, |keys|, decode))
  {
    assert objs[1..1 + |keys|] == WrittenAll(keys, f);
    assert objs[1 + |keys|..1 + |keys| + |values|] == WrittenAll(values, f);
    TextsFound(b, objs, keys, f, 1);
    TextsFound(b, objs, values, f, 1 + |keys|);
    AllPairs(b, keys, values, ks);
    PairsFound(PairsOf(b, ks), keys, values, |keys|, decode);
  }
}
