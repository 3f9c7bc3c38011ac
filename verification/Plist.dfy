// Strings out of a binary property list: internal/scanner/plist.go. Offsets and sizes
// are 64-bit, so every sum, product and difference below is checked not to wrap, and
// every index to lie inside the data, whatever the bytes are.
module Plist {
  import opened Catalog

  newtype u8 = x: int | 0 <= x < 0x100
  newtype u64 = x: int | 0 <= x < 0x1_0000_0000_0000_0000

  type Bytes = seq<u8>

  datatype Result<+T> = Ok(value: T) | Err

  const HEADER: Bytes := [98, 112, 108, 105, 115, 116, 48, 48] // bplist00

  function Pow(base: nat, n: nat): nat { if n == 0 then 1 else base * Pow(base, n - 1) }

  // ---- big-endian integers ----

  function BigEndian(s: Bytes): nat {
    if s == [] then 0 else BigEndian(s[..|s| - 1]) * 256 + s[|s| - 1] as nat
  }

  lemma {:induction false} BigEndianFits(s: Bytes)
    ensures BigEndian(s) < Pow(256, |s|)
  {
    if s != [] { BigEndianFits(s[..|s| - 1]); }
  }

  lemma {:induction false} PowGrows(m: nat, n: nat)
    requires m <= n
    ensures Pow(256, m) <= Pow(256, n)
  {
    if m < n { PowGrows(m, n - 1); }
  }

  lemma EightBytes(s: Bytes)
    requires |s| <= 8
    ensures BigEndian(s) < 0x1_0000_0000_0000_0000
  {
    BigEndianFits(s);
    PowGrows(|s|, 8);
    assert Pow(256, 4) == 0x1_0000_0000;
    assert Pow(256, 8) == 256 * (256 * (256 * (256 * Pow(256, 4))));
  }

  /** The bytes of n, as many as size. */
  function ToBytes(n: nat, size: nat): (s: Bytes)
    ensures |s| == size
  {
    if size == 0 then [] else ToBytes(n / 256, size - 1) + [(n % 256) as u8]
  }

  lemma {:induction false} ReadsWritten(n: nat, size: nat)
    requires n < Pow(256, size)
    ensures BigEndian(ToBytes(n, size)) == n
  {
    if size > 0 {
      ReadsWritten(n / 256, size - 1);
      assert ToBytes(n, size)[..size - 1] == ToBytes(n / 256, size - 1);
    }
  }

  /** The integer at pos, unless it would run past the limit. */
  function UintOf(data: Bytes, pos: u64, size: u64, limit: u64): Option<u64>
    requires limit as int <= |data|
  {
    if size > 8 || pos > limit || limit - pos < size then None
    else
      var s := data[pos as int..(pos + size) as int];
      EightBytes(s);
      Some(BigEndian(s) as u64)
  }

  /** The loop over the bytes: v<<8|c, which for up to eight bytes loses no bit. */
  method UintAt(data: Bytes, pos: u64, size: u64, limit: u64) returns (v: Option<u64>)
    requires limit as int <= |data|
    ensures v == UintOf(data, pos, size, limit)
  {
    if size > 8 || pos > limit || limit - pos < size {
      return None;
    }
    var s := data[pos as int..(pos + size) as int];
    var n: u64 := 0;
    for i := 0 to |s|
      invariant n as nat == BigEndian(s[..i])
    {
      assert s[..i + 1][..i] == s[..i];
      EightBytes(s[..i + 1]);
      n := n * 256 + s[i] as u64;
    }
    assert s[..|s|] == s;
    return Some(n);
  }

  // ---- the layout ----

  datatype Bplist = Bplist(data: Bytes, offsetSize: u64, refSize: u64, count: u64, top: u64, tableAt: u64, body: u64) {
    predicate Valid() {
      && body as int <= |data|
      && 1 <= offsetSize <= 8 && 8 <= tableAt <= body
      && count <= (body - tableAt) / offsetSize
    }
  }

  function Number(s: Bytes): (n: u64)
    requires |s| == 8
    ensures n as nat == BigEndian(s)
  {
    EightBytes(s);
    BigEndian(s) as u64
  }

  /** The layout as a trailer gives it. */
  function LayoutIn(data: Bytes, tr: Bytes): Bplist
    requires 32 <= |data| < 0x8000_0000_0000_0000 && |tr| == 32
  {
    Bplist(data, tr[6] as u64, tr[7] as u64, Number(tr[8..16]), Number(tr[16..24]), Number(tr[24..32]),
      (|data| - 32) as u64)
  }

  /** readBplist: the trailer's numbers, each checked against the file. */
  function ReadBplist(data: Bytes): (r: Result<Bplist>)
    requires |data| < 0x8000_0000_0000_0000
    ensures r.Ok? ==> r.value.Valid() && r.value.data == data && r.value.body as int == |data| - 32
    ensures r.Ok? ==> r.value.tableAt as int + r.value.count as int * r.value.offsetSize as int <= |data| - 32
  {
    if |data| < 40 || data[..8] != HEADER then Err
    else
      Checked(LayoutIn(data, data[|data| - 32..]))
  }

  /** The layout, when its offset table lies inside the file. */
  function Checked(b: Bplist): (r: Result<Bplist>)
    requires b.body as int <= |b.data|
    ensures r.Ok? ==>
      r.value == b && b.Valid() && b.tableAt as int + b.count as int * b.offsetSize as int <= b.body as int
  {
    if b.offsetSize < 1 || b.offsetSize > 8 || b.tableAt < 8 || b.tableAt > b.body
      || b.count > (b.body - b.tableAt) / b.offsetSize then Err
    else
      TableFits(b);
      Ok(b)
  }

  /** What is accepted: a file that opens with the format's name and version and whose
      trailer's numbers put a table of offsets, one to eight bytes each, between the two. */
  lemma AcceptedExactly(data: Bytes)
    requires 40 <= |data| < 0x8000_0000_0000_0000
    ensures var n, r := |data|, ReadBplist(data);
      var size, count, tableAt := data[n - 26] as nat, BigEndian(data[n - 24..n - 16]), BigEndian(data[n - 8..]);
      && (r.Ok? <==>
            && data[..8] == [98, 112, 108, 105, 115, 116, 48, 48]
            && 1 <= size <= 8 && 8 <= tableAt && tableAt + count * size <= n - 32)
      && (r.Ok? ==> r.value == LayoutIn(data, data[n - 32..]))
  {
    TrailerNumbers(data);
    CheckedExactly(LayoutIn(data, data[|data| - 32..]));
  }

  /** Which numbers are where in the trailer. */
  lemma TrailerNumbers(data: Bytes)
    requires 40 <= |data| < 0x8000_0000_0000_0000
    ensures var n := |data|; var b := LayoutIn(data, data[n - 32..]);
      && b.data == data && b.body as nat == n - 32
      && b.offsetSize == data[n - 26] as u64 && b.refSize == data[n - 25] as u64
      && b.count as nat == BigEndian(data[n - 24..n - 16]) && b.top as nat == BigEndian(data[n - 16..n - 8])
      && b.tableAt as nat == BigEndian(data[n - 8..])
  {
    var n := |data|;
    var tr := data[n - 32..];
    assert tr[8..16] == data[n - 24..n - 16] && tr[16..24] == data[n - 16..n - 8] && tr[24..32] == data[n - 8..];
  }

  lemma CheckedExactly(b: Bplist)
    requires b.body as int <= |b.data|
    ensures Checked(b).Ok? <==>
      && 1 <= b.offsetSize <= 8 && 8 <= b.tableAt
      && b.tableAt as nat + b.count as nat * b.offsetSize as nat <= b.body as nat
  {
    if b.offsetSize >= 1 { InTable(b.count as int, b.offsetSize as int, b.tableAt as int, b.body as int); }
  }

  lemma InTable(n: int, width: int, start: int, end: int)
    requires 0 <= n && width >= 1
    ensures start <= end && n <= (end - start) / width <==> start + n * width <= end
  {
    assert n * width >= 0;
    if start <= end { CountFits(n, end - start, width); }
  }

  lemma CountFits(n: int, room: int, width: int)
    requires 0 <= n && width > 0 && 0 <= room
    ensures n <= room / width <==> n * width <= room
  {
    if n <= room / width { Fits(n, room, width); }
    var q := room / width;
    assert room < (q + 1) * width;
    if n > q { assert n * width >= (q + 1) * width; }
  }

  /** Object i is where the table's entry i says, when that is past the header and before
      the table. */
  lemma ObjectExactly(b: Bplist, i: u64)
    requires b.Valid() && i < b.count
    ensures var at := b.tableAt as nat + i as nat * b.offsetSize as nat; var next := at + b.offsetSize as nat;
      next <= |b.data| &&
      var offset := BigEndian(b.data[at..next]);
      && (ObjectAt(b, i).Ok? <==> 8 <= offset < b.tableAt as nat)
      && (ObjectAt(b, i).Ok? ==> ObjectAt(b, i).value as nat == offset)
    ensures forall j: u64 | j >= b.count :: ObjectAt(b, j) == Err
  {
    EntryFits(b, i);
  }

  lemma TableFits(b: Bplist)
    requires b.Valid()
    ensures b.tableAt as int + b.count as int * b.offsetSize as int <= b.body as int
  {
    Fits(b.count as int, (b.body - b.tableAt) as int, b.offsetSize as int);
  }

  lemma Fits(n: int, room: int, width: int)
    requires 0 <= n && width > 0 && n <= room / width
    ensures n * width <= room
  {
    assert (room / width) * width <= room;
    assert n * width <= (room / width) * width;
  }

  lemma EntryFits(b: Bplist, i: u64)
    requires b.Valid() && i < b.count
    ensures b.tableAt as int + i as int * b.offsetSize as int + b.offsetSize as int <= b.body as int
  {
    TableFits(b);
    assert (i as int + 1) * b.offsetSize as int <= b.count as int * b.offsetSize as int;
    assert (i as int + 1) * b.offsetSize as int == i as int * b.offsetSize as int + b.offsetSize as int;
  }

  /** objectAt: where object i starts, between the header and the table. */
  function ObjectAt(b: Bplist, i: u64): (r: Result<u64>)
    requires b.Valid()
    ensures r.Ok? ==> i < b.count && 8 <= r.value < b.tableAt
  {
    if i >= b.count then Err
    else
      EntryFits(b, i);
      match UintOf(b.data, b.tableAt + i * b.offsetSize, b.offsetSize, b.body)
      case None => Err
      case Some(at) => if at < 8 || at >= b.tableAt then Err else Ok(at)
  }

  function Power(n: u8): (r: u64)
    requires n < 16
    ensures r as nat == Pow(2, n as nat) && 1 <= r <= 32768
  {
    if n == 0 then 1 else
      PowTwo(n as nat);
      2 * Power(n - 1)
  }

  lemma {:induction false} PowTwo(n: nat)
    requires n < 16
    ensures Pow(2, n) <= Pow(2, 15) == 32768
  {
    assert Pow(2, 15) == 32768;
    PowTwoGrows(n, 15);
  }

  lemma {:induction false} PowTwoGrows(m: nat, n: nat)
    requires m <= n
    ensures Pow(2, m) <= Pow(2, n)
  {
    if m < n { PowTwoGrows(m, n - 1); }
  }

  /** lengthAt: the length, and where the contents start, never past the table. */
  function LengthAt(b: Bplist, at: u64): (r: Result<(u64, u64)>)
    requires b.Valid() && at < b.tableAt
    ensures r.Ok? ==> at < r.value.1 <= b.tableAt
  {
    var n, next := (b.data[at as int] % 16) as u64, at + 1;
    if n != 15 then Ok((n, next))
    else if next >= b.tableAt || b.data[next as int] / 16 != 1 then Err
    else
      var size := Power(b.data[next as int] % 16);
      match UintOf(b.data, next + 1, size, b.tableAt)
      case None => Err
      case Some(len) => Ok((len, next + 1 + size))
  }

  // ---- strings ----

  /** A string's bytes, or its UTF-16 units. */
  datatype Text = Ascii(bytes: Bytes) | Utf16(units: seq<nat>)

  /** The bytes of a string's text; decode is utf16.Decode, as bytes. */
  function Decoded(t: Text, decode: seq<nat> -> Bytes): Bytes {
    match t
    case Ascii(bytes) => bytes
    case Utf16(units) => decode(units)
  }

  function Units(raw: Bytes): (u: seq<nat>)
    requires |raw| % 2 == 0
    ensures |u| == |raw| / 2
  {
    seq(|raw| / 2, j requires 0 <= j < |raw| / 2 => raw[2 * j] as nat * 256 + raw[2 * j + 1] as nat)
  }

  /** stringAt: None for an object that is known, but no string. */
  function StringAt(b: Bplist, at: u64): Result<Option<Text>>
    requires b.Valid() && at < b.tableAt
  {
    var kind := b.data[at as int] / 16;
    if kind == 7 || kind == 9 || kind == 14 || kind == 15 then Err
    else if kind != 5 && kind != 6 then Ok(None)
    else
      match LengthAt(b, at)
      case Err => Err
      case Ok((n, from)) => TextAt(b, kind == 6, n, from)
  }

  /** What an object is, by the upper half of its first byte: four kinds are none the format
      has, a string is as long as it says when that ends before the table, and any other is
      no string. */
  lemma StringKinds(b: Bplist, at: u64)
    requires b.Valid() && at < b.tableAt
    ensures var kind := b.data[at as int] / 16;
      && (kind in {7, 9, 14, 15} ==> StringAt(b, at) == Err)
      && (kind !in {5, 6, 7, 9, 14, 15} ==> StringAt(b, at) == Ok(None))
      && (kind in {5, 6} && LengthAt(b, at).Err? ==> StringAt(b, at) == Err)
      && (kind in {5, 6} && LengthAt(b, at).Ok? ==>
            TextIs(b, kind == 6, LengthAt(b, at).value.0 as nat, LengthAt(b, at).value.1 as nat, StringAt(b, at)))
  {
    if b.data[at as int] / 16 in {5, 6} && LengthAt(b, at).Ok? {
      var (n, from) := LengthAt(b, at).value;
      TextIsSo(b, b.data[at as int] / 16 == 6, n, from);
    }
  }

  ghost predicate TextIs(b: Bplist, wide: bool, n: nat, from: nat, r: Result<Option<Text>>)
    requires b.Valid() && from <= b.tableAt as nat
  {
    if from + n * (if wide then 2 else 1) > b.tableAt as nat then r == Err
    else if wide then
      && r.Ok? && r.value.Some? && r.value.value.Utf16? && |r.value.value.units| == n
      && forall j | 0 <= j < n ::
           r.value.value.units[j] == b.data[from + 2 * j] as nat * 256 + b.data[from + 2 * j + 1] as nat
    else r == Ok(Some(Ascii(b.data[from..from + n])))
  }

  lemma TextIsSo(b: Bplist, wide: bool, n: u64, from: u64)
    requires b.Valid() && from <= b.tableAt
    ensures TextIs(b, wide, n as nat, from as nat, TextAt(b, wide, n, from))
  {
    var room := (b.tableAt - from) as nat;
    assert n as nat <= room / 2 <==> n as nat * 2 <= room;
  }

  /** A length up to 14 stands in the lower half of the first byte; 15 there says that an
      integer object follows it, and anything else in its place is an error. */
  lemma LengthForms(b: Bplist, at: u64)
    requires b.Valid() && at < b.tableAt
    ensures var low, next := b.data[at as int] % 16, at as nat + 1;
      && (low < 15 ==> LengthAt(b, at) == Ok((low as u64, at + 1)))
      && (low == 15 && (next >= b.tableAt as nat || b.data[next] / 16 != 1) ==> LengthAt(b, at) == Err)
      && (low == 15 && next < b.tableAt as nat && b.data[next] / 16 == 1 && LengthAt(b, at).Ok? ==>
            LengthAt(b, at).value.1 as nat == next + 1 + Pow(2, (b.data[next] % 16) as nat))
  {
  }

  /** n characters, one or two bytes wide. */
  function TextAt(b: Bplist, wide: bool, n: u64, from: u64): Result<Option<Text>>
    requires b.Valid() && from <= b.tableAt
  {
    var width: u64 := if wide then 2 else 1;
    if n > (b.tableAt - from) / width then Err
    else
      var raw := Contents(b, from, n, width);
      Ok(Some(if wide then Utf16(Units(raw)) else Ascii(raw)))
  }

  /** n characters of a width, which lie before the table. */
  function Contents(b: Bplist, from: u64, n: u64, width: u64): (raw: Bytes)
    requires b.Valid() && from <= b.tableAt && 1 <= width <= 2 && n <= (b.tableAt - from) / width
    ensures |raw| == n as int * width as int
  {
    Fits(n as int, (b.tableAt - from) as int, width as int);
    b.data[from as int..(from + n * width) as int]
  }

  /** The string of object i, when it is one. */
  function ObjectString(b: Bplist, i: u64): Result<Option<Text>>
    requires b.Valid()
  {
    match ObjectAt(b, i)
    case Err => Err
    case Ok(at) => StringAt(b, at)
  }

  /** The strings of the first n objects in table order, or an error at any of them. */
  function StringsTo(b: Bplist, n: nat, decode: seq<nat> -> Bytes): Result<seq<Bytes>>
    requires b.Valid() && n <= b.count as nat
  {
    if n == 0 then Ok([])
    else
      match StringsTo(b, n - 1, decode)
      case Err => Err
      case Ok(before) =>
        match ObjectString(b, (n - 1) as u64)
        case Err => Err
        case Ok(None) => Ok(before)
        case Ok(Some(s)) => Ok(before + [Decoded(s, decode)])
  }

  lemma {:induction false} FailsOn(b: Bplist, m: nat, n: nat, decode: seq<nat> -> Bytes)
    requires b.Valid() && m <= n <= b.count as nat && StringsTo(b, m, decode).Err?
    ensures StringsTo(b, n, decode).Err?
  {
    if m < n { FailsOn(b, m, n - 1, decode); }
  }

  method BinaryStrings(data: Bytes, decode: seq<nat> -> Bytes) returns (r: Result<seq<Bytes>>)
    requires |data| < 0x8000_0000_0000_0000
    ensures r == match ReadBplist(data)
      case Err => Err
      case Ok(b) => StringsTo(b, b.count as nat, decode)
  {
    var read := ReadBplist(data);
    if read.Err? {
      return Err;
    }
    var b := read.value;
    var out: seq<Bytes> := [];
    var i: u64 := 0;
    while i < b.count
      invariant i <= b.count && StringsTo(b, i as nat, decode) == Ok(out)
    {
      var s := ObjectString(b, i);
      NextString(b, i, out, decode);
      if s.Err? {
        FailsOn(b, i as nat + 1, b.count as nat, decode);
        return Err;
      }
      if s.value.Some? {
        out := out + [Decoded(s.value.value, decode)];
      }
      i := i + 1;
    }
    return Ok(out);
  }

  lemma NextString(b: Bplist, i: u64, out: seq<Bytes>, decode: seq<nat> -> Bytes)
    requires b.Valid() && i < b.count && StringsTo(b, i as nat, decode) == Ok(out)
    ensures StringsTo(b, i as nat + 1, decode) == match ObjectString(b, i)
      case Err => Err
      case Ok(None) => Ok(out)
      case Ok(Some(s)) => Ok(out + [Decoded(s, decode)])
  {
  }

  // ---- the top dictionary ----

  /** n keys and n values, each a reference, lie between refs and the table. */
  predicate PairsFit(b: Bplist, refs: u64, n: u64)
    requires 1 <= b.refSize <= 8 && refs <= b.tableAt
  {
    n <= (b.tableAt - refs) / (2 * b.refSize)
  }

  lemma RefFits(b: Bplist, refs: u64, n: u64, k: int)
    requires 1 <= b.refSize <= 8 && refs <= b.tableAt && PairsFit(b, refs, n) && 0 <= k < 2 * n as int
    ensures 2 * n as int <= b.tableAt as int
    ensures refs as int + k * b.refSize as int + b.refSize as int <= b.tableAt as int
  {
    Halves((b.tableAt - refs) as int, b.refSize as int, n as int, k);
  }

  lemma Halves(room: int, width: int, n: int, k: int)
    requires width > 0 && 0 <= n <= room / (2 * width) && 0 <= k < 2 * n
    ensures k * width + width <= room && 2 * n <= room
  {
    Fits(n, room, 2 * width);
    assert n * (2 * width) == (2 * n) * width;
    Larger(k + 1, 2 * n, width);
    Larger(1, width, 2 * n);
    assert (k + 1) * width == k * width + width;
  }

  lemma Larger(a: int, b: int, width: int)
    requires a <= b && width >= 0
    ensures a * width <= b * width
  {
  }

  lemma PairsExactly(b: Bplist, refs: u64, n: u64)
    requires b.Valid() && 1 <= b.refSize <= 8 && refs <= b.tableAt
    ensures PairsFit(b, refs, n) <==> refs as nat + 2 * n as nat * b.refSize as nat <= b.tableAt as nat
  {
    var room, width := (b.tableAt - refs) as nat, b.refSize as nat;
    CountFits(n as int, room, 2 * width);
    assert n as nat * (2 * width) == 2 * n as nat * width;
  }

  /** The reference at place k of the n keys and n values. */
  function RefAt(b: Bplist, refs: u64, n: u64, k: u64): u64
    requires b.Valid() && 1 <= b.refSize <= 8 && refs <= b.tableAt && PairsFit(b, refs, n) && (k as int) < 2 * n as int
  {
    RefFits(b, refs, n, k as int);
    match UintOf(b.data, refs + k * b.refSize, b.refSize, b.tableAt)
    case Some(v) => v
    case None => 0
  }

  function Refs(b: Bplist, refs: u64, n: u64): (ks: seq<u64>)
    requires b.Valid() && 1 <= b.refSize <= 8 && refs <= b.tableAt && PairsFit(b, refs, n)
    ensures |ks| == 2 * n as nat
  {
    seq(2 * n as nat, k requires 0 <= k < 2 * n as nat =>
      RefFits(b, refs, n, k);
      RefAt(b, refs, n, k as u64))
  }

  /** Key and value i, by their references: the keys come first, then the values. */
  function PairAt(b: Bplist, ks: seq<u64>, i: nat): Result<Pair>
    requires b.Valid() && |ks| % 2 == 0 && i < |ks| / 2
  {
    Paired(ObjectString(b, ks[i]), ObjectString(b, ks[|ks| / 2 + i]))
  }

  /** A key must be a string; a value of another type is passed over. */
  function Paired(key: Result<Option<Text>>, value: Result<Option<Text>>): Result<Pair> {
    match (key, value)
    case (Ok(Some(k)), Ok(v)) => Ok(Pair(k, v))
    case _ => Err
  }

  datatype Pair = Pair(key: Text, value: Option<Text>)

  function PairsOf(b: Bplist, ks: seq<u64>): (ps: seq<Result<Pair>>)
    requires b.Valid() && |ks| % 2 == 0
    ensures |ps| == |ks| / 2
  {
    seq(|ks| / 2, i requires 0 <= i < |ks| / 2 => PairAt(b, ks, i))
  }

  /** The first n pairs whose value is a string, or an error at any pair; a later key
      replaces an equal earlier one, however the two are stored. */
  function Gathered(ps: seq<Result<Pair>>, n: nat, decode: seq<nat> -> Bytes): Result<map<Bytes, Bytes>>
    requires n <= |ps|
  {
    if n == 0 then Ok(map[])
    else
      match (Gathered(ps, n - 1, decode), ps[n - 1])
      case (Ok(before), Ok(p)) => Ok(Added(before, p, decode))
      case _ => Err
  }

  lemma {:induction false} GatheredFails(ps: seq<Result<Pair>>, i: nat, j: nat, decode: seq<nat> -> Bytes)
    requires i <= j <= |ps| && Gathered(ps, i, decode).Err?
    ensures Gathered(ps, j, decode).Err?
  {
    if i < j { GatheredFails(ps, i, j - 1, decode); }
  }

  /** The references of the top dictionary, keys first. */
  function TopRefs(b: Bplist): (r: Result<seq<u64>>)
    requires b.Valid()
    ensures r.Ok? ==> |r.value| % 2 == 0
  {
    match ObjectAt(b, b.top)
    case Err => Err
    case Ok(at) => DictRefs(b, at)
  }

  /** Those of the dictionary that starts at at. */
  function DictRefs(b: Bplist, at: u64): (r: Result<seq<u64>>)
    requires b.Valid() && at < b.tableAt
    ensures r.Ok? ==> |r.value| % 2 == 0
  {
    if b.data[at as int] / 16 != 13 || b.refSize < 1 || b.refSize > 8 then Err
    else
      match LengthAt(b, at)
      case Err => Err
      case Ok((n, refs)) => if PairsFit(b, refs, n) then Ok(Refs(b, refs, n)) else Err
  }

  /** A dictionary is read exactly when it is one, its references are one to eight bytes each
      and all of them end before the table; they are the numbers that stand there. */
  lemma DictExactly(b: Bplist, at: u64)
    requires b.Valid() && at < b.tableAt
    ensures var n, width := LengthAt(b, at), b.refSize as nat;
      && (DictRefs(b, at).Ok? <==>
            && b.data[at as int] / 16 == 13 && 1 <= width <= 8 && n.Ok?
            && n.value.1 as nat + 2 * n.value.0 as nat * width <= b.tableAt as nat)
      && (DictRefs(b, at).Ok? ==> |DictRefs(b, at).value| == 2 * n.value.0 as nat)
  {
    if b.data[at as int] / 16 == 13 && 1 <= b.refSize <= 8 && LengthAt(b, at).Ok? {
      var (n, refs) := LengthAt(b, at).value;
      PairsExactly(b, refs, n);
    }
  }

  /** plistTopStrings on a binary list. */
  method TopStrings(data: Bytes, decode: seq<nat> -> Bytes) returns (r: Result<map<Bytes, Bytes>>)
    requires |data| < 0x8000_0000_0000_0000
    ensures r == match ReadBplist(data)
      case Err => Err
      case Ok(b) =>
        match TopRefs(b)
        case Err => Err
        case Ok(ks) => Gathered(PairsOf(b, ks), |ks| / 2, decode)
  {
    var read := ReadBplist(data);
    if read.Err? {
      return Err;
    }
    var refs := TopRefs(read.value);
    if refs.Err? {
      return Err;
    }
    r := ReadPairs(read.value, refs.value, decode);
  }

  method ReadPairs(b: Bplist, ks: seq<u64>, decode: seq<nat> -> Bytes) returns (r: Result<map<Bytes, Bytes>>)
    requires b.Valid() && |ks| % 2 == 0
    ensures r == Gathered(PairsOf(b, ks), |ks| / 2, decode)
  {
    ghost var ps := PairsOf(b, ks);
    var out: map<Bytes, Bytes> := map[];
    for i := 0 to |ks| / 2
      invariant Gathered(ps, i, decode) == Ok(out)
    {
      var p := PairAt(b, ks, i);
      assert ps[i] == p;
      GatherNext(ps, i, p, out, decode);
      if p.Err? {
        GatheredFails(ps, i + 1, |ks| / 2, decode);
        return Err;
      }
      out := Added(out, p.value, decode);
    }
    return Ok(out);
  }

  function Added(out: map<Bytes, Bytes>, p: Pair, decode: seq<nat> -> Bytes): map<Bytes, Bytes> {
    if p.value.Some? then out[Decoded(p.key, decode) := Decoded(p.value.value, decode)] else out
  }

  lemma GatherNext(ps: seq<Result<Pair>>, i: nat, p: Result<Pair>, out: map<Bytes, Bytes>, decode: seq<nat> -> Bytes)
    requires i < |ps| && ps[i] == p && Gathered(ps, i, decode) == Ok(out)
    ensures Gathered(ps, i + 1, decode) == if p.Err? then Err else Ok(Added(out, p.value, decode))
  {
  }

  // ---- what is written is read ----

  /** What a writer may choose: how many bytes an offset and a reference take, and for
      a length of 15 or more the power of two of its bytes. */
  datatype Format = Format(offsetSize: nat, refSize: nat, lengthPower: nat -> nat)

  /** A length of n can be written. */
  predicate Spells(f: Format, n: nat) {
    n < 15 || (n < 0x8000_0000_0000_0000 && f.lengthPower(n) <= 3 && n < Pow(256, Pow(2, f.lengthPower(n))))
  }

  /** What a file can hold of a text. */
  predicate Storable(t: Text, f: Format) {
    Spells(f, Length(t)) && (t.Utf16? ==> forall i | 0 <= i < |t.units| :: t.units[i] < 0x1_0000)
  }

  function Length(t: Text): nat {
    match t
    case Ascii(bytes) => |bytes|
    case Utf16(units) => |units|
  }

  /** The units as bytes, the high one of each first. */
  function UnitBytes(units: seq<nat>): (raw: Bytes)
    requires forall i | 0 <= i < |units| :: units[i] < 0x1_0000
    ensures |raw| == 2 * |units|
  {
    seq(2 * |units|, i requires 0 <= i < 2 * |units| =>
      if i % 2 == 0 then (units[i / 2] / 256) as u8 else (units[i / 2] % 256) as u8)
  }

  lemma UnitsReadBack(units: seq<nat>)
    requires forall i | 0 <= i < |units| :: units[i] < 0x1_0000
    ensures Units(UnitBytes(units)) == units
  {
    var raw := UnitBytes(units);
    forall j | 0 <= j < |units| ensures Units(raw)[j] == units[j] {
      assert raw[2 * j] as nat == units[j] / 256 && raw[2 * j + 1] as nat == units[j] % 256;
    }
  }

  function Raw(t: Text, f: Format): (raw: Bytes)
    requires Storable(t, f)
    ensures |raw| == Length(t) * if t.Ascii? then 1 else 2
  {
    match t
    case Ascii(bytes) => bytes
    case Utf16(units) => UnitBytes(units)
  }

  /** An object up to its contents: a short length in its marker, a long one as an
      integer after it. */
  function Head(kind: nat, n: nat, f: Format): (h: Bytes)
    requires kind < 16 && Spells(f, n)
    ensures |h| >= 1 && (n >= 15 ==> |h| == 2 + Pow(2, f.lengthPower(n)))
  {
    if n < 15 then [(kind * 16 + n) as u8] else LongHead(kind, n, f.lengthPower(n))
  }

  function LongHead(kind: nat, n: nat, power: nat): (h: Bytes)
    requires kind < 16 && power <= 3
    ensures |h| == 2 + Pow(2, power)
  {
    [(kind * 16 + 15) as u8, (16 + power) as u8] + ToBytes(n, Pow(2, power))
  }

  function KindOf(t: Text): nat { if t.Ascii? then 5 else 6 }

  /** A string as the format writes it. */
  function Written(t: Text, f: Format): Bytes
    requires Storable(t, f)
  {
    Head(KindOf(t), Length(t), f) + Raw(t, f)
  }

  ghost predicate HoldsAt(data: Bytes, at: nat, piece: Bytes) {
    at + |piece| <= |data| && data[at..at + |piece|] == piece
  }

  /** A string written anywhere before the table is read back. */
  lemma StringReadBack(b: Bplist, at: u64, t: Text, f: Format)
    requires b.Valid() && Storable(t, f)
    requires HoldsAt(b.data, at as nat, Written(t, f)) && at as nat + |Written(t, f)| <= b.tableAt as nat
    ensures StringAt(b, at) == Ok(Some(t))
  {
    var head, raw := Head(KindOf(t), Length(t), f), Raw(t, f);
    TwoParts(b.data, at as nat, head, raw);
    LengthRead(b, at, KindOf(t), Length(t), f, head);
    if t.Utf16? { UnitsReadBack(t.units); }
    ContentsRead(b, at, t, at + |head| as u64, raw);
  }

  lemma TwoParts(data: Bytes, at: nat, h: Bytes, r: Bytes)
    requires HoldsAt(data, at, h + r)
    ensures HoldsAt(data, at, h) && HoldsAt(data, at + |h|, r)
  {
    var w := h + r;
    PieceAt(data, at, w, 0, |h|);
    PieceAt(data, at, w, |h|, |r|);
    assert w[..|h|] == h && w[|h|..|h| + |r|] == r;
  }

  /** The kind and the length of an object are read back, and where its contents start. */
  lemma LengthRead(b: Bplist, at: u64, kind: nat, n: nat, f: Format, head: Bytes)
    requires b.Valid() && kind < 16 && Spells(f, n) && head == Head(kind, n, f)
    requires HoldsAt(b.data, at as nat, head) && at as nat + |head| <= b.tableAt as nat
    ensures b.data[at as nat] as nat / 16 == kind
    ensures LengthAt(b, at) == Ok((n as u64, at + |head| as u64))
  {
    assert b.data[at as int] == b.data[at as int..at as int + |head|][0] == head[0];
    if n >= 15 { LongLength(b, at, kind, n, f.lengthPower(n), head); }
  }

  lemma ContentsRead(b: Bplist, at: u64, t: Text, from: u64, raw: Bytes)
    requires b.Valid() && at < b.tableAt && from <= b.tableAt && b.data[at as nat] as nat / 16 == KindOf(t)
    requires Length(t) < 0x8000_0000_0000_0000 && LengthAt(b, at) == Ok((Length(t) as u64, from))
    requires HoldsAt(b.data, from as nat, raw) && from as nat + |raw| <= b.tableAt as nat
    requires |raw| == Length(t) * if t.Ascii? then 1 else 2
    requires if t.Ascii? then raw == t.bytes else Units(raw) == t.units
    ensures StringAt(b, at) == Ok(Some(t))
  {
  }

  lemma PieceAt(data: Bytes, at: nat, w: Bytes, skip: nat, n: nat)
    requires HoldsAt(data, at, w) && skip + n <= |w|
    ensures data[at + skip..at + skip + n] == w[skip..skip + n]
  {
    var x, y := data[at + skip..at + skip + n], w[skip..skip + n];
    forall i | 0 <= i < n ensures x[i] == y[i] {
      assert data[at..at + |w|][skip + i] == w[skip + i];
    }
  }

  /** A length of 15 or more, written after a marker that says so. */
  lemma LongLength(b: Bplist, at: u64, kind: nat, n: nat, power: nat, head: Bytes)
    requires b.Valid() && kind < 16 && power <= 3 && n < 0x8000_0000_0000_0000 && n < Pow(256, Pow(2, power))
    requires head == LongHead(kind, n, power)
    requires HoldsAt(b.data, at as nat, head) && at as nat + |head| <= b.tableAt as nat
    ensures LengthAt(b, at) == Ok((n as u64, at + |head| as u64))
  {
    LongBytes(b.data, at as nat, kind, n, power, head);
    SmallPowers(power);
    IntegerRead(b, at as nat + 2, n, Pow(2, power), b.tableAt);
    LengthIs(b, at, n, power);
  }

  lemma LongBytes(data: Bytes, at: nat, kind: nat, n: nat, power: nat, head: Bytes)
    requires kind < 16 && power <= 3 && head == LongHead(kind, n, power) && HoldsAt(data, at, head)
    ensures data[at] as nat % 16 == 15 && data[at + 1] as nat == 16 + power
    ensures HoldsAt(data, at + 2, ToBytes(n, Pow(2, power)))
  {
    var marker := [head[0], head[1]];
    assert head == marker + ToBytes(n, Pow(2, power));
    TwoParts(data, at, marker, ToBytes(n, Pow(2, power)));
    assert data[at..at + 2][0] == head[0] && data[at..at + 2][1] == head[1];
  }

  lemma LengthIs(b: Bplist, at: u64, n: nat, power: nat)
    requires b.Valid() && power <= 3 && n < 0x8000_0000_0000_0000 && at as nat + 2 + Pow(2, power) <= b.tableAt as nat
    requires b.data[at as nat] as nat % 16 == 15 && b.data[at as nat + 1] as nat == 16 + power
    requires Pow(2, power) <= 8 && UintOf(b.data, at + 2, Pow(2, power) as u64, b.tableAt) == Some(n as u64)
    ensures LengthAt(b, at) == Ok((n as u64, at + 2 + Pow(2, power) as u64))
  {
    var next := at + 1;
    assert b.data[next as int] / 16 == 1 && b.data[next as int] % 16 == power as u8;
    assert Power(b.data[next as int] % 16) == Pow(2, power) as u64;
  }

  lemma SmallPowers(power: nat)
    requires power <= 3
    ensures 1 <= Pow(2, power) <= 8
  {
    assert Pow(2, 1) == 2 && Pow(2, 2) == 4 && Pow(2, 3) == 8;
  }

  /** A number written in as many bytes as it needs, or more, is read back. */
  lemma IntegerRead(b: Bplist, at: nat, n: nat, size: nat, limit: u64)
    requires b.Valid() && limit <= b.body && size <= 8 && at + size <= limit as nat
    requires n < Pow(256, size) && HoldsAt(b.data, at, ToBytes(n, size))
    ensures n < 0x1_0000_0000_0000_0000 && UintOf(b.data, at as u64, size as u64, limit) == Some(n as u64)
  {
    ReadsWritten(n, size);
    EightBytes(ToBytes(n, size));
  }
}
