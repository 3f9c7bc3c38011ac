// Request lines of the protocol's input: internal/protocol/lines.go.
module Lines {

  /** What is handed on of one line: its bytes up to the newline, or that there were too many. */
  datatype Line = Line(data: string, tooLong: bool)

  const NEW := Line("", false)

  /** What one ReadSlice returns: bytes that hold a newline only at their end, and no
      error then; otherwise a full buffer, the end of the input, or a read error. */
  datatype Why = Newline | BufferFull | EOF | Failed

  datatype Fragment = Fragment(bytes: string, why: Why) {
    predicate Valid() {
      && (forall i | 0 <= i < |bytes| - 1 :: bytes[i] != '\n')
      && (why == Newline <==> bytes != "" && bytes[|bytes| - 1] == '\n')
    }

    predicate Ends() { why == EOF || why == Failed }
  }

  /** The fragments of one input, cut anywhere; only the last one ends it. */
  predicate Input(frags: seq<Fragment>) {
    && frags != [] && frags[|frags| - 1].Ends()
    && forall i | 0 <= i < |frags| :: frags[i].Valid() && (i < |frags| - 1 ==> !frags[i].Ends())
  }

  function Stream(frags: seq<Fragment>): string {
    if frags == [] then "" else frags[0].bytes + Stream(frags[1..])
  }

  /** The line a stretch of bytes without newlines makes. */
  function Whole(data: string, max: nat): (line: Line)
    ensures |line.data| <= max
  {
    if |data| > max then Line("", true) else Line(data, false)
  }

  /** The bytes before the first newline, or all of them. */
  function FirstEnd(stream: string): (i: nat)
    ensures i <= |stream| && '\n' !in stream[..i] && (i < |stream| ==> stream[i] == '\n')
  {
    if stream == "" || stream[0] == '\n' then 0
    else
      var i := 1 + FirstEnd(stream[1..]);
      assert stream[..i] == [stream[0]] + stream[1..][..i - 1];
      i
  }

  /** The lines of a stream, an unterminated last one included. */
  function LinesOf(stream: string, max: nat): seq<Line>
    decreases |stream|
  {
    if stream == "" then []
    else
      var i := FirstEnd(stream);
      [Whole(stream[..i], max)] + if i == |stream| then [] else LinesOf(stream[i + 1..], max)
  }

  // ---- the lines are the stream's ----

  function Joined(lines: seq<string>): string {
    if lines == [] then "" else lines[0] + "\n" + Joined(lines[1..])
  }

  function Wholes(lines: seq<string>, max: nat): seq<Line> {
    if lines == [] then [] else [Whole(lines[0], max)] + Wholes(lines[1..], max)
  }

  lemma FirstEndIs(data: string, rest: string)
    requires '\n' !in data && (rest == "" || rest[0] == '\n')
    ensures FirstEnd(data + rest) == |data|
  {
    assert (data + rest)[..|data|] == data;
  }

  lemma LinesFrom(data: string, rest: string, max: nat)
    requires '\n' !in data
    ensures LinesOf(data + "\n" + rest, max) == [Whole(data, max)] + LinesOf(rest, max)
  {
    var s := data + "\n" + rest;
    FirstEndIs(data, "\n" + rest);
    assert s == data + ("\n" + rest);
    assert s[..|data|] == data && s[|data| + 1..] == rest;
  }

  lemma LastLine(data: string, max: nat)
    requires '\n' !in data
    ensures LinesOf(data, max) == if data == "" then [] else [Whole(data, max)]
  {
    if data != "" {
      FirstEndIs(data, "");
      assert data + "" == data && data[..|data|] == data;
    }
  }

  lemma {:induction false} JoinedThen(lines: seq<string>, rest: string, max: nat)
    requires forall i | 0 <= i < |lines| :: '\n' !in lines[i]
    ensures LinesOf(Joined(lines) + rest, max) == Wholes(lines, max) + LinesOf(rest, max)
  {
    if lines == [] {
      assert Joined(lines) + rest == rest;
    } else {
      var tail := Joined(lines[1..]) + rest;
      JoinedThen(lines[1..], rest, max);
      LinesFrom(lines[0], tail, max);
      assert Joined(lines) + rest == lines[0] + "\n" + tail;
      Grouped(Whole(lines[0], max), Wholes(lines[1..], max), LinesOf(rest, max));
    }
  }

  /** Lines written one after the other are read back, each that fits as it was and
      each longer one as too long, with an unterminated last one as well. */
  lemma ReadBack(lines: seq<string>, last: string, max: nat)
    requires (forall l <- lines :: '\n' !in l) && '\n' !in last
    ensures LinesOf(Joined(lines) + last, max) == Wholes(lines, max) + (if last == "" then [] else [Whole(last, max)])
  {
    JoinedThen(lines, last, max);
    LastLine(last, max);
  }

  lemma Grouped(first: Line, middle: seq<Line>, end: seq<Line>)
    ensures [first] + (middle + end) == ([first] + middle) + end
  {
  }

  // ---- the loop over fragments ----

  /** The pending line after the bytes so far of an unfinished line. */
  predicate PendingIs(cur: Line, bytes: string, max: nat) {
    '\n' !in bytes && cur == Whole(bytes, max)
  }

  function Body(f: Fragment): string
    requires f.Valid()
  {
    if f.why == Newline then f.bytes[..|f.bytes| - 1] else f.bytes
  }

  /** One fragment joins the pending line, which never holds more than max bytes. */
  method Take(cur: Line, frag: string, max: nat, ghost bytes: string) returns (next: Line)
    requires PendingIs(cur, bytes, max) && '\n' !in frag
    ensures PendingIs(next, bytes + frag, max) && |next.data| <= max
  {
    if cur.tooLong {
      next := cur;
    } else if |cur.data| + |frag| > max {
      next := Line("", true);
    } else {
      next := cur.(data := cur.data + frag);
    }
  }

  /** Every line in turn until one is refused: refuse is the count of the delivery
      that says stop, 0 for none. */
  function Delivered(lines: seq<Line>, refuse: nat): seq<Line> {
    if 0 < refuse <= |lines| then lines[..refuse] else lines
  }

  /** The lines still to come after n fragments, with bytes pending. */
  ghost function ToCome(frags: seq<Fragment>, max: nat, n: nat, bytes: string): seq<Line>
    requires n <= |frags|
  {
    LinesOf(bytes + Stream(frags[n..]), max)
  }

  lemma EndsLine(frags: seq<Fragment>, max: nat, n: nat, bytes: string)
    requires n < |frags| && frags[n].Valid() && frags[n].why == Newline && '\n' !in bytes
    ensures '\n' !in Body(frags[n])
    ensures ToCome(frags, max, n, bytes) == [Whole(bytes + Body(frags[n]), max)] + ToCome(frags, max, n + 1, "")
  {
    var f := frags[n];
    var rest := Stream(frags[n + 1..]);
    assert f.bytes == Body(f) + "\n";
    assert frags[n..][1..] == frags[n + 1..];
    assert bytes + Stream(frags[n..]) == (bytes + Body(f)) + "\n" + rest;
    LinesFrom(bytes + Body(f), rest, max);
    assert "" + rest == rest;
  }

  lemma Continues(frags: seq<Fragment>, max: nat, n: nat, bytes: string)
    requires n < |frags| && frags[n].Valid() && frags[n].why != Newline
    ensures '\n' !in Body(frags[n])
    ensures ToCome(frags, max, n, bytes) == ToCome(frags, max, n + 1, bytes + Body(frags[n]))
  {
    var f := frags[n];
    assert frags[n..][1..] == frags[n + 1..];
    assert bytes + Stream(frags[n..]) == (bytes + f.bytes) + Stream(frags[n + 1..]);
    forall i | 0 <= i < |f.bytes| ensures f.bytes[i] != '\n' {
      if i < |f.bytes| - 1 { assert f.bytes[i] != '\n'; }
    }
  }

  lemma NoneToCome(frags: seq<Fragment>, max: nat, bytes: string)
    requires '\n' !in bytes
    ensures ToCome(frags, max, |frags|, bytes) == if bytes == "" then [] else [Whole(bytes, max)]
  {
    assert frags[|frags|..] == [] && bytes + "" == bytes;
    LastLine(bytes, max);
  }

  /** Before fragment n: what was delivered, and what is still to come, are all the lines. */
  ghost predicate Reading(frags: seq<Fragment>, max: nat, refuse: nat, all: seq<Line>, n: nat, out: seq<Line>,
                          cur: Line, bytes: string) {
    && n <= |frags| && PendingIs(cur, bytes, max)
    && all == out + ToCome(frags, max, n, bytes)
    && (refuse == 0 || |out| < refuse)
    && (forall l <- out :: |l.data| <= max)
    && |out| + EndsFrom(frags, n) == EndsFrom(frags, 0)
  }

  /** How many lines the fragments from n on end. */
  function EndsFrom(frags: seq<Fragment>, n: nat): nat
    requires n <= |frags|
    decreases |frags| - n
  {
    if n == |frags| then 0 else (if frags[n].why == Newline then 1 else 0) + EndsFrom(frags, n + 1)
  }

  function Newlines(s: string): nat {
    if s == "" then 0 else (if s[0] == '\n' then 1 else 0) + Newlines(s[1..])
  }

  lemma {:induction false} NewlinesConcat(a: string, b: string)
    ensures Newlines(a + b) == Newlines(a) + Newlines(b)
  {
    if a == "" {
      assert a + b == b;
    } else {
      NewlinesConcat(a[1..], b);
      assert (a + b)[1..] == a[1..] + b;
    }
  }

  lemma {:induction false} NoNewlines(s: string)
    requires '\n' !in s
    ensures Newlines(s) == 0
  {
    if s != "" { NoNewlines(s[1..]); }
  }

  lemma FragmentNewlines(f: Fragment)
    requires f.Valid()
    ensures Newlines(f.bytes) == if f.why == Newline then 1 else 0
  {
    if f.why == Newline {
      var n := |f.bytes| - 1;
      assert f.bytes == f.bytes[..n] + "\n";
      NewlinesConcat(f.bytes[..n], "\n");
      NoNewlines(f.bytes[..n]);
    } else {
      NoNewlines(f.bytes);
    }
  }

  /** The lines fragments end are as many as the stream's newlines. */
  lemma {:induction false} EndsAreNewlines(frags: seq<Fragment>, n: nat)
    requires n <= |frags| && forall f <- frags :: f.Valid()
    ensures EndsFrom(frags, n) == Newlines(Stream(frags[n..]))
    decreases |frags| - n
  {
    if n < |frags| {
      EndsAreNewlines(frags, n + 1);
      assert frags[n..][1..] == frags[n + 1..];
      FragmentNewlines(frags[n]);
      NewlinesConcat(frags[n].bytes, Stream(frags[n + 1..]));
    }
  }

  /** One fragment: it joins the pending line, which is delivered when it ends there. */
  method Feed(frags: seq<Fragment>, max: nat, refuse: nat, ghost all: seq<Line>, n: nat, out: seq<Line>, cur: Line,
              ghost bytes: string)
    returns (more: seq<Line>, next: Line, ghost pending: string, stops: bool)
    requires n < |frags| && frags[n].Valid() && (frags[n].Ends() ==> n == |frags| - 1)
    requires Reading(frags, max, refuse, all, n, out, cur, bytes)
    ensures !stops ==> !frags[n].Ends() && Reading(frags, max, refuse, all, n + 1, more, next, pending)
    ensures stops ==> more == Delivered(all, refuse) && (forall l <- more :: |l.data| <= max)
    ensures stops ==>
      if frags[n].why == Newline then 0 < refuse <= EndsFrom(frags, 0)
      else frags[n].Ends() && (refuse == 0 || EndsFrom(frags, 0) < refuse)
  {
    var f := frags[n];
    more, next, pending, stops := out, cur, bytes, false;
    if f.why == Newline {
      EndsLine(frags, max, n, bytes);
      next := Take(cur, Body(f), max, bytes);
      LineRead(frags, max, refuse, all, n, out, next, bytes);
      more := out + [next];
      stops := |more| == refuse;
      next, pending := NEW, "";
    } else {
      Continues(frags, max, n, bytes);
      next := Take(cur, Body(f), max, bytes);
      pending := bytes + Body(f);
      if f.why != BufferFull {
        LastRead(frags, max, refuse, all, out, next, pending);
        stops := true;
        if |next.data| > 0 || next.tooLong {
          more := out + [next];
        }
      }
    }
  }

  /** readLines: what it delivers depends only on the bytes, however they are cut up. */
  method ReadLines(frags: seq<Fragment>, max: nat, refuse: nat) returns (out: seq<Line>, failed: bool)
    requires Input(frags)
    ensures out == Delivered(LinesOf(Stream(frags), max), refuse)
    ensures forall l <- out :: |l.data| <= max
    ensures failed <==> frags[|frags| - 1].why == Failed && (refuse == 0 || Newlines(Stream(frags)) < refuse)
  {
    out := [];
    var cur, n := NEW, 0;
    ghost var bytes := "";
    ghost var all := LinesOf(Stream(frags), max);
    assert frags[0..] == frags && "" + Stream(frags) == Stream(frags);
    EndsAreNewlines(frags, 0);
    assert [] + all == all;
    while true
      invariant n < |frags| && Reading(frags, max, refuse, all, n, out, cur, bytes)
      decreases |frags| - n
    {
      var stops;
      out, cur, bytes, stops := Feed(frags, max, refuse, all, n, out, cur, bytes);
      if stops {
        return out, frags[n].why == Failed;
      }
      n := n + 1;
    }
  }

  lemma LastRead(frags: seq<Fragment>, max: nat, refuse: nat, all: seq<Line>, out: seq<Line>, cur: Line, bytes: string)
    requires Reading(frags, max, refuse, all, |frags|, out, cur, bytes)
    ensures var last := if |cur.data| > 0 || cur.tooLong then out + [cur] else out;
      Delivered(all, refuse) == last && forall l <- last :: |l.data| <= max
  {
    NoneToCome(frags, max, bytes);
    assert out + [] == out;
    assert (out + [cur])[..|out| + 1] == out + [cur];
  }

  lemma LineRead(frags: seq<Fragment>, max: nat, refuse: nat, all: seq<Line>, n: nat, out: seq<Line>, cur: Line,
                 bytes: string)
    requires n < |frags| && '\n' !in bytes
    requires all == out + ([cur] + ToCome(frags, max, n + 1, "")) && (refuse == 0 || |out| < refuse)
    requires |cur.data| <= max && forall l <- out :: |l.data| <= max
    requires |out| + 1 + EndsFrom(frags, n + 1) == EndsFrom(frags, 0)
    ensures |out| + 1 != refuse ==> Reading(frags, max, refuse, all, n + 1, out + [cur], NEW, "")
    ensures |out| + 1 == refuse ==> Delivered(all, refuse) == out + [cur] && |all| >= refuse
    ensures forall l <- out + [cur] :: |l.data| <= max
  {
    assert all == (out + [cur]) + ToCome(frags, max, n + 1, "");
  }
}
