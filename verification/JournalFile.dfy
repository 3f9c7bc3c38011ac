// The journal as bytes: what appends leave of it when they are cut short anywhere, and
// what is read back. internal/jsonl/jsonl.go, internal/oplog/oplog.go.
module JournalFile {
  import opened Journal
  import opened Lines

  datatype Parsed = Whole(entry: Entry) | Bad(offset: nat, unexpectedEnd: bool)

  /** encoding/json on entries. */
  datatype Codec = Codec(encode: Entry -> string, parse: string -> Parsed)

  const ENTRY_START := "{\"time\":"

  /** The scanner's largest line, with the newline that ends it. */
  const LIMIT := 1048576

  predicate OccursAt(s: string, t: string, i: nat) {
    i + |t| <= |s| && s[i..i + |t|] == t
  }

  predicate Contains(s: string, t: string) {
    exists i: nat | i <= |s| :: OccursAt(s, t, i)
  }

  /** What entries' JSON text is like: one line that opens with the first field's name,
      which occurs nowhere else in it; it decodes to the entry, and of any beginning
      of it the parser complains about its end alone. */
  ghost predicate Lawful(c: Codec) {
    forall e: Entry :: LawfulText(c, e)
  }

  ghost predicate LawfulText(c: Codec, e: Entry) {
    var text := c.encode(e);
    && '\n' !in text && ENTRY_START <= text && text[|text| - 1] == '}'
    && !Contains(text[1..], ENTRY_START)
    && c.parse(text) == Parsed.Whole(e)
    && forall k | 0 < k < |text| :: c.parse(text[..k]) == Bad(k, true)
  }

  // ---- appending ----

  predicate EndsWithNewline(data: string) { data == "" || data[|data| - 1] == '\n' }

  /** The text of one append; readable is false when the file's last byte cannot be read. */
  function Frame(data: string, readable: bool, line: string): string {
    (if readable && EndsWithNewline(data) then "" else "\n") + line + "\n"
  }

  /** One append, cut short after so many bytes; a full one is cut nowhere. */
  datatype Write = Write(entry: Entry, readable: bool, cut: nat)

  function Landed(c: Codec, data: string, w: Write): string {
    var frame := Frame(data, w.readable, c.encode(w.entry));
    frame[..if w.cut < |frame| then w.cut else |frame|]
  }

  /** Whether the entry's text is in the file, its newline or not. */
  predicate IsWhole(c: Codec, data: string, w: Write) {
    w.cut >= |Frame(data, w.readable, c.encode(w.entry))| - 1
  }

  function Written(c: Codec, writes: seq<Write>): string {
    if writes == [] then ""
    else var data := Written(c, writes[..|writes| - 1]); data + Landed(c, data, writes[|writes| - 1])
  }

  function WholeEntries(c: Codec, writes: seq<Write>): seq<Entry> {
    if writes == [] then []
    else
      var before, w := writes[..|writes| - 1], writes[|writes| - 1];
      WholeEntries(c, before) + if IsWhole(c, Written(c, before), w) then [w.entry] else []
  }

  class File {
    var data: string

    constructor ()
      ensures data == ""
    {
      data := "";
    }

    /** ok: the write went through whole. */
    method Append(c: Codec, e: Entry, readable: bool, cut: nat) returns (ok: bool)
      modifies this
      ensures data == old(data) + Landed(c, old(data), Write(e, readable, cut))
      ensures ok <==> cut >= |Frame(old(data), readable, c.encode(e))|
    {
      var out := "";
      if !readable || !EndsWithNewline(data) {
        out := out + "\n";
      }
      out := out + c.encode(e);
      out := out + "\n";
      assert out == Frame(data, readable, c.encode(e));
      ok := cut >= |out|;
      data := data + out[..if cut < |out| then cut else |out|];
    }
  }

  // ---- reading ----

  predicate Space(c: char) { c in "\t\n\U{0B}\U{0C}\r " }

  function TrimLeft(s: string): string {
    if s != "" && Space(s[0]) then TrimLeft(s[1..]) else s
  }

  function TrimRight(s: string): (t: string)
    ensures t <= s
  {
    if s != "" && Space(s[|s| - 1]) then TrimRight(s[..|s| - 1]) else s
  }

  function TrimSpace(s: string): string { TrimRight(TrimLeft(s)) }

  /** One unfinished entry and nothing else. */
  predicate CutShort(line: string, bad: Parsed)
    requires bad.Bad? && line != ""
  {
    && (ENTRY_START <= line || line <= ENTRY_START)
    && !Contains(line[1..], ENTRY_START)
    && bad.offset == |line| && bad.unexpectedEnd
  }

  datatype Read = Read(entries: seq<Entry>, err: Err)

  datatype Err = NoErr | Corrupt | TooLong

  function ReadLine(c: Codec, r: Read, line: string): Read {
    if r.err != NoErr then r
    else if |line| >= LIMIT then r.(err := TooLong)
    else
      var text := TrimSpace(line);
      if text == "" then r
      else
        match c.parse(text)
        case Whole(e) => r.(entries := r.entries + [e])
        case Bad(offset, end) => if CutShort(text, Bad(offset, end)) then r else Read([], Corrupt)
  }

  function ReadAll(c: Codec, lines: seq<string>): Read {
    if lines == [] then Read([], NoErr) else ReadLine(c, ReadAll(c, lines[..|lines| - 1]), lines[|lines| - 1])
  }

  predicate White(c: char) { c in ['\t', '\n', '\U{0B}', '\U{0C}', '\r', ' '] }

  /** The text of a line: all but the white space around it. */
  ghost predicate TextOf(line: string, lead: string, text: string, tail: string) {
    && line == lead + text + tail && (forall c <- lead :: White(c)) && (forall c <- tail :: White(c))
    && (text != "" ==> !White(text[0]) && !White(text[|text| - 1]))
  }

  /** It opens as an entry does, and no other entry does inside it. */
  ghost predicate OneEntry(text: string) {
    && ("{\"time\":" <= text || text <= "{\"time\":")
    && forall i, j | 0 < i && j == i + 8 <= |text| :: text[i..j] != "{\"time\":"
  }

  /** What a line comes to: too long with its newline for a mebibyte; nothing when blank; its
      entry when it is one; nothing again when it is one entry's beginning, of which the
      parser misses the end alone; else the journal is corrupt, and none of it is given. */
  lemma LineDecides(c: Codec, r: Read, line: string, lead: string, text: string, tail: string)
    requires TextOf(line, lead, text, tail)
    ensures r.err != NoErr ==> ReadLine(c, r, line) == r
    ensures r.err == NoErr && |line| + 1 > 1024 * 1024 ==> ReadLine(c, r, line) == Read(r.entries, TooLong)
    ensures r.err == NoErr && |line| + 1 <= 1024 * 1024 ==>
      ReadLine(c, r, line) ==
      if text == "" then r
      else
        match c.parse(text)
        case Whole(e) => Read(r.entries + [e], NoErr)
        case Bad(offset, end) => if OneEntry(text) && offset == |text| && end then r else Read([], Corrupt)
  {
    TrimIs(line, lead, text, tail);
    if text != "" { AloneExactly(text); }
  }

  lemma AloneExactly(text: string)
    requires text != ""
    ensures !Contains(text[1..], ENTRY_START) <==>
      forall i, j | 0 < i && j == i + 8 <= |text| :: text[i..j] != ENTRY_START
  {
    var rest := text[1..];
    if Contains(rest, ENTRY_START) {
      var i: nat :| i <= |rest| && OccursAt(rest, ENTRY_START, i);
      assert rest[i..i + 8] == text[i + 1..i + 9];
    } else {
      forall i, j | 0 < i && j == i + 8 <= |text| ensures text[i..j] != ENTRY_START {
        assert rest[i - 1..j - 1] == text[i..j];
        assert !OccursAt(rest, ENTRY_START, i - 1);
      }
    }
  }

  lemma TrimIs(line: string, lead: string, text: string, tail: string)
    requires TextOf(line, lead, text, tail)
    ensures TrimSpace(line) == text
  {
    assert forall c :: Space(c) <==> White(c);
    assert line == lead + (text + tail);
    LeftIs(lead, text + tail);
    if text == "" {
      assert text + tail == tail && tail + "" == tail;
      LeftIs(tail, "");
    } else {
      assert (text + tail)[0] == text[0];
      RightIs(text, tail);
    }
  }

  lemma {:induction false} LeftIs(lead: string, rest: string)
    requires forall c <- lead :: Space(c)
    ensures TrimLeft(lead + rest) == TrimLeft(rest)
  {
    if lead == "" {
      assert lead + rest == rest;
    } else {
      assert (lead + rest)[1..] == lead[1..] + rest;
      LeftIs(lead[1..], rest);
    }
  }

  lemma {:induction false} RightIs(text: string, tail: string)
    requires text != "" && !Space(text[|text| - 1]) && forall c <- tail :: Space(c)
    ensures TrimRight(text + tail) == text
  {
    if tail == "" {
      assert text + tail == text;
    } else {
      var n := |tail| - 1;
      assert (text + tail)[..|text + tail| - 1] == text + tail[..n] && tail[n] in tail;
      RightIs(text, tail[..n]);
    }
  }

  /** Every line has such a text. */
  lemma TextFound(line: string) returns (lead: string, text: string, tail: string)
    ensures TextOf(line, lead, text, tail)
  {
    var i := 0;
    while i < |line| && White(line[i])
      invariant 0 <= i <= |line| && forall c <- line[..i] :: White(c)
    {
      assert line[..i + 1] == line[..i] + [line[i]];
      i := i + 1;
    }
    var j := |line|;
    while j > i && White(line[j - 1])
      invariant i <= j <= |line| && forall c <- line[j..] :: White(c)
    {
      assert line[j - 1..] == [line[j - 1]] + line[j..];
      j := j - 1;
    }
    lead, text, tail := line[..i], line[i..j], line[j..];
  }

  /** A file's lines, an unterminated last one included. */
  function Split(data: string): seq<string>
    decreases |data|
  {
    if data == "" then []
    else
      var i := FirstEnd(data);
      [data[..i]] + if i == |data| then [] else Split(data[i + 1..])
  }

  lemma {:induction false} ReadAfter(c: Codec, lines: seq<string>, line: string)
    ensures ReadAll(c, lines + [line]) == ReadLine(c, ReadAll(c, lines), line)
  {
    assert (lines + [line])[..|lines|] == lines;
  }

  lemma {:induction false} StaysFailed(c: Codec, lines: seq<string>, n: nat)
    requires n <= |lines| && ReadAll(c, lines[..n]).err != NoErr
    ensures ReadAll(c, lines) == ReadAll(c, lines[..n])
  {
    if n < |lines| {
      assert lines[..|lines| - 1][..n] == lines[..n];
      StaysFailed(c, lines[..|lines| - 1], n);
    } else {
      assert lines[..n] == lines;
    }
  }

  method NextLine(data: string, pos: nat) returns (end: nat)
    requires pos < |data|
    ensures end == pos + FirstEnd(data[pos..])
  {
    end := pos;
    while end < |data| && data[end] != '\n'
      invariant pos <= end <= |data|
      invariant '\n' !in data[pos..end]
    {
      assert data[pos..end + 1] == data[pos..end] + [data[end]];
      end := end + 1;
    }
    FirstEndIs(data[pos..end], data[end..]);
    assert data[pos..] == data[pos..end] + data[end..];
  }

  /** The scanner's loop. */
  method ReadFile(c: Codec, data: string) returns (r: Read)
    ensures r == ReadAll(c, Split(data))
  {
    r := Read([], NoErr);
    var pos := 0;
    ghost var lines: seq<string> := [];
    assert data[0..] == data;
    while pos < |data|
      invariant 0 <= pos <= |data|
      invariant Split(data) == lines + Split(data[pos..])
      invariant r == ReadAll(c, lines) && r.err == NoErr
    {
      var end := NextLine(data, pos);
      var line := data[pos..end];
      ghost var next := if end == |data| then |data| else end + 1;
      SplitFirst(data, pos, end);
      assert Split(data) == (lines + [line]) + Split(data[next..]);
      ReadAfter(c, lines, line);
      r := ReadLine(c, r, line);
      lines := lines + [line];
      if r.err != NoErr {
        assert Split(data)[..|lines|] == lines;
        StaysFailed(c, Split(data), |lines|);
        return;
      }
      pos := if end == |data| then |data| else end + 1;
    }
    assert data[pos..] == "" && lines + [] == lines;
  }

  lemma SplitFirst(data: string, pos: nat, end: nat)
    requires pos < |data| && end == pos + FirstEnd(data[pos..])
    ensures end <= |data|
    ensures Split(data[pos..]) == [data[pos..end]] + Split(data[if end == |data| then |data| else end + 1..])
  {
    var rest := data[pos..];
    assert rest[..end - pos] == data[pos..end];
    if end < |data| {
      assert rest[end - pos + 1..] == data[end + 1..];
    }
  }

  // ---- recovery ----

  lemma SplitAt(data: string, head: string, rest: string)
    requires '\n' !in head && data == head + "\n" + rest
    ensures Split(data) == [head] + Split(rest)
  {
    FirstEndIs(head, "\n" + rest);
    assert data == head + ("\n" + rest);
    assert data[..|head|] == head && data[|head| + 1..] == rest;
  }

  lemma {:induction false} SplitMore(data: string, more: string)
    requires EndsWithNewline(data)
    ensures Split(data + more) == Split(data) + Split(more)
    decreases |data|
  {
    if data == "" {
      assert data + more == more;
    } else {
      var head, rest := FirstLine(data);
      SplitMore(rest, more);
      OneMoreLine(data, more, head, rest, Split(rest), Split(more));
    }
  }

  lemma OneMoreLine(data: string, more: string, head: string, rest: string, lines: seq<string>, others: seq<string>)
    requires '\n' !in head && data == head + "\n" + rest
    requires Split(rest) == lines && Split(rest + more) == lines + others
    ensures Split(data + more) == Split(data) + others
  {
    Associate(head + "\n", rest, more);
    SplitAt(data, head, rest);
    SplitAt(data + more, head, rest + more);
    Associate([head], lines, others);
  }

  lemma Associate<T>(a: seq<T>, b: seq<T>, c: seq<T>)
    ensures a + b + c == a + (b + c)
  {
  }

  lemma FirstLine(data: string) returns (head: string, rest: string)
    requires data != "" && EndsWithNewline(data)
    ensures data == head + "\n" + rest && '\n' !in head && EndsWithNewline(rest)
  {
    var i := FirstEnd(data);
    assert data[|data| - 1] in data && data[..|data|] == data;
    head, rest := data[..i], data[i + 1..];
  }

  /** Ending the last line changes no line. */
  lemma {:induction false} SplitEnded(data: string)
    requires !EndsWithNewline(data)
    ensures Split(data + "\n") == Split(data)
    decreases |data|
  {
    var i := FirstEnd(data);
    FirstEndIs(data[..i], data[i..] + "\n");
    assert data + "\n" == data[..i] + (data[i..] + "\n");
    assert (data + "\n")[..i] == data[..i];
    if i < |data| {
      assert (data + "\n")[i + 1..] == data[i + 1..] + "\n";
      SplitEnded(data[i + 1..]);
    } else {
      assert (data + "\n")[i + 1..] == "";
    }
  }

  lemma SplitOne(line: string, ended: bool)
    requires '\n' !in line && line != ""
    ensures Split(if ended then line + "\n" else line) == [line]
  {
    var s := if ended then line + "\n" else line;
    FirstEndIs(line, if ended then "\n" else "");
    assert s == line + if ended then "\n" else "";
    assert s[..|line|] == line;
    if ended { assert s[|line| + 1..] == ""; }
  }

  lemma {:induction false} TrimRightKeeps(s: string)
    requires s != "" && !Space(s[0])
    ensures TrimRight(s) != "" && (!Space(s[|s| - 1]) ==> TrimRight(s) == s)
  {
    if Space(s[|s| - 1]) { TrimRightKeeps(s[..|s| - 1]); }
  }

  lemma NoneInside(s: string, t: string, k: nat)
    requires 0 < k <= |s| && !Contains(s[1..], t)
    ensures !Contains(s[..k][1..], t)
  {
    forall i: nat | OccursAt(s[..k][1..], t, i) ensures OccursAt(s[1..], t, i) {
      assert s[..k][1..] == s[1..][..k - 1];
      assert s[1..][..k - 1][i..i + |t|] == s[1..][i..i + |t|];
    }
  }

  /** A piece of an entry's text is read as the entry, or as nothing, or is too long. */
  lemma PieceRead(c: Codec, e: Entry, k: nat, r: Read)
    requires LawfulText(c, e) && 0 < k <= |c.encode(e)| && r.err == NoErr
    ensures ReadLine(c, r, c.encode(e)[..k]) == With(r, e, k, |c.encode(e)|)
  {
    var text := c.encode(e);
    var line := text[..k];
    assert text[0] == ENTRY_START[0];
    TrimRightKeeps(line);
    assert TrimLeft(line) == line;
    var trimmed := TrimSpace(line);
    assert trimmed == text[..|trimmed|];
    if k == |text| {
      assert line == text;
    } else {
      PieceIsCutShort(c, e, |trimmed|);
    }
  }

  /** What was read before, once k bytes of an entry's text are on the next line. */
  function With(r: Read, e: Entry, k: nat, whole: nat): Read {
    if k >= LIMIT then r.(err := TooLong)
    else if k == whole then r.(entries := r.entries + [e])
    else r
  }

  lemma PieceIsCutShort(c: Codec, e: Entry, k: nat)
    requires LawfulText(c, e) && 0 < k < |c.encode(e)|
    ensures c.parse(c.encode(e)[..k]).Bad? && CutShort(c.encode(e)[..k], c.parse(c.encode(e)[..k]))
  {
    var text := c.encode(e);
    NoneInside(text, ENTRY_START, k);
    if k >= |ENTRY_START| {
      assert text[..k][..|ENTRY_START|] == text[..|ENTRY_START|] == ENTRY_START;
    } else {
      assert text[..k] == text[..|ENTRY_START|][..k] == ENTRY_START[..k];
    }
  }

  /** A file read without complaint, in these entries. */
  ghost predicate Reads(c: Codec, data: string, entries: seq<Entry>) {
    ReadAll(c, Split(data)) == Read(entries, NoErr)
  }

  lemma BlankLine(c: Codec, data: string, entries: seq<Entry>)
    requires Reads(c, data, entries)
    ensures Reads(c, data + "\n", entries)
  {
    if EndsWithNewline(data) {
      SplitMore(data, "\n");
      assert "\n"[..0] == "" && "\n"[1..] == "" && Split("\n") == [""];
      ReadAfter(c, Split(data), "");
    } else {
      SplitEnded(data);
    }
  }

  /** A piece of an entry's text, or all of it, on a line of its own. */
  lemma PieceAdded(c: Codec, data: string, entries: seq<Entry>, e: Entry, k: nat, ended: bool)
    requires LawfulText(c, e) && EndsWithNewline(data) && Reads(c, data, entries)
    requires k <= |c.encode(e)| && (ended ==> k == |c.encode(e)|)
    ensures ReadAll(c, Split(data + c.encode(e)[..k] + (if ended then "\n" else ""))) ==
            With(Read(entries, NoErr), e, k, |c.encode(e)|)
  {
    var text := c.encode(e);
    var more := text[..k] + if ended then "\n" else "";
    assert data + text[..k] + (if ended then "\n" else "") == data + more;
    if k == 0 {
      assert data + more == data;
    } else {
      assert '\n' !in text[..k];
      SplitOne(text[..k], ended);
      assert more == if ended then text[..k] + "\n" else text[..k];
      SplitMore(data, more);
      ReadAfter(c, Split(data), text[..k]);
      PieceRead(c, e, k, ReadAll(c, Split(data)));
    }
  }

  /** Where an append's text starts: on a line of its own. */
  function Onto(data: string, w: Write): string {
    if w.readable && EndsWithNewline(data) then data else data + "\n"
  }

  /** How many bytes of the entry's text landed. */
  function Piece(c: Codec, data: string, w: Write): (k: nat)
    ensures k <= |c.encode(w.entry)|
  {
    var rest := |Landed(c, data, w)| - (|Onto(data, w)| - |data|);
    if rest < 0 then 0 else if rest <= |c.encode(w.entry)| then rest else |c.encode(w.entry)|
  }

  lemma WholePiece(c: Codec, data: string, w: Write)
    requires c.encode(w.entry) != ""
    ensures IsWhole(c, data, w) <==> Piece(c, data, w) == |c.encode(w.entry)|
  {
  }

  /** What one more append makes of a file that reads well. */
  lemma AppendReads(c: Codec, data: string, entries: seq<Entry>, w: Write)
    requires LawfulText(c, w.entry) && Reads(c, data, entries)
    ensures ReadAll(c, Split(data + Landed(c, data, w))) ==
            if Piece(c, data, w) >= LIMIT then Read(entries, TooLong)
            else Read(if IsWhole(c, data, w) then entries + [w.entry] else entries, NoErr)
  {
    var text := c.encode(w.entry);
    var landed := Landed(c, data, w);
    var onto := Onto(data, w);
    var skip := |onto| - |data|;
    WholePiece(c, data, w);
    if |landed| < skip {
      assert landed == "" && data + landed == data;
    } else {
      if skip == 1 { BlankLine(c, data, entries); }
      var k := Piece(c, data, w);
      PieceAdded(c, onto, entries, w.entry, k, |landed| - skip > |text|);
      LandedIs(c, data, w, onto, k);
    }
  }

  /** An append leaves the lines there were as they are. */
  lemma LinesStay(c: Codec, data: string, w: Write)
    ensures Split(data) <= Split(data + Landed(c, data, w))
  {
    var landed := Landed(c, data, w);
    if landed == "" {
      assert data + landed == data;
    } else if EndsWithNewline(data) {
      SplitMore(data, landed);
    } else {
      assert landed[0] == '\n' && data + landed == (data + "\n") + landed[1..];
      SplitEnded(data);
      SplitMore(data + "\n", landed[1..]);
    }
  }

  /** A file that fails to read goes on failing alike, whatever is appended. */
  lemma FailureStays(c: Codec, data: string, w: Write)
    requires ReadAll(c, Split(data)).err != NoErr
    ensures ReadAll(c, Split(data + Landed(c, data, w))) == ReadAll(c, Split(data))
  {
    LinesStay(c, data, w);
    var lines := Split(data + Landed(c, data, w));
    assert lines[..|Split(data)|] == Split(data);
    StaysFailed(c, lines, |Split(data)|);
  }

  lemma LandedIs(c: Codec, data: string, w: Write, onto: string, k: nat)
    requires onto == if w.readable && EndsWithNewline(data) then data else data + "\n"
    requires var rest := |Landed(c, data, w)| - (|onto| - |data|);
      0 <= rest && k == if rest <= |c.encode(w.entry)| then rest else |c.encode(w.entry)|
    ensures var rest := |Landed(c, data, w)| - (|onto| - |data|);
      data + Landed(c, data, w) == onto + c.encode(w.entry)[..k] + if rest > |c.encode(w.entry)| then "\n" else ""
  {
    var text := c.encode(w.entry);
    var rest := |Landed(c, data, w)| - (|onto| - |data|);
    if rest > |text| {
      assert text[..k] == text;
    }
  }

  /** Nothing of a mebibyte or more landed of any entry. */
  predicate AllShort(c: Codec, writes: seq<Write>) {
    writes != [] ==>
      var n := |writes| - 1;
      AllShort(c, writes[..n]) && Piece(c, Written(c, writes[..n]), writes[n]) < LIMIT
  }

  /** What a journal of these appends reads back as: the entries whose text landed
      whole, up to the first piece that is too long. */
  function Recovery(c: Codec, writes: seq<Write>): Read {
    if AllShort(c, writes) then Read(WholeEntries(c, writes), NoErr)
    else
      var before := writes[..|writes| - 1];
      if AllShort(c, before) then Read(WholeEntries(c, before), TooLong) else Recovery(c, before)
  }

  /** However each of a series of appends was cut short, the journal reads back exactly
      the entries whose text landed whole, in order, without an error if and only if no
      piece that landed is too long for a line; else it reads those before the first
      such piece, and fails. */
  lemma {:induction false} RecoveredExactly(c: Codec, writes: seq<Write>)
    requires Lawful(c)
    ensures ReadAll(c, Split(Written(c, writes))) == Recovery(c, writes)
    ensures ReadAll(c, Split(Written(c, writes))) == Read(WholeEntries(c, writes), NoErr) <==> AllShort(c, writes)
    ensures ReadAll(c, Split(Written(c, writes))).err == NoErr <==> AllShort(c, writes)
  {
    if writes != [] {
      var n := |writes| - 1;
      var before, data := writes[..n], Written(c, writes[..n]);
      RecoveredExactly(c, before);
      RecoveryFails(c, before);
      if AllShort(c, before) {
        assert LawfulText(c, writes[n].entry);
        AppendReads(c, data, WholeEntries(c, before), writes[n]);
        assert WholeEntries(c, before) + [] == WholeEntries(c, before);
      } else {
        FailureStays(c, data, writes[n]);
      }
    }
  }

  lemma {:induction false} RecoveryFails(c: Codec, writes: seq<Write>)
    ensures Recovery(c, writes).err == NoErr <==> AllShort(c, writes)
  {
    if writes != [] { RecoveryFails(c, writes[..|writes| - 1]); }
  }

  /** The first piece that is too long is where the read stops. */
  lemma {:induction false} FirstTooLong(c: Codec, writes: seq<Write>) returns (n: nat)
    requires !AllShort(c, writes)
    ensures n < |writes| && AllShort(c, writes[..n]) && Piece(c, Written(c, writes[..n]), writes[n]) >= LIMIT
    ensures Recovery(c, writes) == Read(WholeEntries(c, writes[..n]), TooLong)
  {
    var before := writes[..|writes| - 1];
    if AllShort(c, before) {
      n := |writes| - 1;
    } else {
      n := FirstTooLong(c, before);
      assert before[..n] == writes[..n];
    }
  }

  /** Entries of less than a mebibyte never land in pieces that are too long. */
  lemma {:induction false} ShortEntries(c: Codec, writes: seq<Write>)
    requires forall w <- writes :: |c.encode(w.entry)| < LIMIT
    ensures AllShort(c, writes)
  {
    if writes != [] { ShortEntries(c, writes[..|writes| - 1]); }
  }

  /** A piece that is too long, whole or cut, fails the read after the entries before
      it, and whatever is appended later leaves it so. */
  lemma TooLongFails(c: Codec, data: string, entries: seq<Entry>, w: Write, later: Write)
    requires LawfulText(c, w.entry) && Reads(c, data, entries) && Piece(c, data, w) >= LIMIT
    ensures var after := data + Landed(c, data, w);
      && ReadAll(c, Split(after)) == Read(entries, TooLong)
      && ReadAll(c, Split(after + Landed(c, after, later))) == Read(entries, TooLong)
  {
    AppendReads(c, data, entries, w);
    FailureStays(c, data + Landed(c, data, w), later);
  }

  /** A whole entry glued to a fragment is never skipped as cut short. */
  lemma GluedIsLoud(c: Codec, fragment: string, e: Entry, bad: Parsed)
    requires LawfulText(c, e) && fragment != "" && bad.Bad?
    ensures !CutShort(fragment + c.encode(e), bad)
  {
    var text := c.encode(e);
    var line := fragment + text;
    var i := |fragment| - 1;
    assert line[1..][i..i + |ENTRY_START|] == text[..|ENTRY_START|];
    assert OccursAt(line[1..], ENTRY_START, i);
  }
}
