// Writing a command line and reading one: ShellQuote in internal/engine/plan.go,
// shellWords in internal/scanner/tool_fnm.go.
module Shell {
  import opened Catalog

  // ---- writing ----

  const SPECIAL := " \t\n'\"\\$`*?[](){}<>|&;!#"

  predicate HasTildeAfterEquals(s: string) {
    exists i | 0 <= i < |s| - 1 :: s[i] == '=' && s[i + 1] == '~'
  }

  /** Whether a shell would split, expand or drop the word as it stands. */
  predicate Quoted(s: string) {
    s == "" || (exists i | 0 <= i < |s| :: s[i] in SPECIAL) || s[0] == '=' || HasTildeAfterEquals(s)
  }

  function Escaped(s: string): string {
    if s == "" then "" else (if s[0] == '\'' then "'\\''" else [s[0]]) + Escaped(s[1..])
  }

  function ShellQuote(s: string): string {
    if Quoted(s) then "'" + Escaped(s) + "'" else s
  }

  /** A word is left as it is exactly when it is not empty, holds none of the bytes a shell
      reads as its own, starts with no equals sign and has no tilde right behind one. */
  lemma QuotedExactly(s: string)
    ensures ShellQuote(s) == s <==>
      && s != "" && s[0] != '=' && (forall i | 0 < i < |s| :: !(s[i - 1] == '=' && s[i] == '~'))
      && (forall c <- s ::
        c !in [' ', '\t', '\n', '\'', '"', '\\', '$', '`', '*', '?', '[', ']', '(', ')', '{', '}', '<', '>',
                                '|', '&', ';', '!', '#'])
  {
    assert forall c :: c in SPECIAL <==>
      c in [' ', '\t', '\n', '\'', '"', '\\', '$', '`', '*', '?', '[', ']', '(', ')', '{', '}', '<', '>',
            '|', '&', ';', '!', '#'];
    EscapedGrows(s);
    if HasTildeAfterEquals(s) {
      var i :| 0 <= i < |s| - 1 && s[i] == '=' && s[i + 1] == '~';
      assert !(0 < i + 1 < |s| && !(s[i + 1 - 1] == '=' && s[i + 1] == '~'));
    }
    if exists i | 0 < i < |s| :: s[i - 1] == '=' && s[i] == '~' {
      var i :| 0 < i < |s| && s[i - 1] == '=' && s[i] == '~';
      assert s[i - 1] == '=' && s[i - 1 + 1] == '~';
    }
  }

  lemma {:induction false} EscapedGrows(s: string)
    ensures |Escaped(s)| >= |s|
  {
    if s != "" { EscapedGrows(s[1..]); }
  }

  /** What stands after the first word. */
  function Rest(words: seq<string>): (rest: string)
    requires words != []
    ensures rest == "" || rest[0] == ' '
    decreases |words|, 0
  {
    if |words| == 1 then "" else " " + Line(words[1..])
  }

  /** The words joined by spaces. */
  function Line(words: seq<string>): string
    decreases |words|, 1
  {
    if words == [] then "" else ShellQuote(words[0]) + Rest(words)
  }

  // ---- reading ----

  const WORD_END := " \t\n\r;&|()<>`"

  /** A user lookup: the home, no such user, or a lookup that failed. */
  datatype Lookup = Home(dir: string) | NoUser | LookupFailed

  datatype Env = Env(home: string, lookup: string -> Lookup)

  function UserHome(env: Env, name: string): Option<string> {
    if name == "" then Some(env.home)
    else
      match env.lookup(name)
      case Home(dir) => Some(dir)
      case NoUser => Some("")
      case LookupFailed => None
  }

  predicate NameByte(c: char) {
    c == '_' || '0' <= c <= '9' || 'a' <= c <= 'z' || 'A' <= c <= 'Z'
  }

  function IndexOf(s: string, c: char): (i: nat)
    ensures i <= |s| && (i < |s| ==> s[i] == c) && forall k | 0 <= k < i :: s[k] != c
  {
    if s == "" || s[0] == c then 0 else 1 + IndexOf(s[1..], c)
  }

  /** The length of a $HOME expansion that starts the text, or 0. */
  function HomeAt(rest: string): (n: nat)
    ensures n <= |rest|
  {
    if "${HOME" <= rest then
      var after := rest[6..];
      var j := IndexOf(after, '}');
      if j < |after| && (j == 0 || !NameByte(after[0])) then 6 + j + 1 else 0
    else if "$HOME" <= rest && (|rest| == 5 || !NameByte(rest[5])) then 5
    else 0
  }

  predicate EndsName(c: char) { c == '/' || c in WORD_END || c in "'\"\\$" }

  /** Where the user name after a tilde ends. */
  function NameEnd(rest: string): (j: nat)
    requires rest != ""
    ensures 1 <= j <= |rest| && (j < |rest| ==> EndsName(rest[j])) && forall k | 1 <= k < j :: !EndsName(rest[k])
  {
    NameEndFrom(rest, 1)
  }

  function NameEndFrom(rest: string, j: nat): (k: nat)
    requires j <= |rest|
    ensures j <= k <= |rest| && (k < |rest| ==> EndsName(rest[k])) && forall i | j <= i < k :: !EndsName(rest[i])
    decreases |rest| - j
  {
    if j == |rest| || EndsName(rest[j]) then j else NameEndFrom(rest, j + 1)
  }

  datatype Reader = Reader(words: seq<string>, word: string, started: bool, single: bool, double: bool)

  const START := Reader([], "", false, false, false)

  function Ended(r: Reader): Reader {
    r.(words := if r.started then r.words + [r.word] else r.words, word := "", started := false)
  }

  function Put(r: Reader, s: string): Reader { r.(word := r.word + s, started := true) }

  /** One turn of the loop: the reader after it, and how many bytes it took. */
  datatype Turn = Turn(reader: Reader, taken: nat) | Fails

  function Tilde(env: Env, rest: string, r: Reader): (t: Turn)
    requires rest != ""
    ensures t.Turn? ==> 1 <= t.taken <= |rest| && r.words <= t.reader.words
  {
    var j := NameEnd(rest);
    if j == |rest| || rest[j] == '/' || rest[j] in WORD_END then
      match UserHome(env, rest[1..j])
      case None => Fails
      case Some(dir) => if dir != "" then Turn(Put(r, dir), j) else Turn(Put(r, "~"), 1)
    else Turn(Put(r, "~"), 1)
  }

  function Advance(env: Env, rest: string, r: Reader): (t: Turn)
    requires rest != ""
    ensures t.Turn? ==> 1 <= t.taken <= |rest| && r.words <= t.reader.words
  {
    var c := rest[0];
    if r.single then
      Turn(if c == '\'' then r.(single := false) else r.(word := r.word + [c]), 1)
    else if c == '\\' && |rest| > 1 && (!r.double || rest[1] in "$`\"\\\n") then
      Turn(if rest[1] == '\n' then r else Put(r, [rest[1]]), 2)
    else if c == '$' then
      var n := HomeAt(rest);
      if n > 0 then Turn(Put(r, env.home), n) else Turn(Put(r, [c]), 1)
    else if r.double then
      Turn(if c == '"' then r.(double := false) else r.(word := r.word + [c]), 1)
    else if c == '\'' then Turn(r.(single := true, started := true), 1)
    else if c == '"' then Turn(r.(double := true, started := true), 1)
    else if c in WORD_END then Turn(Ended(r), 1)
    else if c == '~' && !r.started then Tilde(env, rest, r)
    else Turn(Put(r, [c]), 1)
  }

  // ---- the reader's rules, one for each kind of byte ----

  /** In single quotes every byte stands for itself, up to the closing one. */
  lemma InSingle(env: Env, rest: string, r: Reader)
    requires rest != "" && r.single
    ensures Advance(env, rest, r) ==
      if rest[0] == '\'' then Turn(r.(single := false), 1) else Turn(r.(word := r.word + rest[..1]), 1)
  {
  }

  /** A backslash keeps the next byte, in double quotes only one of five; a newline it
      removes. A last one stands for itself. */
  lemma Backslash(env: Env, rest: string, r: Reader)
    requires rest != "" && rest[0] == '\\' && !r.single
    ensures |rest| > 1 && (!r.double || rest[1] in ['$', '`', '"', '\\', '\n']) ==>
      Advance(env, rest, r) ==
      if rest[1] == '\n' then Turn(r, 2) else Turn(r.(word := r.word + rest[1..2], started := true), 2)
    ensures |rest| > 1 && r.double && rest[1] !in ['$', '`', '"', '\\', '\n'] ==>
      Advance(env, rest, r) == Turn(r.(word := r.word + "\\"), 1)
    ensures |rest| == 1 ==>
      Advance(env, rest, r) ==
      if r.double then Turn(r.(word := r.word + "\\"), 1) else Turn(r.(word := r.word + "\\", started := true), 1)
  {
  }

  /** A byte a shell variable's name may hold. */
  ghost predicate InName(c: char) { 'a' <= c <= 'z' || 'A' <= c <= 'Z' || '0' <= c <= '9' || c == '_' }

  /** The text opens with $HOME, and no longer name. */
  ghost predicate PlainHome(rest: string) { "$HOME" <= rest && (|rest| > 5 ==> !InName(rest[5])) }

  /** Its first n bytes are HOME in braces, or that and anything else that is no longer name. */
  ghost predicate BracedHome(rest: string, n: nat) {
    && 7 <= n <= |rest| && "${HOME" <= rest && rest[n - 1] == '}' && (forall i | 6 <= i < n - 1 :: rest[i] != '}')
    && (n > 7 ==> !InName(rest[6]))
  }

  /** Outside single quotes the home stands in for $HOME in either spelling, and any other
      dollar sign for itself. */
  lemma Dollar(env: Env, rest: string, r: Reader)
    requires rest != "" && rest[0] == '$' && !r.single
    ensures PlainHome(rest) ==> Advance(env, rest, r) == Turn(r.(word := r.word + env.home, started := true), 5)
    ensures forall n: nat | BracedHome(rest, n) ::
      Advance(env, rest, r) == Turn(r.(word := r.word + env.home, started := true), n)
    ensures !PlainHome(rest) && (forall n: nat :: !BracedHome(rest, n)) ==>
      Advance(env, rest, r) == Turn(r.(word := r.word + "$", started := true), 1)
  {
    HomeExactly(rest);
  }

  lemma HomeExactly(rest: string)
    ensures PlainHome(rest) ==> HomeAt(rest) == 5
    ensures forall n: nat | BracedHome(rest, n) :: HomeAt(rest) == n
    ensures HomeAt(rest) > 0 ==> PlainHome(rest) || BracedHome(rest, HomeAt(rest))
  {
    if "${HOME" <= rest {
      assert rest[1] == '{';
      BraceFound(rest);
    }
  }

  lemma BraceFound(rest: string)
    requires "${HOME" <= rest
    ensures var j := IndexOf(rest[6..], '}');
      && (forall n: nat | BracedHome(rest, n) :: n == 6 + j + 1 && j < |rest| - 6 && (j == 0 || !NameByte(rest[6])))
      && (j < |rest| - 6 && (j == 0 || !NameByte(rest[6])) ==> BracedHome(rest, 6 + j + 1))
  {
    var after := rest[6..];
    var j := IndexOf(after, '}');
    assert forall i | 0 <= i < |after| :: after[i] == rest[6 + i];
    forall n: nat | BracedHome(rest, n) ensures n == 6 + j + 1 {
      assert after[n - 7] == rest[n - 1] == '}';
    }
    assert forall i | 6 <= i < 6 + j :: rest[i] == after[i - 6];
  }

  /** In double quotes every other byte stands for itself, up to the closing one. */
  lemma InDouble(env: Env, rest: string, r: Reader)
    requires rest != "" && r.double && !r.single && rest[0] != '\\' && rest[0] != '$'
    ensures Advance(env, rest, r) ==
      if rest[0] == '"' then Turn(r.(double := false), 1) else Turn(r.(word := r.word + rest[..1]), 1)
  {
  }

  /** Outside quotes: a quote opens, and starts the word it is in; what ends a word ends it,
      if it had started; a byte that is none of these, nor a leading tilde, joins it. */
  lemma Outside(env: Env, rest: string, r: Reader)
    requires rest != "" && !r.double && !r.single && rest[0] != '\\' && rest[0] != '$'
    ensures rest[0] == '\'' ==> Advance(env, rest, r) == Turn(r.(single := true, started := true), 1)
    ensures rest[0] == '"' ==> Advance(env, rest, r) == Turn(r.(double := true, started := true), 1)
    ensures rest[0] in [' ', '\t', '\n', '\r', ';', '&', '|', '(', ')', '<', '>', '`'] ==>
      Advance(env, rest, r) ==
      if r.started then Turn(Reader(r.words + [r.word], "", false, false, false), 1)
      else Turn(Reader(r.words, "", false, false, false), 1)
    ensures rest[0] !in [' ', '\t', '\n', '\r', ';', '&', '|', '(', ')', '<', '>', '`', '\'', '"'] &&
            (rest[0] == '~' ==> r.started) ==>
      Advance(env, rest, r) == Turn(r.(word := r.word + rest[..1], started := true), 1)
  {
    assert forall c :: c in WORD_END <==> c in [' ', '\t', '\n', '\r', ';', '&', '|', '(', ')', '<', '>', '`'];
  }

  /** What stands right after a tilde and up to a slash, a quote, a backslash, a dollar sign
      or the word's end, at j. */
  ghost predicate NameTo(rest: string, j: nat) {
    && 1 <= j <= |rest| && (forall i | 1 <= i < j :: !Stops(rest[i])) && (j < |rest| ==> Stops(rest[j]))
  }

  ghost predicate Stops(c: char) {
    c in [' ', '\t', '\n', '\r', ';', '&', '|', '(', ')', '<', '>', '`', '/', '\'', '"', '\\', '$']
  }

  /** A tilde that starts a word is the home being read for, with a name that user's, as long
      as the name is not quoted, escaped or expanded; without such a home it stands for
      itself, and a lookup that failed fails the reading. */
  lemma LeadingTilde(env: Env, rest: string, r: Reader, j: nat)
    requires rest != "" && rest[0] == '~' && !r.double && !r.single && !r.started && NameTo(rest, j)
    ensures var itself := Turn(r.(word := r.word + "~", started := true), 1);
      if j < |rest| && rest[j] in ['\'', '"', '\\', '$'] then Advance(env, rest, r) == itself
      else if j == 1 then
        Advance(env, rest, r) ==
          if env.home == "" then itself else Turn(r.(word := r.word + env.home, started := true), 1)
      else
        Advance(env, rest, r) ==
        match env.lookup(rest[1..j])
        case Home(dir) => if dir == "" then itself else Turn(r.(word := r.word + dir, started := true), j)
        case NoUser => itself
        case LookupFailed => Fails
  {
    assert forall c :: EndsName(c) <==> Stops(c);
    assert forall i | 1 <= i < |rest| :: EndsName(rest[i]) <==> Stops(rest[i]);
    assert NameEnd(rest) == j;
    assert rest[1..1] == "";
  }

  /** A line's words are those of the turns over its bytes, the last one ended with it. */
  lemma WordsAreTurns(env: Env, rest: string, r: Reader)
    ensures rest == "" ==> Parse(env, rest, r) == Some(if r.started then r.words + [r.word] else r.words)
    ensures rest != "" ==>
      Parse(env, rest, r) ==
      match Advance(env, rest, r)
      case Fails => None
      case Turn(next, n) => Parse(env, rest[n..], next)
  {
  }

  function Parse(env: Env, rest: string, r: Reader): Option<seq<string>>
    decreases |rest|
  {
    if rest == "" then Some(Ended(r).words)
    else
      match Advance(env, rest, r)
      case Fails => None
      case Turn(next, n) => Parse(env, rest[n..], next)
  }

  function ShellWords(env: Env, text: string): Option<seq<string>> { Parse(env, text, START) }

  /** The loop over the bytes. */
  method ReadWords(env: Env, text: string) returns (words: Option<seq<string>>)
    ensures words == ShellWords(env, text)
  {
    var i := 0;
    var r := START;
    assert text[0..] == text;
    while i < |text|
      invariant 0 <= i <= |text|
      invariant Parse(env, text[i..], r) == ShellWords(env, text)
    {
      var t := Advance(env, text[i..], r);
      if t == Fails {
        return None;
      }
      assert text[i..][t.taken..] == text[i + t.taken..];
      r := t.reader;
      i := i + t.taken;
    }
    assert text[i..] == "";
    return Some(Ended(r).words);
  }

  // ---- a quoted word is read back whole ----

  /** One turn, on a text that is some bytes and a tail. */
  lemma OneTurn(env: Env, text: string, head: string, tail: string, r: Reader, next: Reader)
    requires text == head + tail && head != "" && Advance(env, text, r) == Turn(next, |head|)
    ensures Parse(env, text, r) == Parse(env, tail, next)
  {
    assert text[|head|..] == tail;
  }

  /** A single quote inside: the quotes close, an escaped quote, and they open again. */
  lemma Reopened(env: Env, text: string, tail: string, r: Reader)
    requires r.single && !r.double && r.started && text == "'\\''" + tail
    ensures Parse(env, text, r) == Parse(env, tail, r.(word := r.word + "'"))
  {
    var r1 := r.(single := false);
    var r2 := r1.(word := r.word + "'");
    OneTurn(env, text, "'", "\\''" + tail, r, r1);
    OneTurn(env, "\\''" + tail, "\\'", "'" + tail, r1, r2);
    OneTurn(env, "'" + tail, "'", tail, r2, r2.(single := true));
  }

  lemma {:induction false} QuotedRead(env: Env, s: string, text: string, rest: string, r: Reader)
    requires r.single && !r.double && r.started && text == Escaped(s) + "'" + rest
    ensures Parse(env, text, r) == Parse(env, rest, r.(word := r.word + s, single := false))
  {
    if s == "" {
      OneTurn(env, text, "'", rest, r, r.(single := false));
      assert r.word + s == r.word;
    } else {
      var tail := Escaped(s[1..]) + "'" + rest;
      QuotedChar(env, s, text, rest, tail, r);
      QuotedRead(env, s[1..], tail, rest, r.(word := r.word + [s[0]]));
      WordGrows(r.word, s);
    }
  }

  lemma WordGrows(word: string, s: string)
    requires s != ""
    ensures word + [s[0]] + s[1..] == word + s
  {
  }

  /** The first byte inside the quotes. */
  lemma QuotedChar(env: Env, s: string, text: string, rest: string, tail: string, r: Reader)
    requires r.single && !r.double && r.started && s != ""
    requires text == Escaped(s) + "'" + rest && tail == Escaped(s[1..]) + "'" + rest
    ensures Parse(env, text, r) == Parse(env, tail, r.(word := r.word + [s[0]]))
  {
    if s[0] == '\'' {
      assert text == "'\\''" + tail;
      Reopened(env, text, tail, r);
    } else {
      assert text == [s[0]] + tail;
      OneTurn(env, text, [s[0]], tail, r, r.(word := r.word + [s[0]]));
    }
  }

  // ---- a word left as it is ----

  predicate Plain(w: string) { forall i | 0 <= i < |w| :: w[i] !in SPECIAL }

  /** What reading a plain word on its own, or with more words after it, does. */
  function Feed(env: Env, w: string, r: Reader): (next: Option<Reader>)
    ensures next.Some? ==> r.words <= next.value.words
    decreases |w|
  {
    if w == "" then Some(r)
    else if w[0] == '\r' then Feed(env, w[1..], Ended(r))
    else if w[0] == '~' && !r.started then
      match Tilde(env, w, r)
      case Fails => None
      case Turn(next, n) => Feed(env, w[n..], next)
    else Feed(env, w[1..], Put(r, [w[0]]))
  }

  predicate Fresh(r: Reader) { !r.single && !r.double && (!r.started ==> r.word == "") }

  lemma PlainTurn(env: Env, w: string, rest: string, r: Reader)
    requires w != "" && Plain(w) && (rest == "" || rest[0] == ' ') && Fresh(r)
    ensures Advance(env, w + rest, r) ==
      if w[0] == '\r' then Turn(Ended(r), 1)
      else if w[0] == '~' && !r.started then Tilde(env, w, r)
      else Turn(Put(r, [w[0]]), 1)
  {
    var c := w[0];
    assert (w + rest)[0] == c && c !in SPECIAL;
    assert forall d :: d in WORD_END && d != '\r' ==> d in SPECIAL;
    if c == '~' && !r.started { SameTilde(env, w, rest, r); }
  }

  lemma SameTilde(env: Env, w: string, rest: string, r: Reader)
    requires w != "" && Plain(w) && (rest == "" || rest[0] == ' ')
    ensures Tilde(env, w + rest, r) == Tilde(env, w, r)
  {
    var j := NameEnd(w);
    var k := NameEnd(w + rest);
    assert forall i | 1 <= i < j :: (w + rest)[i] == w[i];
    assert j < |w| ==> (w + rest)[j] == w[j];
    assert j == |w| && rest != "" ==> EndsName((w + rest)[j]);
    assert k < |w| ==> EndsName(w[k]);
    assert j == k;
    assert (w + rest)[1..j] == w[1..j];
  }

  lemma {:induction false} FeedRead(env: Env, w: string, rest: string, r: Reader)
    requires Plain(w) && (rest == "" || rest[0] == ' ') && Fresh(r)
    ensures Feed(env, w, r).Some? ==> Fresh(Feed(env, w, r).value)
    ensures Parse(env, w + rest, r) == match Feed(env, w, r)
      case None => None
      case Some(next) => Parse(env, rest, next)
    decreases |w|
  {
    if w == "" {
      assert w + rest == rest;
    } else {
      PlainTurn(env, w, rest, r);
      match Advance(env, w + rest, r)
      case Fails =>
      case Turn(next, n) =>
        assert (w + rest)[n..] == w[n..] + rest;
        FeedRead(env, w[n..], rest, next);
    }
  }

  // ---- which words survive ----

  /** A leading tilde that stands for itself: no such home, or one spelled the same. */
  predicate TildeStays(env: Env, w: string)
    requires w != ""
  {
    var j := NameEnd(w);
    match UserHome(env, w[1..j])
    case None => false
    case Some(dir) => dir == "" || dir == w[..j]
  }

  /** What a caller can check of a word beforehand. */
  predicate Kept(env: Env, w: string) {
    Quoted(w) || ('\r' !in w && (w[0] == '~' ==> TildeStays(env, w)))
  }

  lemma {:induction false} FeedPlain(env: Env, w: string, r: Reader)
    requires Plain(w) && '\r' !in w && (w != "" && w[0] == '~' ==> r.started)
    ensures Feed(env, w, r) == Some(if w == "" then r else Put(r, w))
    decreases |w|
  {
    if w != "" {
      assert Feed(env, w, r) == Feed(env, w[1..], Put(r, [w[0]]));
      FeedPlain(env, w[1..], Put(r, [w[0]]));
      assert w == [w[0]] + w[1..];
      assert r.word + [w[0]] + w[1..] == r.word + w;
      assert w[1..] == "" ==> r.word + [w[0]] == r.word + w;
    }
  }

  /** An unquoted word without a carriage return is fed as itself, tilde expanded. */
  lemma FeedWord(env: Env, w: string, words: seq<string>)
    requires !Quoted(w) && '\r' !in w
    ensures var r := Reader(words, "", false, false, false);
      Feed(env, w, r) ==
      if w[0] == '~' then
        match UserHome(env, w[1..NameEnd(w)])
        case None => None
        case Some(dir) => Some(Put(r, if dir == "" then w else dir + w[NameEnd(w)..]))
      else Some(Put(r, w))
  {
    var r := Reader(words, "", false, false, false);
    assert Plain(w);
    if w[0] != '~' {
      FeedPlain(env, w, r);
    } else {
      NameEndsWell(w);
      var j := NameEnd(w);
      match UserHome(env, w[1..j])
      case None =>
      case Some(dir) =>
        assert w == "~" + w[1..];
        FeedFrom(env, w, r, if dir == "" then "~" else dir, if dir == "" then 1 else j);
    }
  }

  lemma FeedFrom(env: Env, w: string, r: Reader, head: string, at: nat)
    requires Plain(w) && '\r' !in w && 0 < at <= |w| && w[0] == '~' && !r.started && r.word == ""
    requires Tilde(env, w, r) == Turn(Put(r, head), at)
    ensures Feed(env, w, r) == Some(Put(r, head + w[at..]))
  {
    FeedPlain(env, w[at..], Put(r, head));
    assert r.word + (head + w[at..]) == r.word + head + w[at..];
    assert w[at..] == "" ==> head + w[at..] == head;
  }

  lemma NameEndsWell(w: string)
    requires w != "" && Plain(w) && '\r' !in w
    ensures NameEnd(w) == |w| || w[NameEnd(w)] == '/'
  {
    var j := NameEnd(w);
    assert forall d :: (d in WORD_END && d != '\r') || d in "'\"\\$" ==> d in SPECIAL;
    if j < |w| { assert w[j] in w; }
  }

  // ---- the round trip ----

  function Between(words: seq<string>): Reader { Reader(words, "", false, false, false) }

  function After(words: seq<string>, w: string): Reader { Reader(words, w, true, false, false) }

  lemma Wrapped(e: string, rest: string)
    ensures "'" + e + "'" + rest == "'" + (e + "'" + rest)
  {
  }

  lemma QuotedWordRead(env: Env, w: string, text: string, rest: string, words: seq<string>)
    requires Quoted(w) && text == ShellQuote(w) + rest
    ensures Parse(env, text, Between(words)) == Parse(env, rest, After(words, w))
  {
    var tail := Escaped(w) + "'" + rest;
    var inside := Reader(words, "", true, true, false);
    Wrapped(Escaped(w), rest);
    OneTurn(env, text, "'", tail, Between(words), inside);
    QuotedRead(env, w, tail, rest, inside);
    assert "" + w == w;
  }

  lemma PlainWordRead(env: Env, w: string, text: string, rest: string, words: seq<string>)
    requires Kept(env, w) && !Quoted(w) && text == w + rest && (rest == "" || rest[0] == ' ')
    ensures Parse(env, text, Between(words)) == Parse(env, rest, After(words, w))
  {
    FeedRead(env, w, rest, Between(words));
    FeedWord(env, w, words);
    Halves(w, NameEnd(w));
  }

  lemma Halves(w: string, j: nat)
    requires 1 <= j <= |w|
    ensures w[..j] + w[j..] == w && "" + w == w && (w[0] == '~' ==> w[..j] == "~" + w[1..j])
  {
  }

  /** A word of the line is read as itself, whatever stands before and after it. */
  lemma WordRead(env: Env, w: string, text: string, rest: string, words: seq<string>)
    requires Kept(env, w) && text == ShellQuote(w) + rest && (rest == "" || rest[0] == ' ')
    ensures Parse(env, text, Between(words)) == Parse(env, rest, After(words, w))
  {
    if Quoted(w) {
      QuotedWordRead(env, w, text, rest, words);
    } else {
      PlainWordRead(env, w, text, rest, words);
    }
  }

  /** The end of a word: the line's, or the space before the next. */
  lemma RestRead(env: Env, ws: seq<string>, r: Reader)
    requires ws != [] && !r.single && !r.double
    ensures Parse(env, Rest(ws), r) == Parse(env, Line(ws[1..]), Ended(r))
  {
    if |ws| > 1 {
      OneTurn(env, Rest(ws), " ", Line(ws[1..]), r, Ended(r));
    }
  }

  lemma KeptRead(env: Env, ws: seq<string>, words: seq<string>)
    requires ws != [] && Kept(env, ws[0])
    ensures Parse(env, Line(ws), Between(words)) == Parse(env, Line(ws[1..]), Between(words + [ws[0]]))
  {
    WordRead(env, ws[0], Line(ws), Rest(ws), words);
    RestRead(env, ws, After(words, ws[0]));
  }

  lemma Shift(words: seq<string>, ws: seq<string>)
    requires ws != []
    ensures (words + [ws[0]]) + ws[1..] == words + ws
  {
  }

  /** A line of quoted words reads back as those words. */
  lemma {:induction false} LineRead(env: Env, ws: seq<string>, words: seq<string>)
    requires forall w <- ws :: Kept(env, w)
    ensures Parse(env, Line(ws), Between(words)) == Some(words + ws)
  {
    if ws == [] {
      assert words + [] == words;
    } else {
      KeptRead(env, ws, words);
      LineRead(env, ws[1..], words + [ws[0]]);
      Shift(words, ws);
    }
  }

  /** What ShellQuote and spaces write, shellWords reads back, unless a word that is
      left unquoted holds a carriage return or a tilde that stands for a home. */
  lemma RoundTrip(env: Env, ws: seq<string>)
    requires forall w <- ws :: Kept(env, w)
    ensures ShellWords(env, Line(ws)) == Some(ws)
  {
    LineRead(env, ws, []);
    assert [] + ws == ws;
  }

  // ---- and no other words come back ----

  /** No home directory holds a carriage return. */
  ghost predicate CleanHomes(env: Env) {
    '\r' !in env.home && forall name :: env.lookup(name).Home? ==> '\r' !in env.lookup(name).dir
  }

  /** What can be read back: a word that was quoted, or one without carriage returns. */
  predicate Clean(w: string) { Quoted(w) || '\r' !in w }

  predicate CleanFrom(words: seq<string>, k: nat) { forall i | k <= i < |words| :: Clean(words[i]) }

  lemma {:induction false} FeedClean(env: Env, w: string, r: Reader)
    requires CleanHomes(env) && Plain(w) && Fresh(r) && '\r' !in r.word
    ensures Feed(env, w, r).Some? ==>
      var next := Feed(env, w, r).value;
      && Fresh(next) && '\r' !in next.word && r.words <= next.words
      && forall i | |r.words| <= i < |next.words| :: '\r' !in next.words[i]
    decreases |w|
  {
    if w != "" {
      if w[0] == '~' && !r.started {
        var t := Tilde(env, w, r);
        if t.Turn? { FeedClean(env, w[t.taken..], t.reader); }
      } else {
        FeedClean(env, w[1..], if w[0] == '\r' then Ended(r) else Put(r, [w[0]]));
      }
    }
  }

  lemma {:induction false} WordsGrow(env: Env, rest: string, r: Reader)
    ensures Parse(env, rest, r).Some? ==> r.words <= Parse(env, rest, r).value
    decreases |rest|
  {
    if rest != "" {
      var t := Advance(env, rest, r);
      if t.Turn? { WordsGrow(env, rest[t.taken..], t.reader); }
    }
  }

  /** The reader after the first word, kept or not. */
  function FirstRead(env: Env, w: string, words: seq<string>): Option<Reader> {
    if Kept(env, w) then Some(After(words, w)) else Feed(env, w, Between(words))
  }

  lemma FirstWord(env: Env, ws: seq<string>, words: seq<string>)
    requires ws != []
    ensures Parse(env, Line(ws), Between(words)) == match FirstRead(env, ws[0], words)
      case None => None
      case Some(r) => Parse(env, Rest(ws), r)
    ensures FirstRead(env, ws[0], words).Some? ==> Fresh(FirstRead(env, ws[0], words).value)
  {
    if Kept(env, ws[0]) {
      WordRead(env, ws[0], Line(ws), Rest(ws), words);
    } else {
      FeedRead(env, ws[0], Rest(ws), Between(words));
    }
  }

  /** Every word a written line reads back as is clean. */
  lemma {:induction false} LineClean(env: Env, ws: seq<string>, words: seq<string>)
    requires CleanHomes(env)
    ensures var read := Parse(env, Line(ws), Between(words));
      read.Some? ==> words <= read.value && CleanFrom(read.value, |words|)
    decreases |ws|
  {
    if ws != [] {
      FirstWord(env, ws, words);
      var first := FirstRead(env, ws[0], words);
      if !Kept(env, ws[0]) { FeedClean(env, ws[0], Between(words)); }
      if first.Some? {
        RestRead(env, ws, first.value);
        EndedClean(first.value, |words|);
        LineClean(env, ws[1..], Ended(first.value).words);
      }
    }
  }

  lemma EndedClean(r: Reader, k: nat)
    requires Fresh(r) && (r.started ==> Clean(r.word)) && k <= |r.words| && CleanFrom(r.words, k)
    ensures CleanFrom(Ended(r).words, k) && r.words <= Ended(r).words
  {
  }

  /** A word left unquoted that is not kept is not read back in its place. */
  lemma LostWord(env: Env, ws: seq<string>, words: seq<string>)
    requires CleanHomes(env) && ws != [] && !Kept(env, ws[0])
    ensures Parse(env, Line(ws), Between(words)) != Some(words + ws)
  {
    var w := ws[0];
    FirstWord(env, ws, words);
    FeedClean(env, w, Between(words));
    var first := Feed(env, w, Between(words));
    if first.Some? {
      var r := first.value;
      RestRead(env, ws, r);
      WordsGrow(env, Line(ws[1..]), Ended(r));
      assert |words + ws| > |words| && (words + ws)[|words|] == w;
      if '\r' in w {
        LineClean(env, ws[1..], Ended(r).words);
        EndedClean(r, |words|);
      } else {
        FeedWord(env, w, words);
        LostTilde(env, w);
      }
    }
  }

  lemma LostTilde(env: Env, w: string)
    requires !Quoted(w) && w[0] == '~' && !TildeStays(env, w)
    ensures match UserHome(env, w[1..NameEnd(w)])
      case None => true
      case Some(dir) => dir != "" && dir + w[NameEnd(w)..] != w
  {
    var j := NameEnd(w);
    match UserHome(env, w[1..j])
    case None =>
    case Some(dir) =>
      if dir + w[j..] == w { SameHead(dir, w, j); }
  }

  lemma SameHead(dir: string, w: string, j: nat)
    requires j <= |w| && dir + w[j..] == w
    ensures dir == w[..j]
  {
    assert |dir| == j;
    assert (dir + w[j..])[..j] == dir;
  }

  lemma SomeLater(env: Env, ws: seq<string>)
    requires ws != [] && Kept(env, ws[0]) && exists w <- ws :: !Kept(env, w)
    ensures exists w <- ws[1..] :: !Kept(env, w)
  {
    assert ws == [ws[0]] + ws[1..];
  }

  lemma {:induction false} SomeLost(env: Env, ws: seq<string>, words: seq<string>)
    requires CleanHomes(env) && exists w <- ws :: !Kept(env, w)
    ensures Parse(env, Line(ws), Between(words)) != Some(words + ws)
  {
    if Kept(env, ws[0]) {
      SomeLater(env, ws);
      KeptRead(env, ws, words);
      SomeLost(env, ws[1..], words + [ws[0]]);
      Shift(words, ws);
    } else {
      LostWord(env, ws, words);
    }
  }

  /** The line reads back as its words exactly when every word is kept. */
  lemma RoundTripsExactly(env: Env, ws: seq<string>)
    requires CleanHomes(env)
    ensures ShellWords(env, Line(ws)) == Some(ws) <==> forall w <- ws :: Kept(env, w)
  {
    assert [] + ws == ws;
    if forall w <- ws :: Kept(env, w) {
      RoundTrip(env, ws);
    } else {
      SomeLost(env, ws, []);
    }
  }

  /** A word ~a is left as it is, and read back as a's home. */
  lemma TildeIsLost(env: Env)
    requires env.lookup("a") == Home("/Users/a")
    ensures !Quoted("~a") && ShellWords(env, Line(["~a"])) == Some(["/Users/a"])
  {
    var w := "~a";
    assert w[1] == 'a' && !EndsName('a') && NameEnd(w) == 2 && w[1..2] == "a" && w[2..] == "";
    assert w[0] !in SPECIAL && w[1] !in SPECIAL;
    assert !Quoted(w);
    LineOne(w);
    FeedWord(env, w, []);
    assert "/Users/a" + w[2..] == "/Users/a";
    FedIsRead(env, w, "/Users/a");
  }

  /** A plain word that is fed as another is read as that one. */
  lemma FedIsRead(env: Env, w: string, word: string)
    requires Plain(w) && word != "" && Feed(env, w, START) == Some(Put(START, word))
    ensures Parse(env, w, START) == Some([word])
  {
    FeedRead(env, w, "", START);
    assert w + "" == w;
    var r := Put(START, word);
    assert r == Reader([], word, true, false, false);
    assert Ended(r).words == [word];
  }

  lemma LineOne(w: string)
    requires !Quoted(w)
    ensures Line([w]) == w
  {
  }
}
