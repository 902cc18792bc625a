/** The placeholder translator: SQLite's `?` becomes `%s`, except inside quotes,
    comments and dollar-quoted bodies. */
module SqlTranslator {
  import opened Wrappers

  /** What the scanner is inside of. */
  datatype Mode =
    | Code
    | LineComment
    | BlockComment
    | Quote(mark: char)
    | Dollar(tag: string)

  predicate IsIdentStart(c: char) {
    'A' <= c <= 'Z' || 'a' <= c <= 'z' || c == '_'
  }

  predicate IsIdent(c: char) {
    IsIdentStart(c) || '0' <= c <= '9'
  }

  function IdentRun(s: string): (n: nat)
    ensures n <= |s|
    ensures forall i :: 0 <= i < n ==> IsIdent(s[i])
    ensures n < |s| ==> !IsIdent(s[n])
  {
    if s != [] && IsIdent(s[0]) then 1 + IdentRun(s[1..]) else 0
  }

  /** Length of the dollar tag ($$ or $name$) at the start of s, or 0. */
  function TagLength(s: string): (n: nat)
    ensures n <= |s|
    ensures n > 0 ==> n >= 2 && s[0] == '$' && s[n - 1] == '$' && forall i :: 0 < i < n - 1 ==> IsIdent(s[i])
  {
    if s == [] || s[0] != '$' then 0
    else
      var k := IdentRun(s[1..]);
      if 1 + k < |s| && s[1 + k] == '$' && (k == 0 || IsIdentStart(s[1])) then k + 2 else 0
  }

  predicate StartsWith(s: string, p: string) {
    |p| <= |s| && s[..|p|] == p
  }

  predicate StartsTwo(s: string, a: char, b: char) {
    |s| >= 2 && s[0] == a && s[1] == b
  }

  /** The modes the scanner can be in: a quote mark is ' or ", and a tag has both its dollars. */
  predicate ModeOk(m: Mode) {
    (m.Dollar? ==> |m.tag| >= 2) && (m.Quote? ==> m.mark == '\'' || m.mark == '"')
  }

  /** The next lexeme at the start of s: its length and the mode after it. */
  function Advance(m: Mode, s: string): (r: (nat, Mode))
    requires s != [] && ModeOk(m)
    ensures 1 <= r.0 <= |s| && ModeOk(r.1)
  {
    match m
    case LineComment => (1, if s[0] == '\r' || s[0] == '\n' then Code else LineComment)
    case BlockComment => if StartsTwo(s, '*', '/') then (2, Code) else (1, BlockComment)
    case Dollar(tag) => if StartsWith(s, tag) then (|tag|, Code) else (1, m)
    case Quote(mark) =>
      if s[0] == mark then if StartsTwo(s, mark, mark) then (2, m) else (1, Code)
      else if s[0] == '\\' && |s| >= 2 then (2, m)
      else (1, m)
    case Code =>
      if StartsTwo(s, '-', '-') then (2, LineComment)
      else if StartsTwo(s, '/', '*') then (2, BlockComment)
      else if s[0] == '\'' || s[0] == '"' then (1, Quote(s[0]))
      else if TagLength(s) > 0 then (TagLength(s), Dollar(s[..TagLength(s)]))
      else (1, Code)
  }

  /** A piece of the statement and the mode it was read in. */
  datatype Lexeme = Lexeme(mode: Mode, text: string)

  function Lex(m: Mode, s: string): seq<Lexeme>
    requires ModeOk(m)
    decreases |s|
  {
    if s == [] then []
    else
      var (n, next) := Advance(m, s);
      [Lexeme(m, s[..n])] + Lex(next, s[n..])
  }

  function Text(lexemes: seq<Lexeme>): string {
    if lexemes == [] then [] else lexemes[0].text + Text(lexemes[1..])
  }

  /** The scanner loses nothing: its lexemes spell the statement. */
  lemma {:induction false} LexCovers(m: Mode, s: string)
    requires ModeOk(m)
    ensures Text(Lex(m, s)) == s
    decreases |s|
  {
    if s != [] {
      var (n, next) := Advance(m, s);
      LexCovers(next, s[n..]);
      assert Lex(m, s)[1..] == Lex(next, s[n..]);
      assert s == s[..n] + s[n..];
    }
  }

  predicate IsPlaceholder(l: Lexeme) {
    l.mode == Code && l.text == "?"
  }

  /** The lexemes of the translated statement: each top-level `?` makes way for `%` and `s`. */
  function Expand(lexemes: seq<Lexeme>): seq<Lexeme> {
    if lexemes == [] then []
    else (if IsPlaceholder(lexemes[0]) then [Lexeme(Code, "%"), Lexeme(Code, "s")]
      else [lexemes[0]]) + Expand(lexemes[1..])
  }

  /** What the translator writes for the rest s of a statement when it is in mode m. */
  function Out(m: Mode, s: string): string
    requires ModeOk(m)
  {
    Text(Expand(Lex(m, s)))
  }

  lemma Associative(a: string, b: string, c: string)
    ensures (a + b) + c == a + (b + c)
  {
  }

  lemma TextCons(l: Lexeme, rest: seq<Lexeme>)
    ensures Text([l] + rest) == l.text + Text(rest)
  {
    assert ([l] + rest)[1..] == rest;
  }

  lemma {:induction false} TextAppend(a: seq<Lexeme>, b: seq<Lexeme>)
    ensures Text(a + b) == Text(a) + Text(b)
  {
    if a == [] {
      assert a + b == b;
    } else {
      var l, rest := a[0], a[1..];
      TextAppend(rest, b);
      TextCons(l, rest);
      TextCons(l, rest + b);
      assert a == [l] + rest && a + b == [l] + (rest + b);
      Associative(l.text, Text(rest), Text(b));
    }
  }

  predicate Replaced(m: Mode, piece: string) {
    m == Code && piece == "?"
  }

  lemma OutStep(m: Mode, s: string)
    requires ModeOk(m) && s != []
    ensures var (n, next) := Advance(m, s);
            Out(m, s) == (if Replaced(m, s[..n]) then "%s" else s[..n]) + Out(next, s[n..])
  {
    var (n, next) := Advance(m, s);
    var rest := Lex(next, s[n..]);
    assert Lex(m, s)[1..] == rest;
    if Replaced(m, s[..n]) {
      var both := [Lexeme(Code, "%"), Lexeme(Code, "s")];
      TextAppend(both, Expand(rest));
      assert Text(both) == "%s" by {
        assert both[1..] == [Lexeme(Code, "s")];
        assert "%s" == "%" + ("s" + "");
      }
    } else {
      TextAppend([Lexeme(m, s[..n])], Expand(rest));
    }
  }

  // ---------- what the replaced text cannot disturb ----------

  /** The output starts like the input, except that a top-level `?` became `%`. */
  lemma OutHead(m: Mode, s: string)
    requires ModeOk(m)
    ensures (Out(m, s) == []) <==> (s == [])
    ensures s != [] ==> Out(m, s)[0] == if m == Code && s[0] == '?' then '%' else s[0]
  {
    if s != [] {
      OutStep(m, s);
      var n := Advance(m, s).0;
      assert s[..n][0] == s[0];
      assert s[..1] == [s[0]];
    }
  }

  /** Same leading identifier, and the same answer to whether a `$` follows it. */
  predicate SameRun(o: string, s: string) {
    var k := IdentRun(s);
    IdentRun(o) == k && o[..k] == s[..k] && (k < |o| && o[k] == '$' <==> k < |s| && s[k] == '$')
  }

  lemma ConsSameRun(c: char, o: string, s: string)
    requires IsIdent(c) && SameRun(o, s)
    ensures SameRun([c] + o, [c] + s)
  {
    var k := IdentRun(s);
    assert ([c] + o)[1..] == o && ([c] + s)[1..] == s;
    assert ([c] + o)[..k + 1] == [c] + o[..k] && ([c] + s)[..k + 1] == [c] + s[..k];
  }

  lemma {:induction false} OutSameRun(s: string)
    ensures SameRun(Out(Code, s), s)
    decreases |s|
  {
    OutHead(Code, s);
    if s != [] && IsIdent(s[0]) {
      assert Advance(Code, s) == (1, Code);
      OutStep(Code, s);
      OutSameRun(s[1..]);
      ConsSameRun(s[0], Out(Code, s[1..]), s[1..]);
      assert s[..1] == [s[0]] && s == [s[0]] + s[1..];
    }
  }

  /** o and s are the same text, as far as a tag of length n can look. */
  predicate AgreeUpTo(n: nat, o: string, s: string) {
    if |s| <= n then o == s else |o| >= n && o[..n] == s[..n]
  }

  lemma ConsAgree(c: char, n: nat, o: string, s: string)
    requires n >= 1 && AgreeUpTo(n, o, s)
    ensures AgreeUpTo(n, [c] + o, [c] + s)
  {
    if |s| > n {
      assert ([c] + o)[..n] == [c] + o[..n][..n - 1];
      assert ([c] + s)[..n] == [c] + s[..n][..n - 1];
    }
  }

  lemma OutDollarEnd(tag: string, s: string)
    requires |tag| >= 2 && StartsWith(s, tag)
    ensures AgreeUpTo(|tag|, Out(Dollar(tag), s), s)
  {
    var n := |tag|;
    OutStep(Dollar(tag), s);
    OutHead(Code, s[n..]);
    var rest := Out(Code, s[n..]);
    assert Out(Dollar(tag), s) == s[..n] + rest;
    if |s| == n {
      assert s[..n] == s && rest == [];
    } else {
      assert (s[..n] + rest)[..n] == s[..n];
    }
  }

  lemma OutDollarOne(tag: string, s: string)
    requires |tag| >= 2 && s != [] && !StartsWith(s, tag)
    ensures Out(Dollar(tag), s) == [s[0]] + Out(Dollar(tag), s[1..])
  {
    OutStep(Dollar(tag), s);
    assert s[..1] == [s[0]];
  }

  /** A dollar body comes out unchanged, so its closing tag does not appear early. */
  lemma {:induction false} OutDollarBody(tag: string, s: string)
    requires |tag| >= 2
    ensures AgreeUpTo(|tag|, Out(Dollar(tag), s), s)
    decreases |s|
  {
    if s != [] {
      if StartsWith(s, tag) {
        OutDollarEnd(tag, s);
      } else {
        OutDollarBody(tag, s[1..]);
        OutDollarOne(tag, s);
        ConsAgree(s[0], |tag|, Out(Dollar(tag), s[1..]), s[1..]);
        assert s == [s[0]] + s[1..];
      }
    }
  }

  // ---------- the simulation ----------

  /** One lexeme of the input, seen in the output: the scanner takes the same piece and enters
      the same mode, unless the piece is a placeholder, which it reads as two ordinary ones. */
  lemma SameAdvance(m: Mode, s: string)
    requires ModeOk(m) && s != []
    ensures var (n, next) := Advance(m, s);
            var o := Out(m, s);
            && o != []
            && (!Replaced(m, s[..n]) ==> Advance(m, o) == (n, next) && o[..n] == s[..n] && o[n..] == Out(next, s[n..]))
            && (Replaced(m, s[..n]) ==> n == 1 && next == Code && o == "%s" + Out(Code, s[1..]))
  {
    var (n, next) := Advance(m, s);
    OutStep(m, s);
    OutHead(next, s[n..]);
    OutHead(m, s);
    var o := Out(m, s);
    if !Replaced(m, s[..n]) {
      assert o == s[..n] + Out(next, s[n..]);
      assert o[..n] == s[..n] && o[n..] == Out(next, s[n..]);
      match m
      case LineComment =>
      case BlockComment =>
      case Quote(mark) =>
      case Dollar(tag) =>
        OutDollarBody(tag, s);
      case Code =>
        SameCodeAdvance(s);
    }
  }

  lemma {:induction false} RunOfPrefix(o: string, s: string, k: nat)
    requires IdentRun(s) == k < |s| && k < |o| && o[..k + 1] == s[..k + 1]
    ensures IdentRun(o) == k
    decreases k
  {
    assert o[0] == o[..k + 1][0] && s[0] == s[..k + 1][0];
    if k > 0 {
      assert o[1..][..k] == o[..k + 1][1..] && s[1..][..k] == s[..k + 1][1..];
      RunOfPrefix(o[1..], s[1..], k - 1);
    }
  }

  /** A tag is recognised from its own characters alone. */
  lemma TagOfPrefix(o: string, s: string)
    requires var k := TagLength(s); k > 0 && |o| >= k && o[..k] == s[..k]
    ensures TagLength(o) == TagLength(s)
  {
    var k := TagLength(s);
    assert forall i :: 0 <= i < k ==> o[i] == o[..k][i] && s[i] == s[..k][i];
    assert o[1..][..k - 1] == o[..k][1..] && s[1..][..k - 1] == s[..k][1..];
    RunOfPrefix(o[1..], s[1..], k - 2);
  }

  lemma SameCodeAdvance(s: string)
    requires s != [] && s[0] != '?'
    ensures Out(Code, s) != [] && Advance(Code, Out(Code, s)) == Advance(Code, s)
  {
    var (n, next) := Advance(Code, s);
    if next == Code {
      OrdinaryStays(s);
    } else {
      OpenerStays(s);
    }
  }

  /** Whatever opens a region is copied, and opens it again. */
  lemma OpenerStays(s: string)
    requires s != [] && Advance(Code, s).1 != Code
    ensures Out(Code, s) != [] && Advance(Code, Out(Code, s)) == Advance(Code, s)
  {
    var (n, next) := Advance(Code, s);
    OutStep(Code, s);
    CopiedFront(Out(Code, s), s[..n], Out(next, s[n..]));
    SameOpener(Out(Code, s), s, n);
  }

  lemma CopiedFront(o: string, front: string, rest: string)
    requires o == front + rest
    ensures |o| >= |front| && o[..|front|] == front
  {
  }

  lemma SameOpener(o: string, s: string, n: nat)
    requires s != [] && Advance(Code, s).0 == n && Advance(Code, s).1 != Code
    requires |o| >= n && o[..n] == s[..n]
    ensures o != [] && Advance(Code, o) == Advance(Code, s)
  {
    if Advance(Code, s).1.Dollar? {
      TagOfPrefix(o, s);
      SameStart(o, s, n);
    } else {
      SameStart(o, s, n);
    }
  }

  lemma SameStart(o: string, s: string, n: nat)
    requires 1 <= n && n <= |o| && n <= |s| && o[..n] == s[..n]
    ensures o[0] == s[0] && (n >= 2 ==> o[1] == s[1])
  {
    assert o[0] == o[..n][0] && s[0] == s[..n][0];
    assert n >= 2 ==> o[1] == o[..n][1] && s[1] == s[..n][1];
  }

  /** An ordinary character does not start anything in the output either. */
  lemma OrdinaryStays(s: string)
    requires s != [] && s[0] != '?' && Advance(Code, s) == (1, Code)
    ensures Out(Code, s) != [] && Advance(Code, Out(Code, s)) == (1, Code)
  {
    var o := Out(Code, s);
    OutStep(Code, s);
    OutHead(Code, s);
    assert s[..1] == [s[0]] && o == [s[0]] + Out(Code, s[1..]);
    assert o[1..] == Out(Code, s[1..]);
    OutHead(Code, s[1..]);
    NoTagAppears(o, s);
  }

  lemma NoTagAppears(o: string, s: string)
    requires s != [] && TagLength(s) == 0
    requires o != [] && o[0] == s[0] && o[1..] == Out(Code, s[1..])
    ensures TagLength(o) == 0
  {
    OutSameRun(s[1..]);
    var k := IdentRun(s[1..]);
    if k > 0 {
      assert o[1..][0] == o[1..][..k][0] && s[1..][0] == s[1..][..k][0];
    }
  }

  /** Scanning the translated statement visits the same lexemes in the same modes as scanning
      the original, except that each top-level `?` is read as `%` and `s`: quotes, comments and
      dollar bodies are the same regions with the same text. */
  lemma {:induction false} Simulation(m: Mode, s: string)
    requires ModeOk(m)
    ensures Lex(m, Out(m, s)) == Expand(Lex(m, s))
    decreases |s|
  {
    if s != [] {
      var (n, next) := Advance(m, s);
      SameAdvance(m, s);
      Simulation(next, s[n..]);
      assert Lex(m, s)[1..] == Lex(next, s[n..]);
      var o := Out(m, s);
      if Replaced(m, s[..n]) {
        LexReplaced(Out(Code, s[1..]));
      }
    }
  }

  lemma LexReplaced(rest: string)
    ensures Lex(Code, "%s" + rest) == [Lexeme(Code, "%"), Lexeme(Code, "s")] + Lex(Code, rest)
  {
    var o, tail := "%s" + rest, "s" + rest;
    assert o[1..] == tail && tail[1..] == rest;
    assert o[..1] == "%" && tail[..1] == "s";
    assert Advance(Code, o) == (1, Code) && Advance(Code, tail) == (1, Code);
  }

  // ---------- what the translation means ----------

  function Translation(s: string): string {
    Out(Code, s)
  }

  /** The lexemes inside quotes, comments and dollar bodies. */
  function Regions(lexemes: seq<Lexeme>): seq<Lexeme> {
    if lexemes == [] then []
    else (if lexemes[0].mode == Code then [] else [lexemes[0]]) + Regions(lexemes[1..])
  }

  function Placeholders(lexemes: seq<Lexeme>): nat {
    if lexemes == [] then 0 else (if IsPlaceholder(lexemes[0]) then 1 else 0) + Placeholders(lexemes[1..])
  }

  lemma {:induction false} ExpandFacts(ls: seq<Lexeme>)
    ensures Regions(Expand(ls)) == Regions(ls)
    ensures Placeholders(Expand(ls)) == 0
    ensures Expand(Expand(ls)) == Expand(ls)
    ensures |Text(Expand(ls))| == |Text(ls)| + Placeholders(ls)
  {
    if ls != [] {
      ExpandFacts(ls[1..]);
      var rest := Expand(ls[1..]);
      if IsPlaceholder(ls[0]) {
        var p, q := Lexeme(Code, "%"), Lexeme(Code, "s");
        assert Expand(ls) == [p] + ([q] + rest);
        assert Expand(ls)[1..] == [q] + rest && ([q] + rest)[1..] == rest;
      } else {
        assert Expand(ls)[1..] == rest;
      }
    }
  }

  /** Exactly the top-level placeholders are replaced, every protected region keeps its text
      and its place, and a second translation changes nothing. */
  lemma TranslationIsExact(s: string)
    ensures Text(Lex(Code, s)) == s
    ensures Lex(Code, Translation(s)) == Expand(Lex(Code, s))
    ensures Regions(Lex(Code, Translation(s))) == Regions(Lex(Code, s))
    ensures Placeholders(Lex(Code, Translation(s))) == 0
    ensures |Translation(s)| == |s| + Placeholders(Lex(Code, s))
    ensures Translation(Translation(s)) == Translation(s)
  {
    LexCovers(Code, s);
    Simulation(Code, s);
    ExpandFacts(Lex(Code, s));
  }

  // ---------- the loop ----------

  /** What one turn of the loop appends. */
  function Emit(m: Mode, rest: string): string
    requires ModeOk(m) && rest != []
  {
    var n := Advance(m, rest).0;
    if Replaced(m, rest[..n]) then "%s" else rest[..n]
  }

  /** The two characters the scanner looks at. */
  lemma Window(statement: string, index: nat)
    requires index < |statement|
    ensures var rest := statement[index..];
            && rest != [] && rest[0] == statement[index] && rest[..1] == [statement[index]]
            && |rest| == |statement| - index
            && (index + 1 < |statement| ==>
                  rest[1] == statement[index + 1] && rest[..2] == [statement[index], statement[index + 1]])
  {
  }

  /** The scanner's five variables, and what one turn of the loop appends and consumes. */
  datatype Scan = Scan(quote: Option<char>, dollarTag: Option<string>, lineComment: bool, blockComment: bool)

  const TOP := Scan(None, None, false, false)

  /** The variables stand for exactly one mode. */
  predicate Reads(v: Scan, m: Mode) {
    && (v.lineComment <==> m == LineComment)
    && (v.blockComment <==> m == BlockComment)
    && (v.dollarTag == if m.Dollar? then Some(m.tag) else None)
    && (v.quote == if m.Quote? then Some(m.mark) else None)
  }

  predicate IsTurn(m: Mode, rest: string, v: Scan, piece: string, width: nat)
    requires ModeOk(m) && rest != []
  {
    var (n, next) := Advance(m, rest);
    width == n && Reads(v, next) && piece == Emit(m, rest)
  }

  function Following(statement: string, index: nat): Option<char> {
    if index + 1 < |statement| then Some(statement[index + 1]) else None
  }

  /** A turn inside a comment, a dollar body or a quote. */
  method ProtectedTurn(statement: string, index: nat, v: Scan, ghost m: Mode)
    returns (after: Scan, piece: string, width: nat)
    requires index < |statement| && ModeOk(m) && m != Code && Reads(v, m)
    ensures IsTurn(m, statement[index..], after, piece, width)
  {
    var c, following := statement[index], Following(statement, index);
    Window(statement, index);
    after, piece, width := v, [c], 1;
    if v.lineComment {
      if c == '\r' || c == '\n' {
        after := TOP;
      }
    } else if v.blockComment {
      if c == '*' && following == Some('/') {
        after, piece, width := TOP, [c, '/'], 2;
      }
    } else if v.dollarTag.Some? {
      var tag := v.dollarTag.value;
      if index + |tag| <= |statement| && statement[index..index + |tag|] == tag {
        assert statement[index..][..|tag|] == tag;
        after, piece, width := TOP, tag, |tag|;
      } else if |tag| <= |statement[index..]| {
        assert statement[index..][..|tag|] == statement[index..index + |tag|];
      }
    } else if c == v.quote.value {
      if following == v.quote {
        piece, width := [c, c], 2;
      } else {
        after := TOP;
      }
    } else if c == '\\' && following.Some? {
      piece, width := [c, following.value], 2;
    }
  }

  /** A turn at the top level. */
  method TopLevelTurn(statement: string, index: nat) returns (after: Scan, piece: string, width: nat)
    requires index < |statement|
    ensures IsTurn(Code, statement[index..], after, piece, width)
  {
    var c, following := statement[index], Following(statement, index);
    Window(statement, index);
    after, piece, width := TOP, [c], 1;
    if c == '-' && following == Some('-') {
      after, piece, width := TOP.(lineComment := true), [c, '-'], 2;
    } else if c == '/' && following == Some('*') {
      after, piece, width := TOP.(blockComment := true), [c, '*'], 2;
    } else if c == '\'' || c == '"' {
      after := TOP.(quote := Some(c));
    } else if c == '$' && TagLength(statement[index..]) > 0 {
      width := TagLength(statement[index..]);
      piece := statement[index..][..width];
      after := TOP.(dollarTag := Some(piece));
    } else if c == '?' {
      piece := "%s";
    }
  }

  /** Whatever the turn, what it appends and what is left to do make up the translation. */
  lemma TurnIsExact(statement: string, index: nat, m: Mode, v: Scan, piece: string, width: nat) returns (next: Mode)
    requires index < |statement| && ModeOk(m) && IsTurn(m, statement[index..], v, piece, width)
    ensures 1 <= width <= |statement| - index && ModeOk(next) && Reads(v, next)
    ensures Out(m, statement[index..]) == piece + Out(next, statement[index + width..])
  {
    var rest := statement[index..];
    OutStep(m, rest);
    next := Advance(m, rest).1;
    assert rest[width..] == statement[index + width..];
  }

  /** What is written, followed by the translation of what is left. */
  ghost function Completed(statement: string, index: nat, m: Mode, out: string): string
    requires index <= |statement| && ModeOk(m)
  {
    out + Out(m, statement[index..])
  }

  lemma Begin(statement: string)
    ensures Completed(statement, 0, Code, "") == Translation(statement)
  {
    assert statement[0..] == statement;
  }

  lemma Proceed(statement: string, index: nat, m: Mode, out: string, piece: string, width: nat, next: Mode)
    requires index + width <= |statement| && ModeOk(m) && ModeOk(next)
    requires Out(m, statement[index..]) == piece + Out(next, statement[index + width..])
    ensures Completed(statement, index + width, next, out + piece) == Completed(statement, index, m, out)
  {
    Associative(out, piece, Out(next, statement[index + width..]));
  }

  lemma Finish(statement: string, m: Mode, out: string)
    requires ModeOk(m)
    ensures Completed(statement, |statement|, m, out) == out
  {
    OutHead(m, statement[|statement|..]);
  }

  /** One turn of the loop: something is consumed, and the completed translation stays the same. */
  method OneTurn(statement: string, index: nat, v: Scan, out: string, ghost m: Mode)
    returns (after: Scan, end: nat, written: string, ghost next: Mode)
    requires index < |statement| && ModeOk(m) && Reads(v, m)
    ensures index < end <= |statement| && ModeOk(next) && Reads(after, next)
    ensures Completed(statement, end, next, written) == Completed(statement, index, m, out)
  {
    var piece, width;
    if v == TOP {
      after, piece, width := TopLevelTurn(statement, index);
    } else {
      after, piece, width := ProtectedTurn(statement, index, v, m);
    }
    next := TurnIsExact(statement, index, m, after, piece, width);
    Proceed(statement, index, m, out, piece, width, next);
    end, written := index + width, out + piece;
  }

  method TranslateQmarkSql(statement: string) returns (out: string)
    ensures out == Translation(statement)
  {
    out := "";
    var index, v := 0, TOP;
    ghost var m := Code;
    Begin(statement);
    while index < |statement|
      invariant 0 <= index <= |statement|
      invariant ModeOk(m) && Reads(v, m) && Completed(statement, index, m, out) == Translation(statement)
      decreases |statement| - index
    {
      v, index, out, m := OneTurn(statement, index, v, out, m);
    }
    Finish(statement, m, out);
  }
}
