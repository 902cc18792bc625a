/** What the translation does to a statement, told on its text: which characters begin and end a quote,
    a comment or a dollar body, and what happens outside and inside of them. */
module SqlTexts {
  import opened SqlTranslator

  /** Every ? becomes %s, everything else stays. */
  function Replace(s: string): string {
    if s == "" then ""
    else if s[0] == '?' then "%s" + Replace(s[1..])
    else [s[0]] + Replace(s[1..])
  }

  /** A dollar tag: $$ or $name$. */
  predicate IsTag(tag: string) {
    && |tag| >= 2 && tag[0] == '$' && tag[|tag| - 1] == '$'
    && (forall i :: 0 < i < |tag| - 1 ==> IsIdent(tag[i]))
    && (|tag| > 2 ==> IsIdentStart(tag[1]))
  }

  /** No region begins at the start of s. */
  ghost predicate Ordinary(s: string)
    requires s != ""
  {
    && s[0] != '\'' && s[0] != '"'
    && !StartsTwo(s, '-', '-') && !StartsTwo(s, '/', '*')
    && (forall tag :: IsTag(tag) ==> !StartsWith(s, tag))
  }

  /** In a + rest, no region begins within a. */
  ghost predicate Plain(a: string, rest: string) {
    forall i :: 0 <= i < |a| ==> Ordinary(a[i..] + rest)
  }

  // ---------- dollar tags ----------

  lemma {:induction false} RunIs(s: string, n: nat)
    requires n <= |s| && (forall i :: 0 <= i < n ==> IsIdent(s[i])) && (n < |s| ==> !IsIdent(s[n]))
    ensures IdentRun(s) == n
  {
    if n > 0 {
      RunIs(s[1..], n - 1);
    }
  }

  /** A tag at the start of s is what the scanner takes. */
  lemma TagIsTaken(s: string, tag: string)
    requires IsTag(tag) && StartsWith(s, tag)
    ensures TagLength(s) == |tag|
  {
    var n := |tag|;
    forall i | 0 <= i < n
      ensures s[i] == tag[i]
    {
      assert s[..n][i] == tag[i];
    }
    RunIs(s[1..], n - 2);
  }

  lemma TakenIsTag(s: string)
    requires TagLength(s) > 0
    ensures IsTag(s[..TagLength(s)]) && StartsWith(s, s[..TagLength(s)])
  {
  }

  // ---------- outside of regions ----------

  lemma OrdinaryAdvance(s: string)
    requires s != "" && Ordinary(s)
    ensures Advance(Code, s) == (1, Code)
  {
    if TagLength(s) > 0 {
      TakenIsTag(s);
    }
  }

  lemma OrdinaryStep(c: char, rest: string)
    requires Ordinary([c] + rest)
    ensures Translation([c] + rest) == (if c == '?' then "%s" else [c]) + Translation(rest)
  {
    var s := [c] + rest;
    OrdinaryAdvance(s);
    OutStep(Code, s);
    assert s[..1] == [c] && s[1..] == rest;
    assert [c] == "?" <==> c == '?';
  }

  lemma ReplaceFront(c: char, tail: string)
    ensures Replace([c] + tail) == (if c == '?' then "%s" else [c]) + Replace(tail)
  {
    assert ([c] + tail)[1..] == tail;
  }

  lemma PlainTail(a: string, rest: string)
    requires a != "" && Plain(a, rest)
    ensures Plain(a[1..], rest) && Ordinary([a[0]] + (a[1..] + rest))
  {
    forall i | 0 <= i < |a| - 1
      ensures Ordinary(a[1..][i..] + rest)
    {
      assert a[1..][i..] == a[i + 1..];
    }
    assert a[0..] + rest == [a[0]] + (a[1..] + rest);
  }

  lemma OneMore(c: char, tail: string, rest: string)
    requires Ordinary([c] + (tail + rest))
    requires Translation(tail + rest) == Replace(tail) + Translation(rest)
    ensures Translation([c] + (tail + rest)) == Replace([c] + tail) + Translation(rest)
  {
    OrdinaryStep(c, tail + rest);
    ReplaceFront(c, tail);
    Associative(if c == '?' then "%s" else [c], Replace(tail), Translation(rest));
  }

  lemma Regroup(a: string, rest: string)
    requires a != ""
    ensures a == [a[0]] + a[1..] && a + rest == [a[0]] + (a[1..] + rest)
  {
  }

  /** Up to the first region every ? is replaced, and the rest is translated by itself. */
  lemma {:induction false} PlainPrefix(a: string, rest: string)
    requires Plain(a, rest)
    ensures Translation(a + rest) == Replace(a) + Translation(rest)
  {
    if a == "" {
      assert a + rest == rest;
    } else {
      var c, tail := a[0], a[1..];
      Regroup(a, rest);
      assert Translation(a + rest) == Replace(a) + Translation(rest) by {
        assert Plain(tail, rest) && Ordinary([c] + (tail + rest)) by { PlainTail(a, rest); }
        PlainPrefix(tail, rest);
        OneMore(c, tail, rest);
      }
    }
  }

  lemma FirstOfTag(s: string, tag: string)
    requires IsTag(tag) && StartsWith(s, tag)
    ensures s[0] == '$'
  {
    assert s[..|tag|][0] == tag[0];
  }

  /** A text without quotes, dollars, dashes and slashes is plain whatever follows. */
  lemma SimpleIsPlain(a: string, rest: string)
    requires forall c :: c in a ==> c !in {'\'', '"', '$', '-', '/'}
    ensures Plain(a, rest)
  {
    forall i | 0 <= i < |a|
      ensures Ordinary(a[i..] + rest)
    {
      var s := a[i..] + rest;
      assert s[0] == a[i] && a[i] in a;
      forall tag | IsTag(tag)
        ensures !StartsWith(s, tag)
      {
        if StartsWith(s, tag) {
          FirstOfTag(s, tag);
        }
      }
    }
  }

  // ---------- inside of regions ----------

  /** The piece is written unchanged, and the scanner goes on with the rest in mode next. */
  predicate Copies(m: Mode, piece: string, next: Mode, rest: string) {
    ModeOk(m) && ModeOk(next) && Out(m, piece + rest) == piece + Out(next, rest)
  }

  lemma CopyOne(m: Mode, piece: string, next: Mode, rest: string)
    requires ModeOk(m) && piece != "" && Advance(m, piece + rest) == (|piece|, next) && !Replaced(m, piece)
    ensures Copies(m, piece, next, rest)
  {
    var s := piece + rest;
    assert s[..|piece|] == piece && s[|piece|..] == rest;
    OutStep(m, s);
  }

  lemma CopyBoth(m: Mode, a: string, mid: Mode, b: string, next: Mode, rest: string)
    requires Copies(m, a, mid, b + rest) && Copies(mid, b, next, rest)
    ensures Copies(m, a + b, next, rest)
  {
    Associative(a, b, rest);
    Associative(a, b, Out(next, rest));
  }

  /** Character by character, the scanner stays in the region. */
  ghost predicate Stays(m: Mode, body: string, rest: string)
    requires ModeOk(m)
  {
    forall i :: 0 <= i < |body| ==> Advance(m, body[i..] + rest) == (1, m)
  }

  lemma {:induction false} StayCopies(m: Mode, body: string, rest: string)
    requires ModeOk(m) && m != Code && Stays(m, body, rest)
    ensures Copies(m, body, m, rest)
  {
    if body == "" {
      assert body + rest == rest;
    } else {
      var c, tail := [body[0]], body[1..];
      assert body[0..] + rest == c + (tail + rest);
      StaysTail(m, body, rest);
      StayCopies(m, tail, rest);
      CopyOne(m, c, m, tail + rest);
      CopyBoth(m, c, m, tail, m, rest);
      assert body == c + tail;
    }
  }

  lemma StaysTail(m: Mode, body: string, rest: string)
    requires ModeOk(m) && body != "" && Stays(m, body, rest)
    ensures Stays(m, body[1..], rest)
  {
    forall i | 0 <= i < |body| - 1
      ensures Advance(m, body[1..][i..] + rest) == (1, m)
    {
      assert body[1..][i..] == body[i + 1..];
    }
  }

  /** Opener, body and closer of a region. */
  lemma RegionCopies(open: string, m: Mode, body: string, close: string, b: string)
    requires ModeOk(m) && open != "" && open != "?" && close != "" && m != Code
    requires Advance(Code, open + (body + (close + b))) == (|open|, m)
    requires Copies(m, body, m, close + b)
    requires Advance(m, close + b) == (|close|, Code)
    ensures Translation((open + body + close) + b) == (open + body + close) + Translation(b)
  {
    CopyOne(Code, open, m, body + (close + b));
    CopyBoth(Code, open, m, body, m, close + b);
    CopyOne(m, close, Code, b);
    CopyBoth(Code, open + body, m, close, Code, b);
  }

  /** A region that is never closed. */
  lemma OpenRegionCopies(open: string, m: Mode, body: string)
    requires ModeOk(m) && open != "" && open != "?"
    requires Advance(Code, open + body) == (|open|, m) && Copies(m, body, m, "")
    ensures Translation(open + body) == open + body
  {
    assert body + "" == body;
    CopyOne(Code, open, m, body);
    assert Out(m, "") == "";
  }

  // ---------- quotes ----------

  predicate IsMark(c: char) {
    c == '\'' || c == '"'
  }

  /** The inside of a quote: the mark only doubled, a backslash only before another character. */
  predicate QuoteBody(mark: char, body: string) {
    if body == "" then true
    else if body[0] == mark || body[0] == '\\' then
      |body| >= 2 && (body[0] == mark ==> body[1] == mark) && QuoteBody(mark, body[2..])
    else QuoteBody(mark, body[1..])
  }

  lemma QuoteAdvance(mark: char, s: string)
    requires IsMark(mark) && s != ""
    ensures Advance(Quote(mark), s) ==
              if s[0] == mark && !(|s| >= 2 && s[1] == mark) then (1, Code)
              else if (s[0] == mark || s[0] == '\\') && |s| >= 2 then (2, Quote(mark))
              else (1, Quote(mark))
  {
  }

  lemma {:induction false} QuoteBodyCopies(mark: char, body: string, rest: string)
    requires IsMark(mark) && QuoteBody(mark, body)
    ensures Copies(Quote(mark), body, Quote(mark), rest)
    decreases |body|
  {
    var m := Quote(mark);
    if body == "" {
      assert body + rest == rest;
    } else {
      var n := if body[0] == mark || body[0] == '\\' then 2 else 1;
      var piece, tail := body[..n], body[n..];
      assert body == piece + tail && body + rest == piece + (tail + rest);
      QuoteAdvance(mark, body + rest);
      QuoteBodyCopies(mark, tail, rest);
      CopyOne(m, piece, m, tail + rest);
      CopyBoth(m, piece, m, tail, m, rest);
    }
  }

  lemma MarkOpens(mark: char, s: string)
    requires IsMark(mark)
    ensures Advance(Code, [mark] + s) == (1, Quote(mark))
  {
  }

  /** A closed quote is copied, and the statement goes on after it. */
  lemma QuoteCopies(mark: char, body: string, b: string)
    requires IsMark(mark) && QuoteBody(mark, body) && (b != "" ==> b[0] != mark)
    ensures Translation(([mark] + body + [mark]) + b) == ([mark] + body + [mark]) + Translation(b)
  {
    MarkOpens(mark, body + ([mark] + b));
    QuoteBodyCopies(mark, body, [mark] + b);
    QuoteAdvance(mark, [mark] + b);
    RegionCopies([mark], Quote(mark), body, [mark], b);
  }

  /** The inside of a quote that is never closed may end in a single backslash. */
  predicate OpenBody(mark: char, body: string) {
    QuoteBody(mark, body)
    || (body != "" && body[|body| - 1] == '\\' && QuoteBody(mark, body[..|body| - 1]))
  }

  lemma OpenQuoteCopies(mark: char, body: string)
    requires IsMark(mark) && OpenBody(mark, body)
    ensures Translation([mark] + body) == [mark] + body
  {
    var m := Quote(mark);
    MarkOpens(mark, body);
    if QuoteBody(mark, body) {
      QuoteBodyCopies(mark, body, "");
    } else {
      var front := body[..|body| - 1];
      assert body == front + "\\" && "\\" + "" == "\\";
      QuoteBodyCopies(mark, front, "\\");
      QuoteAdvance(mark, "\\");
      CopyOne(m, "\\", m, "");
      CopyBoth(m, front, m, "\\", m, "");
    }
    OpenRegionCopies([mark], m, body);
  }

  // ---------- comments ----------

  predicate IsLineEnd(c: char) {
    c == '\r' || c == '\n'
  }

  predicate LineBody(body: string) {
    forall c :: c in body ==> !IsLineEnd(c)
  }

  lemma LineBodyCopies(body: string, rest: string)
    requires LineBody(body)
    ensures Copies(LineComment, body, LineComment, rest)
  {
    forall i | 0 <= i < |body|
      ensures Advance(LineComment, body[i..] + rest) == (1, LineComment)
    {
      assert body[i] in body && (body[i..] + rest)[0] == body[i];
    }
    StayCopies(LineComment, body, rest);
  }

  lemma LineOpens(s: string)
    ensures Advance(Code, "--" + s) == (2, LineComment)
  {
    assert ("--" + s)[0] == '-' && ("--" + s)[1] == '-';
  }

  /** A comment to the end of the line, the line end included. */
  lemma LineCopies(body: string, end: char, b: string)
    requires LineBody(body) && IsLineEnd(end)
    ensures Translation(("--" + body + [end]) + b) == ("--" + body + [end]) + Translation(b)
  {
    LineOpens(body + ([end] + b));
    LineBodyCopies(body, [end] + b);
    assert Advance(LineComment, [end] + b) == (1, Code);
    RegionCopies("--", LineComment, body, [end], b);
  }

  lemma OpenLineCopies(body: string)
    requires LineBody(body)
    ensures Translation("--" + body) == "--" + body
  {
    LineOpens(body);
    LineBodyCopies(body, "");
    OpenRegionCopies("--", LineComment, body);
  }

  /** In body + rest, no end of a block comment begins within body. */
  ghost predicate BlockBody(body: string, rest: string) {
    forall i :: 0 <= i < |body| ==> !StartsTwo(body[i..] + rest, '*', '/')
  }

  lemma BlockBodyCopies(body: string, rest: string)
    requires BlockBody(body, rest)
    ensures Copies(BlockComment, body, BlockComment, rest)
  {
    forall i | 0 <= i < |body|
      ensures Advance(BlockComment, body[i..] + rest) == (1, BlockComment)
    {
      assert body[i..] + rest != "";
    }
    StayCopies(BlockComment, body, rest);
  }

  lemma BlockOpens(s: string)
    ensures Advance(Code, "/*" + s) == (2, BlockComment)
  {
    assert ("/*" + s)[0] == '/' && ("/*" + s)[1] == '*';
  }

  lemma BlockCopies(body: string, b: string)
    requires BlockBody(body, "*/" + b)
    ensures Translation(("/*" + body + "*/") + b) == ("/*" + body + "*/") + Translation(b)
  {
    BlockOpens(body + ("*/" + b));
    BlockBodyCopies(body, "*/" + b);
    assert ("*/" + b)[0] == '*' && ("*/" + b)[1] == '/';
    RegionCopies("/*", BlockComment, body, "*/", b);
  }

  lemma OpenBlockCopies(body: string)
    requires BlockBody(body, "")
    ensures Translation("/*" + body) == "/*" + body
  {
    BlockOpens(body);
    BlockBodyCopies(body, "");
    OpenRegionCopies("/*", BlockComment, body);
  }

  // ---------- dollar bodies ----------

  /** In body + rest, the tag does not begin within body. */
  ghost predicate DollarBody(tag: string, body: string, rest: string) {
    forall i :: 0 <= i < |body| ==> !StartsWith(body[i..] + rest, tag)
  }

  lemma DollarBodyCopies(tag: string, body: string, rest: string)
    requires IsTag(tag) && DollarBody(tag, body, rest)
    ensures Copies(Dollar(tag), body, Dollar(tag), rest)
  {
    forall i | 0 <= i < |body|
      ensures Advance(Dollar(tag), body[i..] + rest) == (1, Dollar(tag))
    {
      assert body[i..] + rest != "";
    }
    StayCopies(Dollar(tag), body, rest);
  }

  lemma DollarOpens(tag: string, s: string)
    requires IsTag(tag)
    ensures Advance(Code, tag + s) == (|tag|, Dollar(tag))
  {
    assert (tag + s)[..|tag|] == tag && (tag + s)[0] == '$';
    TagIsTaken(tag + s, tag);
  }

  lemma DollarCopies(tag: string, body: string, b: string)
    requires IsTag(tag) && DollarBody(tag, body, tag + b)
    ensures Translation((tag + body + tag) + b) == (tag + body + tag) + Translation(b)
  {
    DollarOpens(tag, body + (tag + b));
    DollarBodyCopies(tag, body, tag + b);
    assert (tag + b)[..|tag|] == tag;
    RegionCopies(tag, Dollar(tag), body, tag, b);
  }

  lemma OpenDollarCopies(tag: string, body: string)
    requires IsTag(tag) && DollarBody(tag, body, "")
    ensures Translation(tag + body) == tag + body
  {
    DollarOpens(tag, body);
    DollarBodyCopies(tag, body, "");
    OpenRegionCopies(tag, Dollar(tag), body);
  }
}
