/** Any statement, cut into plain text and regions: the translation replaces the placeholders of the
    plain text and copies the regions. */
module SqlPieces {
  import opened SqlTranslator
  import opened SqlTexts

  datatype Piece =
    | Plainly(text: string)
    | Quoted(mark: char, body: string)
    | Remark(body: string, end: char)
    | Blocked(body: string)
    | Tagged(tag: string, body: string)

  /** What may stand at the end: nothing, or a region that is never closed. */
  datatype Ending =
    | Done
    | InQuote(mark: char, body: string)
    | InRemark(body: string)
    | InBlock(body: string)
    | InTag(tag: string, body: string)

  function Spell(p: Piece): string {
    match p
    case Plainly(text) => text
    case Quoted(mark, body) => [mark] + body + [mark]
    case Remark(body, end) => "--" + body + [end]
    case Blocked(body) => "/*" + body + "*/"
    case Tagged(tag, body) => tag + body + tag
  }

  function SpellEnd(e: Ending): string {
    match e
    case Done => ""
    case InQuote(mark, body) => [mark] + body
    case InRemark(body) => "--" + body
    case InBlock(body) => "/*" + body
    case InTag(tag, body) => tag + body
  }

  function SpellAll(ps: seq<Piece>, e: Ending): string {
    if ps == [] then SpellEnd(e) else Spell(ps[0]) + SpellAll(ps[1..], e)
  }

  /** The piece begins and ends where a region does, if rest follows it. */
  ghost predicate Fits(p: Piece, rest: string) {
    match p
    case Plainly(text) => Plain(text, rest)
    case Quoted(mark, body) => IsMark(mark) && QuoteBody(mark, body) && (rest != "" ==> rest[0] != mark)
    case Remark(body, end) => LineBody(body) && IsLineEnd(end)
    case Blocked(body) => BlockBody(body, "*/" + rest)
    case Tagged(tag, body) => IsTag(tag) && DollarBody(tag, body, tag + rest)
  }

  ghost predicate EndFits(e: Ending) {
    match e
    case Done => true
    case InQuote(mark, body) => IsMark(mark) && OpenBody(mark, body)
    case InRemark(body) => LineBody(body)
    case InBlock(body) => BlockBody(body, "")
    case InTag(tag, body) => IsTag(tag) && DollarBody(tag, body, "")
  }

  ghost predicate AllFit(ps: seq<Piece>, e: Ending) {
    if ps == [] then EndFits(e) else Fits(ps[0], SpellAll(ps[1..], e)) && AllFit(ps[1..], e)
  }

  function Show(p: Piece): string {
    if p.Plainly? then Replace(p.text) else Spell(p)
  }

  function ShowAll(ps: seq<Piece>, e: Ending): string {
    if ps == [] then SpellEnd(e) else Show(ps[0]) + ShowAll(ps[1..], e)
  }

  // ---------- the translation, piece by piece ----------

  lemma PieceTranslates(p: Piece, rest: string)
    requires Fits(p, rest)
    ensures Translation(Spell(p) + rest) == Show(p) + Translation(rest)
  {
    match p
    case Plainly(text) => PlainPrefix(text, rest);
    case Quoted(mark, body) => QuoteCopies(mark, body, rest);
    case Remark(body, end) => LineCopies(body, end, rest);
    case Blocked(body) => BlockCopies(body, rest);
    case Tagged(tag, body) => DollarCopies(tag, body, rest);
  }

  lemma EndingTranslates(e: Ending)
    requires EndFits(e)
    ensures Translation(SpellEnd(e)) == SpellEnd(e)
  {
    match e
    case Done =>
    case InQuote(mark, body) => OpenQuoteCopies(mark, body);
    case InRemark(body) => OpenLineCopies(body);
    case InBlock(body) => OpenBlockCopies(body);
    case InTag(tag, body) => OpenDollarCopies(tag, body);
  }

  /** A statement made of fitting pieces is translated by replacing every ? of its plain text by %s and
      by nothing else: quotes, comments, dollar bodies and what is left open at the end are copied. */
  lemma {:induction false} PiecesTranslate(ps: seq<Piece>, e: Ending)
    requires AllFit(ps, e)
    ensures Translation(SpellAll(ps, e)) == ShowAll(ps, e)
  {
    if ps == [] {
      EndingTranslates(e);
    } else {
      PieceTranslates(ps[0], SpellAll(ps[1..], e));
      PiecesTranslate(ps[1..], e);
    }
  }

  // ---------- every statement has pieces ----------

  lemma {:induction false} CutQuote(mark: char, t: string) returns (body: string, closed: bool, rest: string)
    requires IsMark(mark)
    ensures closed ==> t == body + [mark] + rest && QuoteBody(mark, body) && (rest != "" ==> rest[0] != mark)
    ensures !closed ==> t == body && OpenBody(mark, body)
    decreases |t|
  {
    if t == "" {
      return "", false, "";
    }
    if t[0] == mark && !(|t| >= 2 && t[1] == mark) {
      assert t == "" + [mark] + t[1..];
      return "", true, t[1..];
    }
    if t == "\\" {
      assert t[..0] == "";
      return t, false, "";
    }
    var n := if t[0] == mark || t[0] == '\\' then 2 else 1;
    var inner;
    inner, closed, rest := CutQuote(mark, t[n..]);
    body := t[..n] + inner;
    assert t == t[..n] + t[n..];
    LongerBody(mark, t[..n], inner);
  }

  lemma LongerBody(mark: char, front: string, inner: string)
    requires IsMark(mark) && 1 <= |front| <= 2
    requires front[0] == mark || front[0] == '\\' <==> |front| == 2
    requires front[0] == mark ==> front[1] == mark
    ensures QuoteBody(mark, inner) ==> QuoteBody(mark, front + inner)
    ensures OpenBody(mark, inner) ==> OpenBody(mark, front + inner)
  {
    var body := front + inner;
    assert body[0] == front[0] && body[|front|..] == inner;
    assert |front| == 2 ==> body[1] == front[1];
    if inner != "" {
      var cut := inner[..|inner| - 1];
      assert body[..|body| - 1] == front + cut && body[|body| - 1] == inner[|inner| - 1];
      assert (front + cut)[0] == front[0] && (front + cut)[|front|..] == cut;
      assert |front| == 2 ==> (front + cut)[1] == front[1];
    }
  }

  lemma {:induction false} CutRemark(t: string) returns (body: string, closed: bool, end: char, rest: string)
    ensures closed ==> t == body + [end] + rest && LineBody(body) && IsLineEnd(end)
    ensures !closed ==> t == body && LineBody(body)
  {
    if t == "" {
      return "", false, '\n', "";
    }
    if IsLineEnd(t[0]) {
      assert t == "" + [t[0]] + t[1..];
      return "", true, t[0], t[1..];
    }
    var inner;
    inner, closed, end, rest := CutRemark(t[1..]);
    body := [t[0]] + inner;
    assert t == [t[0]] + t[1..];
  }

  lemma {:induction false} CutBlock(t: string) returns (body: string, closed: bool, rest: string)
    ensures closed ==> t == body + "*/" + rest && BlockBody(body, "*/" + rest)
    ensures !closed ==> t == body && BlockBody(body, "")
  {
    if t == "" {
      return "", false, "";
    }
    if StartsTwo(t, '*', '/') {
      assert t == "" + "*/" + t[2..];
      return "", true, t[2..];
    }
    var inner;
    inner, closed, rest := CutBlock(t[1..]);
    body := [t[0]] + inner;
    assert t == [t[0]] + t[1..];
    var after := if closed then "*/" + rest else "";
    assert t == body + after;
    forall i | 0 <= i < |body|
      ensures !StartsTwo(body[i..] + after, '*', '/')
    {
      if i == 0 {
        assert body[0..] + after == t;
      } else {
        assert body[i..] == inner[i - 1..];
      }
    }
  }

  lemma {:induction false} CutTag(tag: string, t: string) returns (body: string, closed: bool, rest: string)
    requires IsTag(tag)
    ensures closed ==> t == body + tag + rest && DollarBody(tag, body, tag + rest)
    ensures !closed ==> t == body && DollarBody(tag, body, "")
  {
    if t == "" {
      return "", false, "";
    }
    if StartsWith(t, tag) {
      assert t == "" + tag + t[|tag|..];
      return "", true, t[|tag|..];
    }
    var inner;
    inner, closed, rest := CutTag(tag, t[1..]);
    body := [t[0]] + inner;
    assert t == [t[0]] + t[1..];
    var after := if closed then tag + rest else "";
    assert t == body + after;
    forall i | 0 <= i < |body|
      ensures !StartsWith(body[i..] + after, tag)
    {
      if i == 0 {
        assert body[0..] + after == t;
      } else {
        assert body[i..] == inner[i - 1..];
      }
    }
  }

  /** A statement begins with a piece, or it is an ending. */
  ghost predicate Begins(s: string, p: Piece, closed: bool, rest: string, e: Ending) {
    if closed then s == Spell(p) + rest && Fits(p, rest) && |rest| < |s| else s == SpellEnd(e) && EndFits(e)
  }

  lemma FirstOrdinary(s: string)
    requires s != "" && Ordinary(s)
    ensures Begins(s, Plainly([s[0]]), true, s[1..], Done)
  {
    assert s == [s[0]] + s[1..] && [s[0]][0..] + s[1..] == s;
    assert Plain([s[0]], s[1..]);
  }

  lemma FirstQuote(s: string) returns (p: Piece, closed: bool, rest: string, e: Ending)
    requires s != "" && IsMark(s[0])
    ensures Begins(s, p, closed, rest, e)
  {
    var body;
    body, closed, rest := CutQuote(s[0], s[1..]);
    p, e := Quoted(s[0], body), InQuote(s[0], body);
    assert s == [s[0]] + s[1..];
  }

  lemma FirstRemark(s: string) returns (p: Piece, closed: bool, rest: string, e: Ending)
    requires StartsTwo(s, '-', '-')
    ensures Begins(s, p, closed, rest, e)
  {
    var body, end;
    body, closed, end, rest := CutRemark(s[2..]);
    p, e := Remark(body, end), InRemark(body);
    assert s == "--" + s[2..];
  }

  lemma FirstBlock(s: string) returns (p: Piece, closed: bool, rest: string, e: Ending)
    requires StartsTwo(s, '/', '*')
    ensures Begins(s, p, closed, rest, e)
  {
    var body;
    body, closed, rest := CutBlock(s[2..]);
    p, e := Blocked(body), InBlock(body);
    assert s == "/*" + s[2..];
  }

  lemma FirstTag(s: string, tag: string) returns (p: Piece, closed: bool, rest: string, e: Ending)
    requires IsTag(tag) && StartsWith(s, tag)
    ensures Begins(s, p, closed, rest, e)
  {
    var body;
    body, closed, rest := CutTag(tag, s[|tag|..]);
    p, e := Tagged(tag, body), InTag(tag, body);
    assert s == tag + s[|tag|..];
  }

  lemma FirstPiece(s: string) returns (p: Piece, closed: bool, rest: string, e: Ending)
    requires s != ""
    ensures Begins(s, p, closed, rest, e)
  {
    if Ordinary(s) {
      FirstOrdinary(s);
      p, closed, rest, e := Plainly([s[0]]), true, s[1..], Done;
    } else if IsMark(s[0]) {
      p, closed, rest, e := FirstQuote(s);
    } else if StartsTwo(s, '-', '-') {
      p, closed, rest, e := FirstRemark(s);
    } else if StartsTwo(s, '/', '*') {
      p, closed, rest, e := FirstBlock(s);
    } else {
      var tag :| IsTag(tag) && StartsWith(s, tag);
      p, closed, rest, e := FirstTag(s, tag);
    }
  }

  /** The description covers every statement: whatever its text, it has fitting pieces, and so
      PiecesTranslate says what its translation is. */
  lemma {:induction false} EveryStatementHasPieces(s: string) returns (ps: seq<Piece>, e: Ending)
    ensures s == SpellAll(ps, e) && AllFit(ps, e)
    decreases |s|
  {
    if s == "" {
      return [], Done;
    }
    var p, closed, rest, ending := FirstPiece(s);
    if !closed {
      return [], ending;
    }
    ps, e := EveryStatementHasPieces(rest);
    assert ([p] + ps)[1..] == ps;
    ps := [p] + ps;
  }

  /** A quoted value in a plain statement: the inside is copied, what stands before and after it is
      translated by itself. */
  lemma QuotedValue(a: string, mark: char, body: string, b: string)
    requires IsMark(mark) && QuoteBody(mark, body) && (b != "" ==> b[0] != mark)
    requires forall c :: c in a ==> c !in {'\'', '"', '$', '-', '/'}
    ensures Translation(a + ([mark] + body + [mark] + b)) == Replace(a) + ([mark] + body + [mark] + Translation(b))
  {
    SimpleIsPlain(a, [mark] + body + [mark] + b);
    PlainPrefix(a, [mark] + body + [mark] + b);
    QuoteCopies(mark, body, b);
  }
}
