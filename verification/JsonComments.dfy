/** Comments do not matter: each could be a space. */
module JsonComments {
  import opened JsonTypes
  import opened JsonTables
  import opened JsonMachine
  import opened JsonSyntax
  import opened JsonUnicode
  import opened JsonText
  import opened JsonReads
  import opened JsonCompleteness
  import opened JsonGrammar
  import opened JsonDom
  import opened JsonLimits

  // A scanner that knows nothing of the grammar but strings and comments.

  /** `s` with every comment outside strings replaced by one space. */
  function Strip(s: Bytes): Bytes
    decreases |s|
  {
    if s == [] then []
    else if s[0] == QUOTE then [QUOTE] + StripString(s[1..])
    else if s[0] == HASH then [SPACE] + StripYaml(s[1..])
    else if s[0] == SLASH && |s| > 1 && s[1] == STAR then [SPACE] + StripC(s[2..])
    else [s[0]] + Strip(s[1..])
  }

  function StripString(s: Bytes): Bytes
    decreases |s|
  {
    if s == [] then []
    else if s[0] == QUOTE then [QUOTE] + Strip(s[1..])
    else if s[0] == BACKSLASH && |s| > 1 then s[..2] + StripString(s[2..])
    else [s[0]] + StripString(s[1..])
  }

  function StripC(s: Bytes): Bytes
    decreases |s|
  {
    if |s| < 2 then []
    else if s[0] == STAR && s[1] == SLASH then Strip(s[2..])
    else StripC(s[1..])
  }

  function StripYaml(s: Bytes): Bytes
    decreases |s|
  {
    if s == [] then []
    else if s[0] == LF then Strip(s[1..])
    else StripYaml(s[1..])
  }

  // What it does to each part of a document.

  lemma StripQuote(rest: Bytes)
    ensures Strip([QUOTE] + rest) == [QUOTE] + StripString(rest)
    ensures StripString([QUOTE] + rest) == [QUOTE] + Strip(rest)
  {
    assert ([QUOTE] + rest)[1..] == rest;
  }

  predicate IsInert(b: Bytes) {
    QUOTE !in b && HASH !in b && SLASH !in b
  }

  lemma {:induction false} StripInert(b: Bytes, rest: Bytes)
    requires IsInert(b)
    ensures Strip(b + rest) == b + Strip(rest)
    decreases |b|
  {
    if b == [] {
      assert b + rest == rest;
    } else {
      assert (b + rest)[1..] == b[1..] + rest;
      StripInert(b[1..], rest);
    }
  }

  lemma {:induction false} StripStringBytes(b: Bytes, rest: Bytes)
    requires QUOTE !in b && BACKSLASH !in b
    ensures StripString(b + rest) == b + StripString(rest)
    decreases |b|
  {
    if b == [] {
      assert b + rest == rest;
    } else {
      assert (b + rest)[1..] == b[1..] + rest;
      StripStringBytes(b[1..], rest);
    }
  }

  lemma StripEscape(ch: Byte, b: Bytes, rest: Bytes)
    requires QUOTE !in b && BACKSLASH !in b
    ensures StripString([BACKSLASH, ch] + b + rest) == [BACKSLASH, ch] + b + StripString(rest)
  {
    var s := [BACKSLASH, ch] + b + rest;
    assert s[..2] == [BACKSLASH, ch] && s[2..] == b + rest;
    StripStringBytes(b, rest);
  }

  lemma HexIsNeither(d: Bytes)
    requires IsFourHex(d)
    ensures QUOTE !in d && BACKSLASH !in d
  {}

  lemma StripPiece(p: StrPiece, rest: Bytes)
    requires IsStrPiece(p)
    ensures StripString(PieceText(p) + rest) == PieceText(p) + StripString(rest)
  {
    hide StripString, IsHexByte;
    match p
    case Plain(ch) => StripStringBytes([ch], rest);
    case Multi(b) =>
      assert forall i :: 0 <= i < |b| ==> b[i] >= 0x80;
      StripStringBytes(b, rest);
    case Escaped(letter) =>
      StripEscape(letter, [], rest);
      assert [BACKSLASH, letter] + [] == PieceText(p);
    case Unit(d) =>
      HexIsNeither(d);
      StripEscape(LOWER_U, d, rest);
    case Pair(h, l) =>
      HexIsNeither(h);
      HexIsNeither(l);
      var second := [BACKSLASH, LOWER_U] + l;
      StripEscape(LOWER_U, l, rest);
      StripEscape(LOWER_U, h, second + rest);
      assert PieceText(p) + rest == [BACKSLASH, LOWER_U] + h + (second + rest);
      assert PieceText(p) + StripString(rest) == [BACKSLASH, LOWER_U] + h + (second + StripString(rest));
  }

  lemma {:induction false} StripStringText(ps: seq<StrPiece>, rest: Bytes)
    requires IsString(ps)
    ensures StripString(StringText(ps) + ([QUOTE] + rest)) == StringText(ps) + ([QUOTE] + Strip(rest))
    decreases |ps|
  {
    hide Strip, StripString, PieceText, IsStrPiece;
    var end, end' := [QUOTE] + rest, [QUOTE] + Strip(rest);
    if ps == [] {
      StripQuote(rest);
      assert StringText(ps) + end == end && StringText(ps) + end' == end';
    } else {
      StripPiece(ps[0], StringText(ps[1..]) + end);
      StripStringText(ps[1..], rest);
      assert StringText(ps) + end == PieceText(ps[0]) + (StringText(ps[1..]) + end);
      assert StringText(ps) + end' == PieceText(ps[0]) + (StringText(ps[1..]) + end');
    }
  }

  lemma LexemeIsInert(l: Lexeme)
    requires IsLexeme(l) && !l.Quoted?
    ensures IsInert(LexemeText(l))
  {
    if l.Numeral? { NumberIsInert(l.n); }
  }

  lemma NumberIsInert(n: Number)
    requires IsNumber(n)
    ensures IsInert(NumberText(n))
  {
    assert IsInert(n.whole) && IsInert(FractionText(n.fraction)) && IsInert(ExponentText(n.exponent));
  }

  lemma StripLexeme(l: Lexeme, rest: Bytes)
    requires IsLexeme(l)
    ensures Strip(LexemeText(l) + rest) == LexemeText(l) + Strip(rest)
  {
    hide Strip, StripString;
    if l.Quoted? {
      var body := StringText(l.pieces) + ([QUOTE] + rest);
      StripStringText(l.pieces, rest);
      StripQuote(body);
      assert LexemeText(l) + rest == [QUOTE] + body;
      assert LexemeText(l) + Strip(rest) == [QUOTE] + (StringText(l.pieces) + ([QUOTE] + Strip(rest)));
    } else {
      LexemeIsInert(l);
      hide LexemeText;
      StripInert(LexemeText(l), rest);
    }
  }

  lemma {:induction false} StripCBody(b: Bytes, rest: Bytes)
    requires forall i :: 0 <= i < |b| - 1 ==> !(b[i] == STAR && b[i + 1] == SLASH)
    ensures StripC(b + [STAR, SLASH] + rest) == Strip(rest)
    decreases |b|
  {
    var s := b + [STAR, SLASH] + rest;
    if b == [] {
      assert s[2..] == rest;
    } else {
      assert s[1..] == b[1..] + [STAR, SLASH] + rest;
      assert s[1] == if |b| > 1 then b[1] else STAR;
      StripCBody(b[1..], rest);
    }
  }

  lemma {:induction false} StripYamlBody(b: Bytes, rest: Bytes)
    requires LF !in b
    ensures StripYaml(b + [LF] + rest) == Strip(rest)
    decreases |b|
  {
    var s := b + [LF] + rest;
    if b == [] {
      assert s[1..] == rest;
    } else {
      assert s[1..] == b[1..] + [LF] + rest;
      StripYamlBody(b[1..], rest);
    }
  }

  /** A comment becomes a space. */
  function Blanked(f: Filler): Filler {
    if f.Blank? then f else Blank(SPACE)
  }

  lemma StripCComment(b: Bytes, rest: Bytes)
    requires forall i :: 0 <= i < |b| - 1 ==> !(b[i] == STAR && b[i + 1] == SLASH)
    ensures Strip(FillerText(CComment(b)) + rest) == [SPACE] + Strip(rest)
  {
    var s := FillerText(CComment(b)) + rest;
    StripCBody(b, rest);
    assert s[2..] == b + [STAR, SLASH] + rest;
    hide StripC;
  }

  lemma StripYamlComment(b: Bytes, rest: Bytes)
    requires LF !in b
    ensures Strip(FillerText(YamlComment(b)) + rest) == [SPACE] + Strip(rest)
  {
    var s := FillerText(YamlComment(b)) + rest;
    StripYamlBody(b, rest);
    assert s[1..] == b + [LF] + rest;
    hide StripYaml;
  }

  lemma StripFiller(cfg: Config, f: Filler, rest: Bytes)
    requires IsFiller(cfg, f)
    ensures Strip(FillerText(f) + rest) == FillerText(Blanked(f)) + Strip(rest)
  {
    hide IsCommentBody, Strip;
    match f
    case Blank(ch) => StripInert([ch], rest);
    case CComment(b) => StripCComment(b, rest);
    case YamlComment(b) => StripYamlComment(b, rest);
  }

  // Documents.

  function BlankedAll(fs: seq<Filler>): seq<Filler> {
    if fs == [] then [] else [Blanked(fs[0])] + BlankedAll(fs[1..])
  }

  function BlankedPieces(ps: seq<Piece>): seq<Piece> {
    if ps == [] then [] else [Piece(BlankedAll(ps[0].pre), ps[0].lexeme)] + BlankedPieces(ps[1..])
  }

  function WithoutComments(d: Document): Document {
    Document(BlankedPieces(d.pieces), BlankedAll(d.trail))
  }

  lemma {:induction false} BlankedFillers(cfg: Config, cfg': Config, fs: seq<Filler>, rest: Bytes)
    requires AreFillers(cfg, fs)
    ensures AreFillers(cfg', BlankedAll(fs)) && (BlankedAll(fs) != [] ==> BlankedAll(fs)[0].Blank?)
    ensures Strip(FillersText(fs) + rest) == FillersText(BlankedAll(fs)) + Strip(rest)
    decreases |fs|
  {
    hide Strip, FillerText;
    if fs == [] {
      assert FillersText(fs) + rest == rest;
    } else {
      StripFiller(cfg, fs[0], FillersText(fs[1..]) + rest);
      BlankedFillers(cfg, cfg', fs[1..], rest);
      assert FillersText(fs) + rest == FillerText(fs[0]) + (FillersText(fs[1..]) + rest);
      assert BlankedAll(fs)[1..] == BlankedAll(fs[1..]);
      assert IsFiller(cfg', Blanked(fs[0])) by { assert IsFiller(cfg, fs[0]); }
    }
  }

  lemma {:induction false} BlankedShape(cfg: Config, cfg': Config, e: bool, ps: seq<Piece>)
    requires ArePieces(cfg, ps) && AreLexemes(ps)
    ensures var ps' := BlankedPieces(ps);
      && ArePieces(cfg', ps') && AreLexemes(ps') && Separated(e, ps')
      && PiecesSymbols(ps') == PiecesSymbols(ps)
    decreases |ps|
  {
    hide Strip, IsLexeme, LexemeText, LexemeSymbol, FillersText, AreFillers;
    if ps != [] {
      BlankedFillers(cfg, cfg', ps[0].pre, []);
      BlankedShape(cfg, cfg', HasExponent(ps[0].lexeme), ps[1..]);
      assert BlankedPieces(ps)[1..] == BlankedPieces(ps[1..]);
    }
  }

  lemma {:induction false} BlankedText(cfg: Config, ps: seq<Piece>, rest: Bytes)
    requires ArePieces(cfg, ps)
    ensures Strip(PiecesText(ps) + rest) == PiecesText(BlankedPieces(ps)) + Strip(rest)
    decreases |ps|
  {
    hide Strip, IsLexeme, LexemeText, FillersText, AreFillers;
    if ps == [] {
      assert PiecesText(ps) + rest == rest;
    } else {
      var l := LexemeText(ps[0].lexeme);
      var fs, fs' := FillersText(ps[0].pre), FillersText(BlankedAll(ps[0].pre));
      var t, t' := PiecesText(ps[1..]), PiecesText(BlankedPieces(ps[1..]));
      BlankedFillers(cfg, cfg, ps[0].pre, l + (t + rest));
      StripLexeme(ps[0].lexeme, t + rest);
      BlankedText(cfg, ps[1..], rest);
      FirstPieceText(ps);
      hide PiecesText, BlankedPieces, BlankedAll;
      Regroup(fs, l, t, rest);
      Regroup(fs', l, t', Strip(rest));
    }
  }

  lemma FirstPieceText(ps: seq<Piece>)
    requires ps != []
    ensures PiecesText(BlankedPieces(ps)) ==
      FillersText(BlankedAll(ps[0].pre)) + LexemeText(ps[0].lexeme) + PiecesText(BlankedPieces(ps[1..]))
  {
    assert BlankedPieces(ps)[1..] == BlankedPieces(ps[1..]);
  }

  lemma Regroup(a: Bytes, b: Bytes, c: Bytes, d: Bytes)
    ensures a + b + c + d == a + (b + (c + d))
  {}

  lemma {:induction false} SameLexemes(ps: seq<Piece>)
    ensures |BlankedPieces(ps)| == |ps|
    ensures forall i :: 0 <= i < |ps| ==> BlankedPieces(ps)[i].lexeme == ps[i].lexeme
    decreases |ps|
  {
    if ps != [] {
      SameLexemes(ps[1..]);
      assert forall i :: 0 < i < |ps| ==> BlankedPieces(ps)[i] == BlankedPieces(ps[1..])[i - 1] && ps[i] == ps[1..][i - 1];
    }
  }

  /** Comments take no part in the limits. */
  lemma SameFit(cfg: Config, cfg': Config, d: Document, v: Json)
    requires AreLexemes(d.pieces) && AreLexemes(WithoutComments(d).pieces)
    requires cfg.maxNesting == cfg'.maxNesting && cfg.maxData == cfg'.maxData
    ensures FitsLimits(cfg', WithoutComments(d), v) <==> FitsLimits(cfg, d, v)
  {
    hide IsLexeme, BlankedPieces, Depth;
    SameLexemes(d.pieces);
    SameTokens(cfg, cfg', d.pieces, BlankedPieces(d.pieces));
  }

  /**
    Take any text that some parser accepts, and replace each comment by a space. A parser `cfg'` with whatever
    limits, and whether it allows comments or not, accepts the result exactly when the original fits the limits
    of `cfg'`, and then with the same events; so it always does if its limits are no tighter.
   */
  lemma CommentsDoNotMatter(cfg: Config, cfg': Config, s: Bytes)
    requires Accepts(cfg, s)
    ensures Accepts(cfg', Strip(s)) <==> Accepts(cfg.WithLimitsOf(cfg'), s)
    ensures Accepts(cfg', Strip(s)) ==> Run(cfg', START, Strip(s)).m.events == Run(cfg, START, s).m.events
    ensures cfg'.NoTighterThan(cfg) ==> Accepts(cfg', Strip(s))
  {
    hide Run, Strip, FitsLimits, Accepts;
    var d, v := FindDocument(cfg, s);
    var d' := StrippedDocument(cfg, cfg', s, d, v);
    var like := cfg.WithLimitsOf(cfg');
    SameGrammar(cfg, like, d, v);
    DocumentsWithLimits(cfg, d, v);
    DocumentsWithLimits(like, d, v);
    DocumentsWithLimits(cfg', d', v);
    SameFit(like, cfg', d, v);
    if cfg'.NoTighterThan(cfg) { LooserLimits(cfg, cfg', d, v); LooserLimits(cfg, like, d, v); }
  }

  /** The stripped text is the text of the document without its comments. */
  lemma StrippedDocument(cfg: Config, cfg': Config, s: Bytes, d: Document, v: Json) returns (d': Document)
    requires Spells(cfg, d, v) && Text(d) == s
    ensures d' == WithoutComments(d) && Spells(cfg', d', v) && Text(d') == Strip(s)
  {
    hide Strip;
    d' := WithoutComments(d);
    BlankedFillers(cfg, cfg', d.trail, []);
    BlankedShape(cfg, cfg', false, d.pieces);
    BlankedText(cfg, d.pieces, FillersText(d.trail));
    StripNothing();
    assert FillersText(d.trail) + [] == FillersText(d.trail);
  }

  lemma StripNothing()
    ensures Strip([]) == []
  {}
}
