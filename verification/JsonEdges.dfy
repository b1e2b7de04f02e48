/** Reprinting, and the edges of the language: a zero with an exponent, and surrogates without their half. */
module JsonEdges {
  import opened Options
  import opened JsonTypes
  import opened JsonTables
  import opened JsonMachine
  import opened JsonSyntax
  import opened JsonUnicode
  import opened JsonText
  import opened JsonReads
  import opened JsonReadsStrings
  import opened JsonCompleteness
  import opened JsonSoundness
  import opened JsonGrammar
  import opened JsonDom
  import opened JsonLimits
  import opened JsonPrinter
  import opened JsonRoundTrip

  // What has been parsed can be printed.

  ghost predicate IsPrintableSymbol(sym: Symbol) {
    match sym
    case TextSym(data) => IsLooseUtf8(data)
    case ScalarSym(kind, data) =>
      ((kind == IntKind || kind == FloatKind) && IsNumberText(kind, data)) || (IsWordKind(kind) && data == [])
    case _ => true
  }

  ghost predicate ArePrintable(syms: seq<Symbol>) {
    forall i :: 0 <= i < |syms| ==> IsPrintableSymbol(syms[i])
  }

  lemma {:induction false} LooseAppend(a: Bytes, b: Bytes)
    requires IsLooseUtf8(a) && IsLooseUtf8(b)
    ensures IsLooseUtf8(a + b)
    decreases |a|
  {
    if a == [] {
      assert a + b == b;
    } else {
      var n := if a[0] < 0x80 then 1 else 1 + Utf8Header(a[0]);
      LooseAppend(a[n..], b);
      assert (a + b)[..n] == a[..n] && (a + b)[n..] == a[n..] + b;
    }
  }

  lemma LooseOne(b: Bytes)
    requires IsMulti(b) || (|b| == 1 && b[0] < 0x80)
    ensures IsLooseUtf8(b)
  {
    assert b[|b|..] == [] && b[..|b|] == b;
  }

  lemma ScalarIsLoose(cp: nat)
    requires IsScalarValue(cp)
    ensures IsLooseUtf8(Utf8(cp))
  {
    LooseOne(Utf8(cp));
  }

  lemma PieceIsLoose(p: StrPiece)
    requires IsStrPiece(p)
    ensures IsLooseUtf8(PieceData(p))
  {
    hide IsLooseUtf8, FourHex, Utf8;
    match p
    case Unit(d) => ScalarIsLoose(FourHex(d));
    case Pair(h, l) =>
      PairValueUtf16(FourHex(h), FourHex(l));
      ScalarIsLoose(PairValue(FourHex(h), FourHex(l)));
    case _ => LooseOne(PieceData(p));
  }

  lemma {:induction false} StringIsLoose(ps: seq<StrPiece>)
    requires IsString(ps)
    ensures IsLooseUtf8(StringData(ps))
    decreases |ps|
  {
    if ps != [] {
      hide PieceData, IsStrPiece;
      PieceIsLoose(ps[0]);
      StringIsLoose(ps[1..]);
      LooseAppend(PieceData(ps[0]), StringData(ps[1..]));
    }
  }

  lemma LexemeIsPrintable(l: Lexeme)
    requires IsLexeme(l)
    ensures IsPrintableSymbol(LexemeSymbol(l))
  {
    hide StringData, NumberText, IsNumber, NumberKind;
    match l
    case Quoted(ps) => StringIsLoose(ps);
    case Numeral(n) => assert NumberKind(n) == IntKind || NumberKind(n) == FloatKind by { NumberKinds(n); }
    case _ =>
  }

  lemma NumberKinds(n: Number)
    ensures NumberKind(n) == IntKind || NumberKind(n) == FloatKind
  {}

  lemma {:induction false} PiecesArePrintable(ps: seq<Piece>)
    requires AreLexemes(ps)
    ensures ArePrintable(PiecesSymbols(ps))
    decreases |ps|
  {
    if ps != [] {
      hide IsLexeme, LexemeSymbol, IsPrintableSymbol;
      LexemeIsPrintable(ps[0].lexeme);
      PiecesArePrintable(ps[1..]);
    }
  }

  lemma PrintableParts(a: seq<Symbol>, b: seq<Symbol>)
    requires ArePrintable(a + b)
    ensures ArePrintable(a) && ArePrintable(b)
  {
    hide IsPrintableSymbol;
    assert forall i :: 0 <= i < |a| ==> (a + b)[i] == a[i];
    assert forall i :: 0 <= i < |b| ==> (a + b)[|a| + i] == b[i];
  }

  lemma {:induction false} TreeIsPrintable(v: Json)
    requires IsJson(v) && ArePrintable(Symbols(v))
    ensures IsPrintable(v)
    decreases v, 1
  {
    match v
    case Leaf(kind, data) =>
      assert IsPrintableSymbol(Symbols(v)[0]);
    case Arr(items) =>
      PrintableParts([LBracket] + ItemSymbols(items), [RBracket]);
      PrintableParts([LBracket], ItemSymbols(items));
      ItemsArePrintable(items);
    case Obj(members) =>
      PrintableParts([LBrace] + MemberSymbols(members), [RBrace]);
      PrintableParts([LBrace], MemberSymbols(members));
      MembersArePrintable(members);
  }

  lemma {:induction false} ItemsArePrintable(items: seq<Json>)
    requires (forall i :: 0 <= i < |items| ==> IsJson(items[i])) && ArePrintable(ItemSymbols(items))
    ensures forall i :: 0 <= i < |items| ==> IsPrintable(items[i])
    decreases items, 0
  {
    hide ArePrintable, IsPrintable;
    if items != [] {
      var comma := if |items| == 1 then [] else [CommaSym];
      PrintableParts(Symbols(items[0]) + comma, ItemSymbols(items[1..]));
      PrintableParts(Symbols(items[0]), comma);
      TreeIsPrintable(items[0]);
      ItemsArePrintable(items[1..]);
      forall i | 0 <= i < |items| ensures IsPrintable(items[i]) {
        if i > 0 { assert items[i] == items[1..][i - 1]; }
      }
    }
  }

  lemma {:induction false} MembersArePrintable(members: seq<Member>)
    requires (forall i :: 0 <= i < |members| ==> IsJson(members[i].value)) && ArePrintable(MemberSymbols(members))
    ensures forall i :: 0 <= i < |members| ==> IsLooseUtf8(members[i].key) && IsPrintable(members[i].value)
    decreases members, 0
  {
    hide IsPrintable, IsLooseUtf8, PairSymbols;
    if members != [] {
      var comma := if |members| == 1 then [] else [CommaSym];
      PrintableParts(PairSymbols(members[0]) + comma, MemberSymbols(members[1..]));
      PrintableParts(PairSymbols(members[0]), comma);
      PairIsPrintable(members[0]);
      MembersArePrintable(members[1..]);
      forall i | 0 <= i < |members| ensures IsLooseUtf8(members[i].key) && IsPrintable(members[i].value) {
        if i > 0 { assert members[i] == members[1..][i - 1]; }
      }
    }
  }

  lemma {:induction false} PairIsPrintable(m: Member)
    requires IsJson(m.value) && ArePrintable(PairSymbols(m))
    ensures IsLooseUtf8(m.key) && IsPrintable(m.value)
    decreases m, 2
  {
    assert IsPrintableSymbol(PairSymbols(m)[0]);
    PrintableParts([TextSym(m.key), ColonSym], Symbols(m.value));
    TreeIsPrintable(m.value);
  }

  // What is printed needs no more room than what was parsed.

  lemma PieceIsCharacter(p: StrPiece)
    requires IsStrPiece(p)
    ensures PieceData(p) != [] && ((PieceData(p)[0] < 0x80 && |PieceData(p)| == 1) || (PieceData(p)[0] >= 0x80 && IsMulti(PieceData(p))))
  {
    hide FourHex;
    if p.Pair? { PairValueUtf16(FourHex(p.high), FourHex(p.low)); }
  }

  /** A character is never printed with more than the piece it was parsed from needed. */
  lemma CharacterNeedsNoMore(p: StrPiece, data: Bytes)
    requires IsStrPiece(p) && IsLooseUtf8(data) && data != [] && PieceData(p) <= data
    ensures PieceNeed(FirstCharacter(data)) <= PieceNeed(p)
    ensures data[|PieceData(p)|..] == data[if data[0] < 0x80 then 1 else 1 + Utf8Header(data[0])..]
  {
    hide FourHex, IsLooseUtf8;
    PieceIsCharacter(p);
    assert data[0] == PieceData(p)[0];
    if p.Pair? { PairValueUtf16(FourHex(p.high), FourHex(p.low)); }
  }

  lemma FitsCons(cfg: Config, before: nat, p: StrPiece, ps: seq<StrPiece>)
    requires IsStrPiece(p) && IsString(ps) && cfg.maxData > 0
    ensures IsString([p] + ps)
    ensures StringFits(cfg, before, [p] + ps) <==>
      before + PieceNeed(p) < cfg.maxData && StringFits(cfg, before + |PieceData(p)|, ps)
  {
    hide PieceNeed, PieceData, IsStrPiece;
    assert ([p] + ps)[1..] == ps;
  }

  lemma DataSplits(ps: seq<StrPiece>)
    requires IsString(ps) && ps != []
    ensures IsStrPiece(ps[0]) && PieceData(ps[0]) != [] && StringData(ps) != []
    ensures PieceData(ps[0]) <= StringData(ps) && StringData(ps)[|PieceData(ps[0])|..] == StringData(ps[1..])
    ensures ps == [ps[0]] + ps[1..] && IsString(ps[1..])
  {
    assert IsStrPiece(ps[0]);
    PieceIsCharacter(ps[0]);
    hide PieceData, IsStrPiece;
  }

  lemma {:induction false} PrintedStringFits(cfg: Config, before: nat, ps: seq<StrPiece>)
    requires IsString(ps) && StringFits(cfg, before, ps) && IsLooseUtf8(StringData(ps))
    ensures IsString(TextPieces(StringData(ps))) && StringFits(cfg, before, TextPieces(StringData(ps)))
    decreases |ps|, 1
  {
    TextString(StringData(ps));
    if ps != [] && cfg.maxData > 0 { PrintedCharacterFits(cfg, before, ps); }
  }

  lemma {:induction false} PrintedCharacterFits(cfg: Config, before: nat, ps: seq<StrPiece>)
    requires IsString(ps) && StringFits(cfg, before, ps) && IsLooseUtf8(StringData(ps)) && ps != [] && cfg.maxData > 0
    requires IsString(TextPieces(StringData(ps)))
    ensures StringFits(cfg, before, TextPieces(StringData(ps)))
    decreases |ps|, 0
  {
    hide PieceNeed, PieceData, StringData, IsStrPiece, FirstCharacter, IsLooseUtf8, StringFits, TextPieces, IsString;
    DataSplits(ps);
    var data, n := StringData(ps), |PieceData(ps[0])|;
    PieceIsCharacter(ps[0]);
    CharacterNeedsNoMore(ps[0], data);
    StringIsLoose(ps[1..]);
    FitsCons(cfg, before, ps[0], ps[1..]);
    PrintedStringFits(cfg, before + n, ps[1..]);
    CharacterLength(ps[0], data);
    FirstOfText(data, n);
    FirstCharacterText(data, n);
    FitsCons(cfg, before, FirstCharacter(data), TextPieces(data[n..]));
  }

  lemma CharacterLength(p: StrPiece, data: Bytes)
    requires IsStrPiece(p) && data != [] && PieceData(p) <= data
    ensures |PieceData(p)| == if data[0] < 0x80 then 1 else 1 + Utf8Header(data[0])
  {
    PieceIsCharacter(p);
    assert PieceData(p) != [] && PieceData(p)[0] == data[0];
  }

  /** Strings are printed in one way. */
  ghost predicate IsCanonical(l: Lexeme) {
    l.Quoted? ==> IsString(l.pieces) && IsLooseUtf8(StringData(l.pieces)) && l.pieces == TextPieces(StringData(l.pieces))
  }

  ghost predicate AreCanonical(ps: seq<Piece>) {
    forall i :: 0 <= i < |ps| ==> IsCanonical(ps[i].lexeme)
  }

  lemma CanonicalAppend(a: seq<Piece>, b: seq<Piece>)
    requires AreCanonical(a) && AreCanonical(b)
    ensures AreCanonical(a + b)
  {
    hide IsCanonical;
  }

  lemma TextIsCanonical(data: Bytes)
    requires IsLooseUtf8(data)
    ensures IsCanonical(Quoted(TextPieces(data)))
  {
    TextString(data);
  }

  lemma {:induction false} ValueIsCanonical(v: Json, pretty: bool, level: int, pre: seq<Filler>)
    requires IsJson(v) && IsPrintable(v)
    ensures AreCanonical(ValuePieces(v, pretty, level, pre))
    decreases v, 1
  {
    hide IsCanonical, Break, TextPieces;
    match v
    case Leaf(kind, data) =>
      if kind == StringKind { TextIsCanonical(data); }
      LeafIsCanonical(kind, data);
    case Arr(items) =>
      ItemsAreCanonical(items, pretty, level + 1);
      PunctIsCanonical();
      CanonicalAppend([Piece(pre, Punct(LBracket))], ItemPieces(items, pretty, level + 1));
    case Obj(members) =>
      MembersAreCanonical(members, pretty, level + 1);
      PunctIsCanonical();
      CanonicalAppend([Piece(pre, Punct(LBrace))], MemberPieces(members, pretty, level + 1));
  }

  lemma LeafIsCanonical(kind: Kind, data: Bytes)
    requires IsJson(Leaf(kind, data)) && IsPrintable(Leaf(kind, data))
    requires kind == StringKind ==> IsCanonical(Quoted(TextPieces(data)))
    ensures IsCanonical(LeafLexeme(kind, data))
  {
    hide TextPieces, IsNumberText, IsLooseUtf8;
  }

  lemma PunctIsCanonical()
    ensures forall sym :: IsCanonical(Punct(sym))
  {}

  lemma {:induction false} ItemsAreCanonical(items: seq<Json>, pretty: bool, level: int)
    requires forall i :: 0 <= i < |items| ==> IsJson(items[i]) && IsPrintable(items[i])
    ensures AreCanonical(ItemPieces(items, pretty, level))
    decreases items, 0
  {
    hide IsCanonical, Break, ValuePieces, IsJson, IsPrintable;
    if items != [] {
      PunctIsCanonical();
      var v := ValuePieces(items[0], pretty, level, Break(pretty, level));
      var comma := if |items| == 1 then [] else [Piece([], Punct(CommaSym))];
      ValueIsCanonical(items[0], pretty, level, Break(pretty, level));
      ItemsAreCanonical(items[1..], pretty, level);
      CanonicalAppend(v, comma);
      CanonicalAppend(v + comma, ItemPieces(items[1..], pretty, level));
    }
  }

  lemma {:induction false} MembersAreCanonical(members: seq<Member>, pretty: bool, level: int)
    requires forall i :: 0 <= i < |members| ==>
      IsJson(members[i].value) && IsLooseUtf8(members[i].key) && IsPrintable(members[i].value)
    ensures AreCanonical(MemberPieces(members, pretty, level))
    decreases members, 0
  {
    hide IsCanonical, PairPieces, IsJson, IsPrintable, IsLooseUtf8;
    if members != [] {
      PunctIsCanonical();
      var v := PairPieces(members[0], pretty, level);
      var comma := if |members| == 1 then [] else [Piece([], Punct(CommaSym))];
      PairIsCanonical(members[0], pretty, level);
      MembersAreCanonical(members[1..], pretty, level);
      CanonicalAppend(v, comma);
      CanonicalAppend(v + comma, MemberPieces(members[1..], pretty, level));
    }
  }

  lemma {:induction false} PairIsCanonical(m: Member, pretty: bool, level: int)
    requires IsJson(m.value) && IsLooseUtf8(m.key) && IsPrintable(m.value)
    ensures AreCanonical(PairPieces(m, pretty, level))
    decreases m, 2
  {
    hide IsCanonical, Break, ValuePieces, IsJson, IsPrintable, IsLooseUtf8, Gap;
    TextIsCanonical(m.key);
    PunctIsCanonical();
    ValueIsCanonical(m.value, pretty, level, Gap(pretty));
    CanonicalAppend(Head(m.key, pretty, level), ValuePieces(m.value, pretty, level, Gap(pretty)));
  }

  lemma CanonicalFits(cfg: Config, l: Lexeme, l': Lexeme)
    requires IsLexeme(l) && IsLexeme(l') && LexemeSymbol(l) == LexemeSymbol(l') && LexemeFits(cfg, l) && IsCanonical(l')
    ensures LexemeFits(cfg, l')
  {
    hide StringFits, NumberText, NumberKind, IsNumber, StringData, TextPieces;
    if l'.Quoted? {
      if l.Quoted? { PrintedStringFits(cfg, 0, l.pieces); }
    }
  }

  lemma {:induction false} SymbolAt(ps: seq<Piece>, i: nat)
    requires AreLexemes(ps) && i < |ps|
    ensures |PiecesSymbols(ps)| == |ps| && PiecesSymbols(ps)[i] == LexemeSymbol(ps[i].lexeme)
    decreases |ps|
  {
    hide IsLexeme, LexemeSymbol;
    if |ps| == 1 {
      assert PiecesSymbols(ps[1..]) == [];
    } else {
      SymbolAt(ps[1..], if i == 0 then 0 else i - 1);
    }
  }

  lemma {:induction false} SymbolCount(ps: seq<Piece>)
    requires AreLexemes(ps)
    ensures |PiecesSymbols(ps)| == |ps|
    decreases |ps|
  {
    hide IsLexeme, LexemeSymbol;
    if ps != [] { SymbolCount(ps[1..]); }
  }

  lemma CanonicalTokensFit(cfg: Config, ps: seq<Piece>, ps': seq<Piece>)
    requires AreLexemes(ps) && AreLexemes(ps') && PiecesSymbols(ps) == PiecesSymbols(ps') && TokensFit(cfg, ps) && AreCanonical(ps')
    ensures TokensFit(cfg, ps')
  {
    hide IsLexeme, LexemeSymbol, LexemeFits, IsCanonical, PiecesSymbols;
    SymbolCount(ps);
    SymbolCount(ps');
    forall i | 0 <= i < |ps'| ensures LexemeFits(cfg, ps'[i].lexeme) {
      SymbolAt(ps, i);
      SymbolAt(ps', i);
      assert IsLexeme(ps[i].lexeme) && IsLexeme(ps'[i].lexeme);
      CanonicalFits(cfg, ps[i].lexeme, ps'[i].lexeme);
    }
  }

  lemma PrintedFits(cfg: Config, cfg': Config, d: Document, v: Json, d': Document, pretty: bool)
    requires Spells(cfg, d, v) && FitsLimits(cfg.WithLimitsOf(cfg'), d, v) && IsPrintable(v)
    requires Spells(cfg', d', v) && d'.pieces == ValuePieces(v, pretty, 0, [])
    ensures FitsLimits(cfg', d', v)
  {
    hide ValuePieces, PiecesSymbols, Symbols, ArePieces, AreFillers, Separated, TokensFit, AreLexemes, AreCanonical, Depth, IsJson;
    ValueIsCanonical(v, pretty, 0, []);
    CanonicalTokensFit(cfg.WithLimitsOf(cfg'), d.pieces, d'.pieces);
    SameTokens(cfg.WithLimitsOf(cfg'), cfg', d'.pieces, d'.pieces);
  }

  /**
    Whatever is accepted can be printed again, raw or pretty. A parser `cfg'` reads that to the same events, if
    with its limits the original would have been accepted; so it does without limits, and with limits no tighter.
   */
  lemma ReprintedIsParsedAlike(cfg: Config, cfg': Config, s: Bytes, pretty: bool)
    requires Accepts(cfg, s)
    ensures var es := Run(cfg, START, s).m.events; var again := PrintAll(FRESH, es, pretty).out;
      && (Accepts(cfg.WithLimitsOf(cfg'), s) ==> Accepts(cfg', again))
      && (cfg'.NoTighterThan(cfg) ==> Accepts(cfg', again))
      && (Accepts(cfg', again) ==> Run(cfg', START, again).m.events == es)
  {
    hide Run, PrintAll, FitsLimits, Accepts, Text;
    var like := cfg.WithLimitsOf(cfg');
    var d, v := FindDocument(cfg, s);
    PiecesArePrintable(d.pieces);
    TreeIsPrintable(v);
    ReadBackSame(v);
    var d' := PrintedIsDocument(cfg', v, pretty);
    DocumentsWithLimits(cfg', d', v);
    DocumentsWithLimits(cfg, d, v);
    SameGrammar(cfg, like, d, v);
    DocumentsWithLimits(like, d, v);
    if cfg'.NoTighterThan(cfg) { LooserLimits(cfg, like, d, v); }
    if FitsLimits(like, d, v) { PrintedFits(cfg, cfg', d, v, d', pretty); }
  }

  // Numbers of RFC 8259 the parser does not read.

  /** Section 6 of RFC 8259. */
  predicate IsRfcNumber(n: Number) {
    && n.whole != [] && AreDigits(n.whole) && AreDigits(n.fraction)
    && (n.whole[0] == ZERO ==> |n.whole| == 1)
    && (n.exponent.Exponent? ==>
      && (n.exponent.mark == 69 || n.exponent.mark == 101)
      && (n.exponent.sign == [] || n.exponent.sign == [PLUS] || n.exponent.sign == [MINUS])
      && n.exponent.digits != [] && AreDigits(n.exponent.digits))
  }

  function InBrackets(b: Bytes): Bytes {
    [LSQRB] + b + [RSQRB]
  }

  lemma BracketedNumber(cfg: Config, n: Number) returns (d: Document, v: Json)
    requires IsNumber(n)
    ensures Spells(cfg, d, v) && Text(d) == InBrackets(NumberText(n))
    ensures v == Arr([Leaf(NumberKind(n), NumberText(n))])
    ensures d.pieces == [Piece([], Punct(LBracket)), Piece([], Numeral(n)), Piece([], Punct(RBracket))]
  {
    var text, kind := NumberText(n), NumberKind(n);
    v := Arr([Leaf(kind, text)]);
    var x, y, z := Punct(LBracket), Numeral(n), Punct(RBracket);
    var ps := [Piece([], x)] + [Piece([], y)] + [Piece([], z)];
    d := Document(ps, []);
    hide NumberText, IsNumber, NumberKind;
    ShowsOne([], x);
    ShowsOne([], y);
    ShowsOne([], z);
    ShowsAppend([Piece([], x)], [LBracket], [Piece([], y)], [ScalarSym(kind, text)]);
    ShowsAppend([Piece([], x)] + [Piece([], y)], [LBracket] + [ScalarSym(kind, text)], [Piece([], z)], [RBracket]);
    TextOne([], x);
    TextOne([], y);
    TextOne([], z);
    TextAppend([Piece([], x)], [Piece([], y)]);
    TextAppend([Piece([], x)] + [Piece([], y)], [Piece([], z)]);
    BlanksSeparate(false, ps);
    NoFillers();
    NumberKinds(n);
    hide PiecesText, FillersText, PiecesSymbols, Separated;
    assert ItemSymbols(v.items) == [ScalarSym(kind, text)];
    assert Symbols(v) == [LBracket] + [ScalarSym(kind, text)] + [RBracket];
    assert ArePieces(cfg, ps);
    assert IsJson(v.items[0]);
    assert IsJson(v);
    assert AreLexemes(ps);
    assert PiecesSymbols(ps) == Symbols(v);
    assert Separated(false, ps);
  }

  /** The machine inside the brackets of an array whose first element has not begun. */
  function InArray(): Machine {
    START.(state := AR, stack := [ArrayMode], events := [Event(ArrayBegin, [])])
  }

  lemma ReadBracket(cfg: Config)
    requires cfg.Unlimited()
    ensures Steps(cfg, START, [LSQRB], InArray())
  {
    StepIgnoring(cfg, START, LSQRB);
    hide Step;
    ReadByte(cfg, START, LSQRB, InArray());
  }

  lemma MarkRejected(cfg: Config, m: Machine, ch: Byte)
    requires Safe(m) && m.left == 0 && m.state == Z0 && (ch == 69 || ch == 101)
    ensures Step(cfg, m, ch).err == UnexpectedChar
  {
    MarkCell(ch);
    hide Transition, BufferPolicy, CharClass;
    StepIgnoring(cfg, m, ch);
    hide Step;
  }

  lemma MarkCell(ch: Byte)
    requires ch == 69 || ch == 101
    ensures CharClass(ch) != ErrorClass
    ensures Transition(Z0, CharClass(ch)) == Reject && BufferPolicy(Z0, CharClass(ch)) == Ignore
  {
    assert CharClass(ch) == CapE || CharClass(ch) == LowE;
    hide CharClass, StructureRow, StringRow, CommentRow, WordRow;
  }

  lemma ZeroExponentRejected(cfg: Config, n: Number)
    requires IsRfcNumber(n) && n.exponent.Exponent? && n.whole[0] == ZERO && n.fraction == []
    ensures Run(cfg, START, InBrackets(NumberText(n))).err != Success
  {
    hide Step, Steps, Run;
    var free := cfg.WithoutLimits();
    var whole := n.(exponent := NoExponent);
    var w := SignText(whole) + whole.whole;
    var m := Stored(InArray(), w, Z0, IntKind);
    ReadBracket(free);
    ReadWhole(free, InArray(), whole);
    StepsTrans(free, START, [LSQRB], InArray(), w, m);
    MarkRejected(free, m, n.exponent.mark);
    var rest := [n.exponent.mark] + (n.exponent.sign + n.exponent.digits + [RSQRB]);
    assert InBrackets(NumberText(n)) == [LSQRB] + w + rest;
    FirstByteFails(free, m, rest);
    ThenFails(free, START, [LSQRB] + w, m, rest);
    if Run(cfg, START, InBrackets(NumberText(n))).err == Success { RunWithoutLimits(cfg, START, InBrackets(NumberText(n))); }
  }

  lemma FirstByteFails(cfg: Config, m: Machine, s: Bytes)
    requires Safe(m) && s != [] && Step(cfg, m, s[0]).err != Success
    ensures Run(cfg, m, s).err == Step(cfg, m, s[0]).err
  {
    hide Step;
  }

  lemma ThenFails(cfg: Config, m: Machine, a: Bytes, m': Machine, b: Bytes)
    requires Steps(cfg, m, a, m') && Run(cfg, m', b).err != Success
    ensures Run(cfg, m, a + b).err == Run(cfg, m', b).err
  {
    RunAppend(cfg, m, a, b);
    hide Run;
  }

  /** A number of RFC 8259 is read exactly when it is not a bare zero with an exponent, and fits the data limit. */
  lemma NumbersRead(cfg: Config, n: Number)
    requires IsRfcNumber(n)
    ensures Accepts(cfg, InBrackets(NumberText(n))) <==>
      !(n.whole[0] == ZERO && n.fraction == [] && n.exponent.Exponent?) && (cfg.maxData > 0 ==> |NumberText(n)| < cfg.maxData)
  {
    hide Run;
    if n.whole[0] == ZERO && n.fraction == [] && n.exponent.Exponent? {
      ZeroExponentRejected(cfg, n);
    } else {
      var d, v := BracketedNumber(cfg, n);
      DocumentsWithLimits(cfg, d, v);
      BracketedFits(cfg, n, d, v);
    }
  }

  lemma BracketedFits(cfg: Config, n: Number, d: Document, v: Json)
    requires Spells(cfg, d, v) && v == Arr([Leaf(NumberKind(n), NumberText(n))])
    requires d.pieces == [Piece([], Punct(LBracket)), Piece([], Numeral(n)), Piece([], Punct(RBracket))]
    ensures FitsLimits(cfg, d, v) <==> (cfg.maxData > 0 ==> |NumberText(n)| < cfg.maxData)
  {
    hide NumberText, IsNumber, NumberKind;
    assert v.items[1..] == [] && Depth(v.items[0]) == 0;
    assert ItemsDepth(v.items[1..]) == 0 && Depth(v) == 1 + ItemsDepth(v.items);
    assert LexemeFits(cfg, d.pieces[1].lexeme) <==> (cfg.maxData > 0 ==> |NumberText(n)| < cfg.maxData);
  }

  /** For example, 0e1. */
  lemma ZeroWithExponent(cfg: Config)
    ensures !Accepts(cfg, InBrackets([48, 101, 49]))
  {
    var n := Number(false, [48], [], Exponent(101, [], [49]));
    assert NumberText(n) == [48, 101, 49];
    NumbersRead(cfg, n);
  }

  // Comments after an exponent.

  /** Straight after a number with an exponent no comment is read, wherever the number stands and whatever is allowed. */
  lemma CommentAfterExponent(cfg: Config, m: Machine, n: Number, ch: Byte, rest: Bytes)
    requires Safe(m) && m.left == 0 && ExpectsValue(m.state)
    requires IsNumber(n) && n.exponent.Exponent? && (ch == SLASH || ch == HASH)
    ensures Run(cfg, m, NumberText(n) + [ch] + rest).err != Success
  {
    hide Step, Steps, Run, NumberText, Transition;
    var free := cfg.WithoutLimits();
    var m' := ReadNumber(free, m, n);
    if Step(free, m', ch).err == Success {
      ReadMeans(free, m', ch);
      NoCommentAfterExponent();
    }
    var s := NumberText(n) + [ch] + rest;
    assert s == NumberText(n) + ([ch] + rest);
    FirstByteFails(free, m', [ch] + rest);
    ThenFails(free, m, NumberText(n), m', [ch] + rest);
    if Run(cfg, m, s).err == Success { RunWithoutLimits(cfg, m, s); }
  }

  /** For example, [1e5 with a comment in front of the closing bracket. */
  lemma CommentAfter1e5(cfg: Config)
    ensures !Accepts(cfg, InBrackets([49, 101, 53, SLASH, STAR, STAR, SLASH]))
  {
    var n := Number(false, [49], [], Exponent(101, [], [53]));
    var free := cfg.WithoutLimits();
    var rest := [STAR, STAR, SLASH, RSQRB];
    var s := InBrackets([49, 101, 53, SLASH, STAR, STAR, SLASH]);
    assert NumberText(n) == [49, 101, 53];
    assert s == [LSQRB] + (NumberText(n) + [SLASH] + rest);
    hide Step, Steps, Run, NumberText;
    ReadBracket(free);
    CommentAfterExponent(free, InArray(), n, SLASH, rest);
    ThenFails(free, START, [LSQRB], InArray(), NumberText(n) + [SLASH] + rest);
    if Run(cfg, START, s).err == Success { RunWithoutLimits(cfg, START, s); }
  }

  // Surrogates.

  /** The text goes on with the escape of a low surrogate. */
  predicate StartsWithLow(s: Bytes) {
    && |s| >= 6 && s[..2] == [BACKSLASH, LOWER_U]
    && IsFourHex(s[2..6]) && IsLowSurrogate(FourHex(s[2..6]))
  }

  lemma AnyStep(cfg: Config, m: Machine, s: Bytes)
    requires Safe(m) && s != [] && Run(cfg, m, s).err == Success
    ensures Step(cfg, m, s[0]).err == Success && Run(cfg, Step(cfg, m, s[0]).m, s[1..]).err == Success
  {
    hide Step, Safe;
  }

  lemma HighNeedsBackslashU(cfg: Config, m: Machine, s: Bytes)
    requires cfg.Unlimited() && Safe(m) && m.state == D1 && m.left == 0 && |s| >= 2 && Run(cfg, m, s).err == Success
    ensures s[..2] == [BACKSLASH, LOWER_U] && Run(cfg, m.(state := U1), s[2..]).err == Success
  {
    hide Step, Run;
    AnyStep(cfg, m, s);
    PairBytesRead(cfg, m, s[0]);
    ReadBackslash(cfg, m);
    AnyStep(cfg, m.(state := D2), s[1..]);
    PairBytesRead(cfg, m.(state := D2), s[1]);
    ReadLetterU(cfg, m.(state := D2));
    assert s[1..][1..] == s[2..];
  }

  lemma ThreeStored(m: Machine, s: Bytes)
    requires |s| >= 3
    ensures Stored(Stored(Stored(m, [s[0]], U2, m.kind), [s[1]], U3, m.kind), [s[2]], U4, m.kind) == Stored(m, s[..3], U4, m.kind)
  {
    assert m.buf + [s[0]] + [s[1]] + [s[2]] == m.buf + s[..3];
  }

  lemma DigitRun(cfg: Config, m: Machine, s: Bytes) returns (m': Machine)
    requires cfg.Unlimited() && Safe(m) && m.left == 0 && (m.state == U1 || m.state == U2 || m.state == U3)
    requires s != [] && Run(cfg, m, s).err == Success
    ensures IsHexByte(s[0]) && m' == Stored(m, [s[0]], NextDigit(m.state), m.kind) && Safe(m')
    ensures Run(cfg, m', s[1..]).err == Success
  {
    hide Step, Run, IsHexByte, Safe;
    AnyStep(cfg, m, s);
    HexDigitRead(cfg, m, s[0]);
    ReadHexDigit(cfg, m, s[0]);
    m' := Step(cfg, m, s[0]).m;
  }

  lemma FourDigitsRun(cfg: Config, m: Machine, s: Bytes)
    requires cfg.Unlimited() && m.left == 0 && m.state == U1 && |s| >= 4 && Run(cfg, m, s).err == Success
    ensures IsFourHex(s[..4]) && AfterUnit(m, FourHex(s[..4])).err == Success
  {
    assert Safe(m);
    hide Run, FourHex, AfterUnit, IsHexByte, Safe, Stored;
    var m1 := DigitRun(cfg, m, s);
    StoredFields(m, s[0], m1);
    var m2 := DigitRun(cfg, m1, s[1..]);
    StoredFields(m1, s[1], m2);
    var m3 := DigitRun(cfg, m2, s[1..][1..]);
    ThreeStored(m, s);
    Tails(s);
    LastDigitRun(cfg, m, m3, s);
  }

  lemma StoredFields(m: Machine, ch: Byte, m': Machine)
    requires m' == Stored(m, [ch], NextDigit(m.state), m.kind)
    ensures m'.left == m.left && m'.state == NextDigit(m.state) && m'.kind == m.kind
  {}

  lemma Tails(s: Bytes)
    requires |s| >= 4
    ensures s[1..][1..] == s[2..] && s[2..][1..] == s[3..] && s[1..][0] == s[1] && s[2..][0] == s[2] && s[3..][0] == s[3]
    ensures s[..4][..3] == s[..3] && s[..4][3] == s[3]
  {}

  lemma LastDigitRun(cfg: Config, m: Machine, m3: Machine, s: Bytes)
    requires cfg.Unlimited() && m.left == 0 && m.state == U1 && |s| >= 4 && Safe(m3) && Run(cfg, m3, s[3..]).err == Success
    requires m3 == Stored(m, s[..3], U4, m.kind) && IsHexByte(s[0]) && IsHexByte(s[1]) && IsHexByte(s[2])
    ensures IsFourHex(s[..4]) && AfterUnit(m, FourHex(s[..4])).err == Success
  {
    hide Run, Step, FourHex, AfterUnit, IsHexByte, Safe;
    Tails(s);
    AnyStep(cfg, m3, s[3..]);
    HexDigitRead(cfg, m3, s[3]);
    StepFourthDigit(cfg, m, s[..4]);
  }

  /** The beginning of a unicode escape that stops before its last digit. */
  predicate IsCutEscape(s: Bytes) {
    && |s| < 6
    && (|s| > 0 ==> s[0] == BACKSLASH) && (|s| > 1 ==> s[1] == LOWER_U)
    && forall i :: 2 <= i < |s| ==> IsHexByte(s[i])
  }

  function DigitsToCome(s: State): nat {
    match s case U1 => 3 case U2 => 2 case U3 => 1 case _ => 0
  }

  lemma {:induction false} CutDigits(cfg: Config, m: Machine, s: Bytes)
    requires cfg.Unlimited() && Safe(m) && m.left == 0 && |s| <= DigitsToCome(m.state)
    ensures Run(cfg, m, s).err == Success <==> forall i :: 0 <= i < |s| ==> IsHexByte(s[i])
    decreases |s|
  {
    hide Step, Safe, IsHexByte, Stored;
    if s != [] {
      if Step(cfg, m, s[0]).err == Success { HexDigitRead(cfg, m, s[0]); }
      if IsHexByte(s[0]) {
        ReadHexDigit(cfg, m, s[0]);
        StoredDigit(m, s[0]);
        CutDigits(cfg, Step(cfg, m, s[0]).m, s[1..]);
        assert forall i :: 0 < i < |s| ==> s[i] == s[1..][i - 1];
        assert forall i :: 0 <= i < |s| - 1 ==> s[1..][i] == s[i + 1];
      }
    }
  }

  lemma StoredDigit(m: Machine, ch: Byte)
    ensures var m' := Stored(m, [ch], NextDigit(m.state), m.kind);
      m'.left == m.left && (DigitsToCome(m.state) > 0 ==> DigitsToCome(m'.state) == DigitsToCome(m.state) - 1)
  {}

  /** Where the second half of a pair is due, a text too short to hold it is read exactly if it is the beginning of an escape. */
  lemma CutHalf(cfg: Config, m: Machine, s: Bytes)
    requires cfg.Unlimited() && Safe(m) && m.left == 0 && m.state == D1 && |s| < 6
    ensures Run(cfg, m, s).err == Success <==> IsCutEscape(s)
  {
    hide Step, IsHexByte;
    if |s| > 0 {
      var m1 := m.(state := D2);
      if Step(cfg, m, s[0]).err == Success { PairBytesRead(cfg, m, s[0]); }
      if s[0] == BACKSLASH {
        ReadBackslash(cfg, m);
        CutAfterBackslash(cfg, m1, s);
      }
    }
  }

  lemma CutAfterBackslash(cfg: Config, m: Machine, s: Bytes)
    requires cfg.Unlimited() && Safe(m) && m.left == 0 && m.state == D2 && 0 < |s| < 6 && s[0] == BACKSLASH
    ensures Run(cfg, m, s[1..]).err == Success <==> IsCutEscape(s)
  {
    hide Step, IsHexByte;
    if |s| > 1 {
      if Step(cfg, m, s[1]).err == Success { PairBytesRead(cfg, m, s[1]); }
      if s[1] == LOWER_U {
        ReadLetterU(cfg, m);
        CutDigits(cfg, m.(state := U1), s[2..]);
        assert s[1..][1..] == s[2..];
        assert forall i :: 2 <= i < |s| ==> s[i] == s[2..][i - 2];
        assert forall i :: 0 <= i < |s| - 2 ==> s[2..][i] == s[i + 2];
      }
    }
  }

  /** What may follow the escape of a high surrogate, as far as the text goes. */
  predicate GoesOnWithLow(rest: Bytes) {
    if |rest| >= 6 then StartsWithLow(rest) else IsCutEscape(rest)
  }

  /**
    In a string, the escape of a surrogate is only ever read when it is a high one and the escape of a low one
    follows; a text that ends too early for that may end within any unicode escape. For a text that ends
    with the second escape or before, that is also all it takes.
   */
  lemma SurrogatesComeInPairs(cfg: Config, m: Machine, d: Bytes, rest: Bytes)
    requires InString(m) && IsFourHex(d) && !IsScalarValue(FourHex(d))
    ensures Safe(m)
    ensures Run(cfg, m, [BACKSLASH, LOWER_U] + d + rest).err == Success ==>
      IsHighSurrogate(FourHex(d)) && GoesOnWithLow(rest)
    ensures cfg.Unlimited() && |rest| <= 6 && IsHighSurrogate(FourHex(d)) && GoesOnWithLow(rest) ==>
      Run(cfg, m, [BACKSLASH, LOWER_U] + d + rest).err == Success
  {
    hide Run, FourHex, GoesOnWithLow, IsScalarValue, InString, Safe;
    InStringIsSafe(m);
    if Run(cfg, m, [BACKSLASH, LOWER_U] + d + rest).err == Success {
      RunWithoutLimits(cfg, m, [BACKSLASH, LOWER_U] + d + rest);
      SurrogateFound(cfg.WithoutLimits(), m, d, rest);
    }
    if cfg.Unlimited() && |rest| <= 6 && IsHighSurrogate(FourHex(d)) && GoesOnWithLow(rest) {
      ReadSurrogate(cfg, m, d, rest);
    }
  }

  lemma SurrogateFound(cfg: Config, m: Machine, d: Bytes, rest: Bytes)
    requires cfg.Unlimited() && InString(m) && Safe(m) && IsFourHex(d) && !IsScalarValue(FourHex(d))
    requires Run(cfg, m, [BACKSLASH, LOWER_U] + d + rest).err == Success
    ensures IsHighSurrogate(FourHex(d)) && GoesOnWithLow(rest)
  {
    hide Step, Run, FourHex, Steps;
    var m1 := m.(state := U1);
    ReadBackslashU(cfg, m);
    RunRest(cfg, m, [BACKSLASH, LOWER_U], m1, d + rest, [BACKSLASH, LOWER_U] + d + rest);
    assert (d + rest)[..4] == d;
    FourDigitsRun(cfg, m1, d + rest);
    ReadFourDigits(cfg, m1, d);
    hide StartsWithLow;
    HighUnit(m1, FourHex(d));
    hide AfterUnit, InString, IsCutEscape;
    var m2 := m.(multi := FourHex(d), state := D1);
    RunRest(cfg, m1, d, m2, rest, d + rest);
    if |rest| >= 6 { HighNeedsLow(cfg, m2, rest); } else { CutHalf(cfg, m2, rest); }
  }

  lemma ReadSurrogate(cfg: Config, m: Machine, d: Bytes, rest: Bytes)
    requires cfg.Unlimited() && InString(m) && Safe(m) && IsFourHex(d) && IsHighSurrogate(FourHex(d))
    requires |rest| <= 6 && GoesOnWithLow(rest)
    ensures Run(cfg, m, [BACKSLASH, LOWER_U] + d + rest).err == Success
  {
    hide Step, Run, FourHex, Steps, IsCutEscape, StartsWithLow;
    var m1 := m.(state := U1);
    var m2 := m.(multi := FourHex(d), state := D1);
    ReadBackslashU(cfg, m);
    ReadFourDigits(cfg, m1, d);
    StepsTrans(cfg, m, [BACKSLASH, LOWER_U], m1, d, m2);
    if |rest| == 6 {
      ReadLow(cfg, m2, rest);
    } else {
      CutHalf(cfg, m2, rest);
    }
    ThenGoesOn(cfg, m, [BACKSLASH, LOWER_U] + d, m2, rest);
  }

  lemma ReadLow(cfg: Config, m: Machine, s: Bytes)
    requires cfg.Unlimited() && Safe(m) && m.left == 0 && m.state == D1 && m.multi != 0 && |s| == 6 && StartsWithLow(s)
    ensures Run(cfg, m, s).err == Success
  {
    hide Step, Run, FourHex, Steps;
    var m1 := m.(state := U1);
    ReadBackslashU(cfg, m);
    ReadFourDigits(cfg, m1, s[2..6]);
    assert s == [BACKSLASH, LOWER_U] + s[2..6];
    assert Run(cfg, m1, s[2..6]).err == Success by { hide AfterUnit; DoneSteps(cfg, m1, s[2..6], AfterUnit(m1, FourHex(s[2..6])).m); }
    ThenGoesOn(cfg, m, [BACKSLASH, LOWER_U], m1, s[2..6]);
  }

  lemma DoneSteps(cfg: Config, m: Machine, s: Bytes, m': Machine)
    requires Steps(cfg, m, s, m')
    ensures Run(cfg, m, s).err == Success
  {
    hide Run;
  }

  lemma ThenGoesOn(cfg: Config, m: Machine, a: Bytes, m': Machine, b: Bytes)
    requires Steps(cfg, m, a, m') && Run(cfg, m', b).err == Success
    ensures Run(cfg, m, a + b).err == Success
  {
    RunAppend(cfg, m, a, b);
    hide Run;
  }

  /** The check comes late: after D800 the escape begun with a zero digit is read on, and can only fail. */
  lemma DoomedEscape(cfg: Config, m: Machine, more: Bytes)
    requires cfg.Unlimited() && InString(m)
    ensures Safe(m)
    ensures Run(cfg, m, [BACKSLASH, LOWER_U] + [68, 56, 48, 48] + [BACKSLASH, LOWER_U, 48]).err == Success
    ensures |more| >= 3 ==>
      Run(cfg, m, [BACKSLASH, LOWER_U] + [68, 56, 48, 48] + ([BACKSLASH, LOWER_U, 48] + more)).err != Success
  {
    hide Run;
    var d, cut := [68, 56, 48, 48], [BACKSLASH, LOWER_U, 48];
    assert IsFourHex(d) && FourHex(d) == 0xD800;
    assert IsCutEscape(cut);
    hide FourHex;
    SurrogatesComeInPairs(cfg, m, d, cut);
    SurrogatesComeInPairs(cfg, m, d, cut + more);
    if |more| >= 3 { ZeroIsNotLow(cut + more); }
  }

  lemma ZeroIsNotLow(s: Bytes)
    requires |s| >= 6 && s[2] == 48
    ensures !GoesOnWithLow(s)
  {}

  lemma HighUnit(m: Machine, u: nat)
    requires u < 0x10000 && m.multi == 0 && !IsScalarValue(u) && AfterUnit(m, u).err == Success
    ensures IsHighSurrogate(u) && AfterUnit(m, u).m == m.(multi := u, state := D1, kind := NoKind)
  {}

  lemma HighNeedsLow(cfg: Config, m: Machine, s: Bytes)
    requires cfg.Unlimited() && Safe(m) && m.state == D1 && m.left == 0 && m.multi != 0
    requires |s| >= 6 && Run(cfg, m, s).err == Success
    ensures StartsWithLow(s)
  {
    hide Run, FourHex;
    HighNeedsBackslashU(cfg, m, s);
    FourDigitsRun(cfg, m.(state := U1), s[2..]);
    assert s[2..][..4] == s[2..6];
  }

  lemma RunRest(cfg: Config, m: Machine, a: Bytes, m': Machine, b: Bytes, s: Bytes)
    requires Steps(cfg, m, a, m') && s == a + b && Run(cfg, m, s).err == Success
    ensures Run(cfg, m', b).err == Success
  {
    RunAppend(cfg, m, a, b);
    hide Run;
  }
}
