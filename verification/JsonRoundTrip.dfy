/** Printing and parsing: what is printed, raw or pretty, is parsed back to the same events. */
module JsonRoundTrip {
  import opened JsonTypes
  import opened JsonTables
  import opened JsonMachine
  import opened JsonSyntax
  import opened JsonUnicode
  import opened JsonText
  import opened JsonCompleteness
  import opened JsonGrammar
  import opened JsonLimits
  import opened JsonPrinter

  // What can be printed.

  ghost predicate IsNumberText(kind: Kind, data: Bytes) {
    exists n: Number :: IsNumber(n) && NumberText(n) == data && NumberKind(n) == kind
  }

  /** Strings of loose UTF-8, binary strings of any bytes, numbers of the parser's language. */
  ghost predicate IsPrintable(v: Json) {
    match v
    case Leaf(kind, data) =>
      || kind == BStringKind
      || (kind == StringKind && IsLooseUtf8(data))
      || ((kind == IntKind || kind == FloatKind) && IsNumberText(kind, data))
      || (IsWordKind(kind) && data == [])
    case Arr(items) => forall i :: 0 <= i < |items| ==> IsPrintable(items[i])
    case Obj(members) =>
      forall i :: 0 <= i < |members| ==> IsLooseUtf8(members[i].key) && IsPrintable(members[i].value)
  }

  /** The UTF-8 of bytes read as Latin-1. */
  function Latin1(data: Bytes): Bytes {
    if data == [] then [] else Utf8(data[0]) + Latin1(data[1..])
  }

  /** What a printed document is read back as: a binary string as text, everything else as itself. */
  function ReadBack(v: Json): Json {
    match v
    case Leaf(kind, data) => if kind == BStringKind then Leaf(StringKind, Latin1(data)) else v
    case Arr(items) => Arr(ReadBackItems(items))
    case Obj(members) => Obj(ReadBackMembers(members))
  }

  function ReadBackItems(items: seq<Json>): seq<Json> {
    if items == [] then [] else [ReadBack(items[0])] + ReadBackItems(items[1..])
  }

  function ReadBackMembers(members: seq<Member>): seq<Member> {
    if members == [] then []
    else [Member(members[0].key, ReadBack(members[0].value))] + ReadBackMembers(members[1..])
  }

  // Strings.

  /** A byte as `\u00XX`. */
  function UnicodePiece(c: Byte): StrPiece {
    Unit([48, 48, HexDigit(c / 16), HexDigit(c % 16)])
  }

  function EscapePiece(c: Byte): StrPiece {
    if c == 8 then Escaped(98)
    else if c == 9 then Escaped(116)
    else if c == 10 then Escaped(110)
    else if c == 12 then Escaped(102)
    else if c == 13 then Escaped(114)
    else if c == QUOTE || c == BACKSLASH then Escaped(c)
    else if c < 32 || c >= 127 then UnicodePiece(c)
    else Plain(c)
  }

  lemma HexDigitIsHex(n: nat)
    requires n < 16
    ensures IsHexByte(HexDigit(n)) && Hex(HexDigit(n)) == n
  {}

  lemma EscapePieceText(c: Byte)
    ensures IsStrPiece(EscapePiece(c)) && PieceText(EscapePiece(c)) == EscapeText(c)
    ensures PieceData(EscapePiece(c)) == Utf8(c)
  {
    HexDigitIsHex(c / 16);
    HexDigitIsHex(c % 16);
    var d := [48, 48, HexDigit(c / 16), HexDigit(c % 16)];
    assert IsFourHex(d) && FourHex(d) == c;
    assert PieceText(UnicodePiece(c)) == [BACKSLASH, LOWER_U, 48, 48, HexDigit(c / 16), HexDigit(c % 16)];
    hide FourHex, HexDigit;
  }

  function BinaryPieces(data: Bytes): seq<StrPiece> {
    if data == [] then [] else [EscapePiece(data[0])] + BinaryPieces(data[1..])
  }

  lemma {:induction false} BinaryString(data: Bytes)
    ensures IsString(BinaryPieces(data))
    ensures StringText(BinaryPieces(data)) == BinaryBody(data) && StringData(BinaryPieces(data)) == Latin1(data)
    decreases |data|
  {
    if data != [] {
      EscapePieceText(data[0]);
      BinaryString(data[1..]);
      hide EscapePiece, EscapeText, PieceText, PieceData, Utf8, IsStrPiece;
      assert BinaryPieces(data)[1..] == BinaryPieces(data[1..]);
    }
  }

  function TextPieces(data: Bytes): seq<StrPiece>
    requires IsLooseUtf8(data)
    decreases |data|
  {
    if data == [] then []
    else if data[0] < 0x80 then [if data[0] == 127 then Plain(127) else EscapePiece(data[0])] + TextPieces(data[1..])
    else
      var n := 1 + Utf8Header(data[0]);
      [Multi(data[..n])] + TextPieces(data[n..])
  }

  lemma {:induction false} HighBytes(b: Bytes, rest: Bytes)
    requires forall i :: 0 <= i < |b| ==> b[i] >= 0x80
    ensures StringBody(b + rest) == b + StringBody(rest)
    decreases |b|
  {
    hide StringByte;
    if b == [] {
      assert b + rest == rest;
    } else {
      assert (b + rest)[1..] == b[1..] + rest;
      HighByte(b[0]);
      HighBytes(b[1..], rest);
      assert b == [b[0]] + b[1..];
    }
  }

  lemma HighByte(c: Byte)
    requires c >= 0x80
    ensures StringByte(c) == [c]
  {}

  lemma AsciiPiece(c: Byte)
    requires c < 0x80
    ensures var p := if c == 127 then Plain(127) else EscapePiece(c);
      IsStrPiece(p) && PieceText(p) == StringByte(c) && PieceData(p) == [c]
  {
    EscapePieceText(c);
  }

  lemma FirstPiece(p: StrPiece, ps: seq<StrPiece>)
    requires IsStrPiece(p) && IsString(ps)
    ensures IsString([p] + ps)
    ensures StringText([p] + ps) == PieceText(p) + StringText(ps)
    ensures StringData([p] + ps) == PieceData(p) + StringData(ps)
  {
    hide PieceText, PieceData, IsStrPiece;
    assert ([p] + ps)[1..] == ps;
  }

  /** The first character of a string of loose UTF-8, as a piece. */
  function FirstCharacter(data: Bytes): StrPiece
    requires IsLooseUtf8(data) && data != []
  {
    if data[0] == 127 then Plain(127)
    else if data[0] < 0x80 then EscapePiece(data[0])
    else Multi(data[..1 + Utf8Header(data[0])])
  }

  lemma FirstCharacterText(data: Bytes, n: nat)
    requires IsLooseUtf8(data) && data != [] && n == if data[0] < 0x80 then 1 else 1 + Utf8Header(data[0])
    ensures IsStrPiece(FirstCharacter(data)) && PieceData(FirstCharacter(data)) == data[..n]
    ensures StringBody(data) == PieceText(FirstCharacter(data)) + StringBody(data[n..])
  {
    if data[0] < 0x80 { AsciiCharacter(data); } else { LongCharacterText(data, n); }
  }

  lemma AsciiCharacter(data: Bytes)
    requires IsLooseUtf8(data) && data != [] && data[0] < 0x80
    ensures IsStrPiece(FirstCharacter(data)) && PieceData(FirstCharacter(data)) == data[..1]
    ensures StringBody(data) == PieceText(FirstCharacter(data)) + StringBody(data[1..])
  {
    hide EscapePiece, StringByte, PieceText, PieceData, IsStrPiece, IsLooseUtf8;
    AsciiPiece(data[0]);
    assert data[..1] == [data[0]];
  }

  lemma LongCharacterText(data: Bytes, n: nat)
    requires IsLooseUtf8(data) && data != [] && data[0] >= 0x80 && n == 1 + Utf8Header(data[0])
    ensures IsStrPiece(FirstCharacter(data)) && PieceData(FirstCharacter(data)) == data[..n]
    ensures StringBody(data) == PieceText(FirstCharacter(data)) + StringBody(data[n..])
  {
    hide EscapePiece, StringBody, IsLooseUtf8, IsMulti, Utf8Header;
    LongCharacter(data, n);
    HighBytes(data[..n], data[n..]);
    assert data == data[..n] + data[n..];
  }

  lemma LongCharacter(data: Bytes, n: nat)
    requires IsLooseUtf8(data) && data != [] && data[0] >= 0x80 && n == 1 + Utf8Header(data[0])
    ensures n <= |data| && IsMulti(data[..n]) && forall i :: 0 <= i < n ==> data[i] >= 0x80
  {
    var b := data[..n];
    assert IsMulti(b);
    forall i | 0 <= i < n ensures data[i] >= 0x80 {
      assert b[i] == data[i];
    }
  }

  lemma FirstOfText(data: Bytes, n: nat)
    requires IsLooseUtf8(data) && data != [] && n == if data[0] < 0x80 then 1 else 1 + Utf8Header(data[0])
    ensures n <= |data| && IsLooseUtf8(data[n..]) && TextPieces(data) == [FirstCharacter(data)] + TextPieces(data[n..])
    ensures data == data[..n] + data[n..]
  {
    hide EscapePiece, IsMulti;
  }

  lemma {:induction false} TextString(data: Bytes)
    requires IsLooseUtf8(data)
    ensures IsString(TextPieces(data))
    ensures StringText(TextPieces(data)) == StringBody(data) && StringData(TextPieces(data)) == data
    decreases |data|
  {
    hide EscapePiece, StringText, StringData, StringBody, IsString, PieceText, PieceData, IsStrPiece, FirstCharacter, TextPieces, IsLooseUtf8;
    if data == [] {
      EmptyString();
      NoPiecesOfText();
    } else {
      var n := if data[0] < 0x80 then 1 else 1 + Utf8Header(data[0]);
      FirstOfText(data, n);
      FirstCharacterText(data, n);
      TextString(data[n..]);
      FirstPiece(FirstCharacter(data), TextPieces(data[n..]));
    }
  }

  lemma NoPiecesOfText()
    ensures TextPieces([]) == []
  {}

  lemma EmptyString()
    ensures IsString([]) && StringText([]) == [] && StringData([]) == [] && StringBody([]) == []
  {}

  // The document that is printed.

  ghost function PickNumber(kind: Kind, data: Bytes): (n: Number)
    requires IsNumberText(kind, data)
    ensures IsNumber(n) && NumberText(n) == data && NumberKind(n) == kind
  {
    var n: Number :| IsNumber(n) && NumberText(n) == data && NumberKind(n) == kind;
    n
  }

  ghost function LeafLexeme(kind: Kind, data: Bytes): Lexeme
    requires IsPrintable(Leaf(kind, data))
  {
    if kind == BStringKind then Quoted(BinaryPieces(data))
    else if kind == StringKind then Quoted(TextPieces(data))
    else if IsWordKind(kind) then Word(kind)
    else Numeral(PickNumber(kind, data))
  }

  function TabFillers(n: int): seq<Filler> {
    if n <= 0 then [] else [Blank(TAB)] + TabFillers(n - 1)
  }

  /** The line break and indentation before a lexeme, when printing prettily. */
  function Break(pretty: bool, level: int): seq<Filler> {
    if pretty then [Blank(LF)] + TabFillers(level) else []
  }

  ghost function ValuePieces(v: Json, pretty: bool, level: int, pre: seq<Filler>): seq<Piece>
    requires IsPrintable(v)
    decreases v, 1
  {
    match v
    case Leaf(kind, data) => [Piece(pre, LeafLexeme(kind, data))]
    case Arr(items) =>
      [Piece(pre, Punct(LBracket))] + ItemPieces(items, pretty, level + 1)
      + [Piece(if items == [] then [] else Break(pretty, level), Punct(RBracket))]
    case Obj(members) =>
      [Piece(pre, Punct(LBrace))] + MemberPieces(members, pretty, level + 1)
      + [Piece(if members == [] then [] else Break(pretty, level), Punct(RBrace))]
  }

  ghost function ItemPieces(items: seq<Json>, pretty: bool, level: int): seq<Piece>
    requires forall i :: 0 <= i < |items| ==> IsPrintable(items[i])
    decreases items, 0
  {
    if items == [] then []
    else
      ValuePieces(items[0], pretty, level, Break(pretty, level))
      + (if |items| == 1 then [] else [Piece([], Punct(CommaSym))])
      + ItemPieces(items[1..], pretty, level)
  }

  ghost function MemberPieces(members: seq<Member>, pretty: bool, level: int): seq<Piece>
    requires forall i :: 0 <= i < |members| ==> IsLooseUtf8(members[i].key) && IsPrintable(members[i].value)
    decreases members, 0
  {
    if members == [] then []
    else
      PairPieces(members[0], pretty, level)
      + (if |members| == 1 then [] else [Piece([], Punct(CommaSym))])
      + MemberPieces(members[1..], pretty, level)
  }

  ghost function PairPieces(m: Member, pretty: bool, level: int): seq<Piece>
    requires IsLooseUtf8(m.key) && IsPrintable(m.value)
    decreases m, 2
  {
    Head(m.key, pretty, level) + ValuePieces(m.value, pretty, level, Gap(pretty))
  }

  /** The space after a colon, when printing prettily. */
  function Gap(pretty: bool): seq<Filler> {
    if pretty then [Blank(SPACE)] else []
  }

  function Head(key: Bytes, pretty: bool, level: int): seq<Piece>
    requires IsLooseUtf8(key)
  {
    [Piece(Break(pretty, level), Quoted(TextPieces(key))), Piece([], Punct(ColonSym))]
  }

  // It spells the tree that is read back.

  predicate AreBlanks(fs: seq<Filler>) {
    forall i :: 0 <= i < |fs| ==> fs[i].Blank? && IsBlank(fs[i].ch)
  }

  /** Pieces with nothing but white space between them, for given symbols. */
  predicate Shows(ps: seq<Piece>, syms: seq<Symbol>) {
    && AreLexemes(ps) && (forall i :: 0 <= i < |ps| ==> AreBlanks(ps[i].pre))
    && PiecesSymbols(ps) == syms
  }

  lemma {:induction false} SymbolsAppend(a: seq<Piece>, b: seq<Piece>)
    requires AreLexemes(a) && AreLexemes(b)
    ensures AreLexemes(a + b) && PiecesSymbols(a + b) == PiecesSymbols(a) + PiecesSymbols(b)
    decreases |a|
  {
    hide IsLexeme, LexemeSymbol;
    if a == [] {
      assert a + b == b;
    } else {
      assert (a + b)[1..] == a[1..] + b;
      SymbolsAppend(a[1..], b);
    }
  }

  lemma ShowsAppend(a: seq<Piece>, s: seq<Symbol>, b: seq<Piece>, t: seq<Symbol>)
    requires Shows(a, s) && Shows(b, t)
    ensures Shows(a + b, s + t)
  {
    hide IsLexeme, PiecesSymbols, AreBlanks;
    SymbolsAppend(a, b);
  }

  lemma ShowsOne(pre: seq<Filler>, l: Lexeme)
    requires AreBlanks(pre) && IsLexeme(l)
    ensures Shows([Piece(pre, l)], [LexemeSymbol(l)])
  {
    hide IsLexeme, LexemeSymbol, AreBlanks;
    var ps := [Piece(pre, l)];
    assert ps[1..] == [];
    assert PiecesSymbols(ps) == [LexemeSymbol(ps[0].lexeme)] + PiecesSymbols(ps[1..]);
  }

  lemma {:induction false} TabsAreBlanks(n: int)
    ensures AreBlanks(TabFillers(n)) && FillersText(TabFillers(n)) == Tabs(n)
    decreases n
  {
    if n > 0 {
      TabsAreBlanks(n - 1);
      assert TabFillers(n)[1..] == TabFillers(n - 1);
    }
  }

  lemma BreakIsBlank(pretty: bool, level: int)
    ensures AreBlanks(Break(pretty, level))
    ensures FillersText(Break(pretty, level)) == if pretty then Indent(level) else []
  {
    TabsAreBlanks(level);
    if pretty { assert Break(pretty, level)[1..] == TabFillers(level); }
  }

  lemma LeafShows(kind: Kind, data: Bytes)
    requires IsPrintable(Leaf(kind, data))
    ensures var r := ReadBack(Leaf(kind, data)); var l := LeafLexeme(kind, data);
      r.Leaf? && IsJson(r) && IsLexeme(l) && LexemeSymbol(l) == LeafSymbol(r.kind, r.data)
  {
    hide StringData, BinaryPieces, TextPieces, IsString, NumberText, IsNumber, NumberKind, IsLooseUtf8, PickNumber, Latin1;
    if kind == BStringKind {
      BinaryString(data);
    } else if kind == StringKind {
      TextString(data);
    } else if !IsWordKind(kind) {
      var n := PickNumber(kind, data);
    }
  }

  lemma {:induction false} ValueShows(v: Json, pretty: bool, level: int, pre: seq<Filler>)
    requires IsPrintable(v) && AreBlanks(pre)
    ensures IsJson(ReadBack(v)) && Shows(ValuePieces(v, pretty, level, pre), Symbols(ReadBack(v)))
    decreases v, 1
  {
    hide Shows, AreBlanks;
    match v
    case Leaf(kind, data) =>
      LeafShows(kind, data);
      ShowsOne(pre, LeafLexeme(kind, data));
    case Arr(items) =>
      ItemsShow(items, pretty, level + 1);
      BracketsShow(LBracket, RBracket, pretty, level, pre, items == [], ItemPieces(items, pretty, level + 1), ItemSymbols(ReadBackItems(items)));
    case Obj(members) =>
      MembersShow(members, pretty, level + 1);
      BracketsShow(LBrace, RBrace, pretty, level, pre, members == [], MemberPieces(members, pretty, level + 1), MemberSymbols(ReadBackMembers(members)));
  }

  lemma BracketsShow(open: Symbol, close: Symbol, pretty: bool, level: int, pre: seq<Filler>, empty: bool, ps: seq<Piece>, syms: seq<Symbol>)
    requires IsPunct(open) && IsPunct(close) && AreBlanks(pre) && Shows(ps, syms)
    ensures Shows([Piece(pre, Punct(open))] + ps + [Piece(if empty then [] else Break(pretty, level), Punct(close))],
                  [open] + syms + [close])
  {
    BreakIsBlank(pretty, level);
    hide Shows;
    var end := if empty then [] else Break(pretty, level);
    ShowsOne(pre, Punct(open));
    ShowsOne(end, Punct(close));
    ShowsAppend([Piece(pre, Punct(open))], [open], ps, syms);
    ShowsAppend([Piece(pre, Punct(open))] + ps, [open] + syms, [Piece(end, Punct(close))], [close]);
  }

  lemma CommaShows(more: bool)
    ensures Shows(if more then [Piece([], Punct(CommaSym))] else [], if more then [CommaSym] else [])
  {
    if more { ShowsOne([], Punct(CommaSym)); }
  }

  lemma {:induction false} ItemsShow(items: seq<Json>, pretty: bool, level: int)
    requires forall i :: 0 <= i < |items| ==> IsPrintable(items[i])
    ensures |ReadBackItems(items)| == |items| && IsJson(Arr(ReadBackItems(items)))
    ensures Shows(ItemPieces(items, pretty, level), ItemSymbols(ReadBackItems(items)))
    decreases items, 0
  {
    if items != [] {
      hide Shows;
      var back := ReadBackItems(items[1..]);
      BreakIsBlank(pretty, level);
      ValueShows(items[0], pretty, level, Break(pretty, level));
      ItemsShow(items[1..], pretty, level);
      var v, s := ValuePieces(items[0], pretty, level, Break(pretty, level)), Symbols(ReadBack(items[0]));
      var comma := if |items| == 1 then [] else [Piece([], Punct(CommaSym))];
      var sym := if |items| == 1 then [] else [CommaSym];
      CommaShows(|items| != 1);
      ShowsAppend(v, s, comma, sym);
      ShowsAppend(v + comma, s + sym, ItemPieces(items[1..], pretty, level), ItemSymbols(back));
      assert ReadBackItems(items)[1..] == back;
    }
  }

  lemma {:induction false} MembersShow(members: seq<Member>, pretty: bool, level: int)
    requires forall i :: 0 <= i < |members| ==> IsLooseUtf8(members[i].key) && IsPrintable(members[i].value)
    ensures |ReadBackMembers(members)| == |members| && IsJson(Obj(ReadBackMembers(members)))
    ensures Shows(MemberPieces(members, pretty, level), MemberSymbols(ReadBackMembers(members)))
    decreases members, 0
  {
    if members != [] {
      hide Shows;
      var back := ReadBackMembers(members[1..]);
      var first := Member(members[0].key, ReadBack(members[0].value));
      PairShows(members[0], pretty, level);
      MembersShow(members[1..], pretty, level);
      var v, s := PairPieces(members[0], pretty, level), PairSymbols(first);
      var comma := if |members| == 1 then [] else [Piece([], Punct(CommaSym))];
      var sym := if |members| == 1 then [] else [CommaSym];
      CommaShows(|members| != 1);
      ShowsAppend(v, s, comma, sym);
      ShowsAppend(v + comma, s + sym, MemberPieces(members[1..], pretty, level), MemberSymbols(back));
      hide PairSymbols;
      assert ReadBackMembers(members) == [first] + back && ReadBackMembers(members)[1..] == back;
    }
  }

  lemma {:induction false} PairShows(m: Member, pretty: bool, level: int)
    requires IsLooseUtf8(m.key) && IsPrintable(m.value)
    ensures IsJson(ReadBack(m.value))
    ensures Shows(PairPieces(m, pretty, level), PairSymbols(Member(m.key, ReadBack(m.value))))
    decreases m, 2
  {
    hide Shows;
    BreakIsBlank(pretty, level);
    TextString(m.key);
    var key := Quoted(TextPieces(m.key));
    var gap := Gap(pretty);
    ShowsOne(Break(pretty, level), key);
    ShowsOne([], Punct(ColonSym));
    ValueShows(m.value, pretty, level, gap);
    var k, c := [Piece(Break(pretty, level), key)], [Piece([], Punct(ColonSym))];
    ShowsAppend(k, [TextSym(m.key)], c, [ColonSym]);
    ShowsAppend(k + c, [TextSym(m.key)] + [ColonSym], ValuePieces(m.value, pretty, level, gap), Symbols(ReadBack(m.value)));
    assert [TextSym(m.key)] + [ColonSym] == [TextSym(m.key), ColonSym];
    assert PairPieces(m, pretty, level) == k + c + ValuePieces(m.value, pretty, level, gap);
  }

  // It is what is printed.

  lemma {:induction false} PrintAppend(p: Print, a: seq<Event>, b: seq<Event>, pretty: bool)
    ensures PrintAll(p, a + b, pretty) == PrintAll(PrintAll(p, a, pretty), b, pretty)
    decreases |a|
  {
    hide PrintEvent;
    if a == [] {
      assert a + b == b;
    } else {
      assert (a + b)[1..] == a[1..] + b;
      PrintAppend(PrintEvent(p, a[0], pretty), a[1..], b, pretty);
    }
  }

  lemma PrintOne(p: Print, e: Event, pretty: bool)
    ensures PrintAll(p, [e], pretty) == PrintEvent(p, e, pretty)
  {
    hide PrintEvent;
    assert [e][1..] == [];
  }

  lemma {:induction false} TextAppend(a: seq<Piece>, b: seq<Piece>)
    ensures PiecesText(a + b) == PiecesText(a) + PiecesText(b)
    decreases |a|
  {
    hide LexemeText, FillersText;
    if a == [] {
      assert a + b == b;
    } else {
      assert (a + b)[1..] == a[1..] + b;
      TextAppend(a[1..], b);
    }
  }

  lemma TextOne(pre: seq<Filler>, l: Lexeme)
    ensures PiecesText([Piece(pre, l)]) == FillersText(pre) + LexemeText(l)
  {
    hide LexemeText, FillersText;
    assert [Piece(pre, l)][1..] == [];
  }

  lemma NoFillers()
    ensures FillersText([]) == []
  {}

  /** The filler before a value comes first in its text. */
  lemma PreText(v: Json, pretty: bool, level: int, pre: seq<Filler>)
    requires IsPrintable(v)
    ensures PiecesText(ValuePieces(v, pretty, level, pre)) ==
      FillersText(pre) + PiecesText(ValuePieces(v, pretty, level, []))
  {
    SamePieces(v, pretty, level, pre);
    NoFillers();
    hide ValuePieces;
    FirstFillers(ValuePieces(v, pretty, level, pre), ValuePieces(v, pretty, level, []));
  }

  lemma FirstFillers(ps: seq<Piece>, qs: seq<Piece>)
    requires |ps| == |qs| > 0 && ps[1..] == qs[1..] && qs[0].pre == [] && ps[0].lexeme == qs[0].lexeme
    ensures PiecesText(ps) == FillersText(ps[0].pre) + PiecesText(qs)
  {
    hide LexemeText, FillersText;
    NoFillers();
  }

  lemma SamePieces(v: Json, pretty: bool, level: int, pre: seq<Filler>)
    requires IsPrintable(v)
    ensures var ps, qs := ValuePieces(v, pretty, level, pre), ValuePieces(v, pretty, level, []);
      |ps| == |qs| > 0 && ps[1..] == qs[1..] && ps[0].pre == pre && qs[0].pre == [] && ps[0].lexeme == qs[0].lexeme
  {
    hide ItemPieces, MemberPieces, Break, LeafLexeme;
    match v
    case Leaf(_, _) =>
    case Arr(items) =>
      FirstPieces(pre, Punct(LBracket), ItemPieces(items, pretty, level + 1),
                  [Piece(if items == [] then [] else Break(pretty, level), Punct(RBracket))]);
    case Obj(members) =>
      FirstPieces(pre, Punct(LBrace), MemberPieces(members, pretty, level + 1),
                  [Piece(if members == [] then [] else Break(pretty, level), Punct(RBrace))]);
  }

  lemma FirstPieces(pre: seq<Filler>, l: Lexeme, a: seq<Piece>, b: seq<Piece>)
    ensures var ps, qs := [Piece(pre, l)] + a + b, [Piece([], l)] + a + b;
      |ps| == |qs| > 0 && ps[1..] == qs[1..] && ps[0] == Piece(pre, l) && qs[0] == Piece([], l)
  {
    assert ([Piece(pre, l)] + a + b)[1..] == a + b && ([Piece([], l)] + a + b)[1..] == a + b;
  }

  /** Nothing but a comma may be owed. */
  function Settle(p: Print, out: Bytes): Print {
    Print(p.indentLevel, false, false, false, out)
  }

  lemma LeafText(kind: Kind, data: Bytes, pretty: bool)
    requires IsPrintable(Leaf(kind, data))
    ensures EventText(Event(kind, data), pretty) == LexemeText(LeafLexeme(kind, data))
  {
    hide StringText, BinaryPieces, TextPieces, IsString, NumberText, IsNumber, NumberKind, IsLooseUtf8, StringData, PickNumber;
    if kind == BStringKind {
      BinaryString(data);
    } else if kind == StringKind {
      TextString(data);
    } else if !IsWordKind(kind) {
      var n := PickNumber(kind, data);
    }
  }

  lemma PrintLeaf(p: Print, kind: Kind, data: Bytes, pretty: bool)
    requires IsPrintable(Leaf(kind, data))
    ensures PrintAll(p, [Event(kind, data)], pretty) ==
      Settle(p, p.out + Lead(p, pretty) + PiecesText([Piece([], LeafLexeme(kind, data))]))
  {
    hide LexemeText, LeafLexeme, Lead, EventText, PrintAll, PiecesText, IsNumberText, IsLooseUtf8;
    LeafText(kind, data, pretty);
    PrintOne(p, Event(kind, data), pretty);
    TextOne([], LeafLexeme(kind, data));
    NoFillers();
    assert PrintEvent(p, Event(kind, data), pretty) ==
      Settle(p, p.out + Lead(p, pretty) + EventText(Event(kind, data), pretty));
    assert FillersText([]) + LexemeText(LeafLexeme(kind, data)) == LexemeText(LeafLexeme(kind, data));
  }

  lemma {:induction false} PrintValue(p: Print, v: Json, pretty: bool)
    requires IsPrintable(v)
    ensures PrintAll(p, Linearise(v), pretty) ==
      Settle(p, p.out + Lead(p, pretty) + PiecesText(ValuePieces(v, pretty, p.indentLevel, [])))
    decreases v, 1
  {
    hide PrintAll, PiecesText, LeafLexeme, Lead, EventText;
    match v
    case Leaf(kind, data) =>
      PrintLeaf(p, kind, data, pretty);
    case Arr(items) =>
      var q := PrintEvent(p, Event(ArrayBegin, []), pretty);
      PrintItems(q, items, pretty);
      PrintContainer(p, ArrayMode, LineariseItems(items), items == [], ItemPieces(items, pretty, p.indentLevel + 1), pretty);
    case Obj(members) =>
      var q := PrintEvent(p, Event(ObjectBegin, []), pretty);
      PrintMembers(q, members, pretty);
      PrintContainer(p, ObjectMode, LineariseMembers(members), members == [], MemberPieces(members, pretty, p.indentLevel + 1), pretty);
  }

  /** Where the list of a container leaves the printer. */
  function AfterList(q: Print, empty: bool, ps: seq<Piece>): Print {
    if empty then q else Settle(q, q.out + (if q.enterObject then [] else [COMMA]) + PiecesText(ps))
  }

  lemma PrintContainer(p: Print, mode: Mode, inner: seq<Event>, empty: bool, ps: seq<Piece>, pretty: bool)
    requires var q := PrintEvent(p, Event(if mode == ObjectMode then ObjectBegin else ArrayBegin, []), pretty);
      PrintAll(q, inner, pretty) == AfterList(q, empty, ps)
    requires empty ==> ps == []
    ensures var open := if mode == ObjectMode then LBrace else LBracket;
      var close := if mode == ObjectMode then RBrace else RBracket;
      var begin := Event(if mode == ObjectMode then ObjectBegin else ArrayBegin, []);
      var end := Event(if mode == ObjectMode then ObjectEnd else ArrayEnd, []);
      PrintAll(p, [begin] + inner + [end], pretty) ==
      Settle(p, p.out + Lead(p, pretty) +
        PiecesText([Piece([], Punct(open))] + ps + [Piece(if empty then [] else Break(pretty, p.indentLevel), Punct(close))]))
  {
    hide PrintAll, PiecesText, Lead, Break, Indent, FillersText;
    var begin := Event(if mode == ObjectMode then ObjectBegin else ArrayBegin, []);
    var end := Event(if mode == ObjectMode then ObjectEnd else ArrayEnd, []);
    var q := PrintEvent(p, begin, pretty);
    var r := AfterList(q, empty, ps);
    PrintOne(p, begin, pretty);
    PrintOne(r, end, pretty);
    PrintAppend(p, [begin], inner, pretty);
    PrintAppend(p, [begin] + inner, [end], pretty);
    BreakIsBlank(pretty, p.indentLevel);
    NoFillers();
    ContainerText(mode, if empty then [] else Break(pretty, p.indentLevel), ps);
    if empty { NoPieces(); }
  }

  lemma ContainerText(mode: Mode, gap: seq<Filler>, ps: seq<Piece>)
    ensures var open := if mode == ObjectMode then LBrace else LBracket;
      var close := if mode == ObjectMode then RBrace else RBracket;
      PiecesText([Piece([], Punct(open))] + ps + [Piece(gap, Punct(close))]) ==
        [PunctByte(open)] + PiecesText(ps) + FillersText(gap) + [PunctByte(close)]
  {
    hide PiecesText, FillersText;
    var open := if mode == ObjectMode then LBrace else LBracket;
    var close := if mode == ObjectMode then RBrace else RBracket;
    TextOne([], Punct(open));
    TextOne(gap, Punct(close));
    TextAppend([Piece([], Punct(open))], ps);
    TextAppend([Piece([], Punct(open))] + ps, [Piece(gap, Punct(close))]);
    NoFillers();
  }

  lemma NoPieces()
    ensures PiecesText([]) == []
  {}

  lemma {:induction false} PrintItems(q: Print, items: seq<Json>, pretty: bool)
    requires (forall i :: 0 <= i < |items| ==> IsPrintable(items[i])) && !q.first && !q.afterKey
    ensures PrintAll(q, LineariseItems(items), pretty) == AfterList(q, items == [], ItemPieces(items, pretty, q.indentLevel))
    decreases items, 0
  {
    hide PrintAll, PiecesText, Break, Indent;
    if items == [] {
      PrintNothing(q, pretty);
    } else {
      var level := q.indentLevel;
      var comma := if |items| == 1 then [] else [Piece([], Punct(CommaSym))];
      var v, more := ValuePieces(items[0], pretty, level, Break(pretty, level)), ItemPieces(items[1..], pretty, level);
      PrintItem(q, items[0], pretty);
      var r := PrintAll(q, Linearise(items[0]), pretty);
      PrintItems(r, items[1..], pretty);
      PrintAppend(q, Linearise(items[0]), LineariseItems(items[1..]), pretty);
      hide ValuePieces;
      JoinText(v, comma, more);
      NoPieces();
    }
  }

  lemma {:induction false} PrintItem(q: Print, v: Json, pretty: bool)
    requires IsPrintable(v) && !q.first && !q.afterKey
    ensures PrintAll(q, Linearise(v), pretty) ==
      Settle(q, q.out + (if q.enterObject then [] else [COMMA])
                + PiecesText(ValuePieces(v, pretty, q.indentLevel, Break(pretty, q.indentLevel))))
    decreases v, 2
  {
    hide PrintAll, PiecesText, Break, FillersText, ValuePieces, Lead, IsPrintable;
    PrintValue(q, v, pretty);
    PreText(v, pretty, q.indentLevel, Break(pretty, q.indentLevel));
    LeadText(q, pretty);
  }

  /** Inside a container, what leads an element is the comma, if one is owed, and the line break. */
  lemma LeadText(q: Print, pretty: bool)
    requires !q.first && !q.afterKey
    ensures Lead(q, pretty) == (if q.enterObject then [] else [COMMA]) + FillersText(Break(pretty, q.indentLevel))
  {
    BreakIsBlank(pretty, q.indentLevel);
    hide Break, Indent, FillersText;
  }

  lemma PrintNothing(q: Print, pretty: bool)
    ensures PrintAll(q, [], pretty) == q
  {}

  lemma JoinText(a: seq<Piece>, comma: seq<Piece>, b: seq<Piece>)
    requires comma == [] || comma == [Piece([], Punct(CommaSym))]
    ensures PiecesText(a + comma + b) == PiecesText(a) + (if comma == [] then [] else [COMMA]) + PiecesText(b)
  {
    TextAppend(a, comma);
    TextAppend(a + comma, b);
    TextOne([], Punct(CommaSym));
    NoFillers();
    NoPieces();
    hide PiecesText;
  }

  lemma {:induction false} PrintMembers(q: Print, members: seq<Member>, pretty: bool)
    requires forall i :: 0 <= i < |members| ==> IsLooseUtf8(members[i].key) && IsPrintable(members[i].value)
    requires !q.first && !q.afterKey
    ensures PrintAll(q, LineariseMembers(members), pretty) ==
      AfterList(q, members == [], MemberPieces(members, pretty, q.indentLevel))
    decreases members, 0
  {
    hide PrintAll, PiecesText, Break, Indent, IsPrintable, IsLooseUtf8, LineariseMember, PairPieces;
    if members == [] {
      PrintNothing(q, pretty);
    } else {
      var level := q.indentLevel;
      var comma := if |members| == 1 then [] else [Piece([], Punct(CommaSym))];
      var v, more := PairPieces(members[0], pretty, level), MemberPieces(members[1..], pretty, level);
      PrintPair(q, members[0], pretty);
      var r := PrintAll(q, LineariseMember(members[0]), pretty);
      PrintMembers(r, members[1..], pretty);
      PrintAppend(q, LineariseMember(members[0]), LineariseMembers(members[1..]), pretty);
      JoinText(v, comma, more);
      NoPieces();
    }
  }

  lemma PrintKey(q: Print, key: Bytes, pretty: bool)
    requires IsLooseUtf8(key) && !q.first && !q.afterKey
    ensures var k := PrintEvent(q, Event(KeyKind, key), pretty);
      && k == Print(q.indentLevel, true, false, false, k.out) && Lead(k, pretty) == []
      && k.out == q.out + (if q.enterObject then [] else [COMMA]) + PiecesText(Head(key, pretty, q.indentLevel)) + FillersText(Gap(pretty))
  {
    hide PiecesText, Break, Indent, FillersText, StringBody, QuotedText;
    KeyText(key, pretty, q.indentLevel);
    LeadText(q, pretty);
    GapText(pretty);
    var text := QuotedText(StringBody(key));
    var k := PrintEvent(q, Event(KeyKind, key), pretty);
    assert k == Print(q.indentLevel, true, false, false, k.out) && Lead(k, pretty) == [];
    assert k.out == q.out + Lead(q, pretty) + EventText(Event(KeyKind, key), pretty);
    KeyEventText(key, pretty);
    hide Head, PrintEvent, Lead, EventText, Gap;
    RegroupKey(q.out, if q.enterObject then [] else [COMMA], FillersText(Break(pretty, q.indentLevel)), text, [COLON], FillersText(Gap(pretty)));
  }

  lemma KeyEventText(key: Bytes, pretty: bool)
    ensures EventText(Event(KeyKind, key), pretty) == QuotedText(StringBody(key)) + ([COLON] + FillersText(Gap(pretty)))
  {
    GapText(pretty);
    hide FillersText, Gap, StringBody, QuotedText;
    assert [COLON] + [SPACE] == [COLON, SPACE] && [COLON] + [] == [COLON];
  }

  lemma RegroupKey(out: Bytes, comma: Bytes, pre: Bytes, text: Bytes, colon: Bytes, gap: Bytes)
    ensures out + (comma + pre) + (text + (colon + gap)) == out + comma + (pre + text + colon) + gap
  {}

  lemma {:induction false} PrintPair(q: Print, m: Member, pretty: bool)
    requires IsLooseUtf8(m.key) && IsPrintable(m.value) && !q.first && !q.afterKey
    ensures PrintAll(q, LineariseMember(m), pretty) ==
      Settle(q, q.out + (if q.enterObject then [] else [COMMA]) + PiecesText(PairPieces(m, pretty, q.indentLevel)))
    decreases m, 2
  {
    hide PrintAll, PiecesText, FillersText, ValuePieces;
    var level := q.indentLevel;
    var e := Event(KeyKind, m.key);
    var k := PrintEvent(q, e, pretty);
    var head, v := Head(m.key, pretty, level), ValuePieces(m.value, pretty, level, Gap(pretty));
    PrintOne(q, e, pretty);
    PrintKey(q, m.key, pretty);
    PrintValue(k, m.value, pretty);
    PrintAppend(q, [e], Linearise(m.value), pretty);
    PreText(m.value, pretty, level, Gap(pretty));
    TextAppend(head, v);
    assert PairPieces(m, pretty, level) == head + v;
    hide PrintEvent, Head, Gap, PairPieces, Lead;
    assert k.out + Lead(k, pretty) == k.out;
    Regroup(q.out + (if q.enterObject then [] else [COMMA]), PiecesText(head), FillersText(Gap(pretty)),
            PiecesText(ValuePieces(m.value, pretty, level, [])));
  }

  lemma Regroup(a: Bytes, b: Bytes, c: Bytes, d: Bytes)
    ensures a + b + c + d == a + (b + (c + d))
  {}

  lemma GapText(pretty: bool)
    ensures FillersText(Gap(pretty)) == if pretty then [SPACE] else []
  {
    if pretty { assert [Blank(SPACE)][1..] == []; }
  }

  lemma KeyText(key: Bytes, pretty: bool, level: int)
    requires IsLooseUtf8(key)
    ensures PiecesText(Head(key, pretty, level)) ==
      FillersText(Break(pretty, level)) + QuotedText(StringBody(key)) + [COLON]
  {
    hide PiecesText, Break, StringText, StringBody;
    TextString(key);
    var a, b := [Piece(Break(pretty, level), Quoted(TextPieces(key)))], [Piece([], Punct(ColonSym))];
    TextAppend(a, b);
    TextOne(Break(pretty, level), Quoted(TextPieces(key)));
    TextOne([], Punct(ColonSym));
    NoFillers();
    assert a + b == [Piece(Break(pretty, level), Quoted(TextPieces(key))), Piece([], Punct(ColonSym))];
  }

  // The main theorems.

  /** The text of a document, raw or pretty. */
  function PrintedText(v: Json, pretty: bool): Bytes {
    PrintAll(FRESH, Linearise(v), pretty).out
  }

  lemma {:induction false} BlanksSeparate(e: bool, ps: seq<Piece>)
    requires forall i :: 0 <= i < |ps| ==> AreBlanks(ps[i].pre)
    ensures Separated(e, ps)
    decreases |ps|
  {
    if ps != [] { BlanksSeparate(HasExponent(ps[0].lexeme), ps[1..]); }
  }

  /** What is printed is the text of a document, with white space only, that spells the tree read back. */
  lemma PrintedIsDocument(cfg: Config, v: Json, pretty: bool) returns (d: Document)
    requires IsPrintable(v) && !v.Leaf?
    ensures Spells(cfg, d, ReadBack(v)) && Text(d) == PrintedText(v, pretty)
    ensures d.pieces == ValuePieces(v, pretty, 0, [])
  {
    var ps := ValuePieces(v, pretty, 0, []);
    d := Document(ps, []);
    ValueShows(v, pretty, 0, []);
    PrintValue(FRESH, v, pretty);
    BlanksSeparate(false, ps);
    NoFillers();
    hide ValuePieces, PrintAll, Linearise, PiecesText, FillersText, Symbols, IsJson, Separated, PiecesSymbols, IsLexeme;
    assert ArePieces(cfg, ps);
    assert PrintedText(v, pretty) == [] + [] + PiecesText(ps);
  }

  /**
    What was printed, raw or pretty, is accepted exactly when its tokens and depth are within the limits, so always
    without limits. The printed events are then reported again, binary strings as the UTF-8 of their bytes read as
    Latin-1.
   */
  lemma ParsePrinted(cfg: Config, v: Json, pretty: bool) returns (d: Document)
    requires IsPrintable(v) && !v.Leaf?
    ensures Spells(cfg, d, ReadBack(v)) && Text(d) == PrintedText(v, pretty)
    ensures Accepts(cfg, PrintedText(v, pretty)) <==> FitsLimits(cfg, d, ReadBack(v))
    ensures cfg.Unlimited() ==> Accepts(cfg, PrintedText(v, pretty))
    ensures Accepts(cfg, PrintedText(v, pretty)) ==> Run(cfg, START, PrintedText(v, pretty)).m.events == Linearise(ReadBack(v))
  {
    hide Run, PrintedText, Accepts, FitsLimits;
    d := PrintedIsDocument(cfg, v, pretty);
    DocumentsWithLimits(cfg, d, ReadBack(v));
    if cfg.Unlimited() { DocumentsAreAccepted(cfg, d, ReadBack(v)); }
  }

  /** Without binary strings the printed events are read back unchanged. */
  lemma {:induction false} ReadBackSame(v: Json)
    requires IsJson(v)
    ensures ReadBack(v) == v
    decreases v, 1
  {
    match v
    case Leaf(_, _) =>
    case Arr(items) => ReadBackItemsSame(items);
    case Obj(members) => ReadBackMembersSame(members);
  }

  lemma {:induction false} ReadBackItemsSame(items: seq<Json>)
    requires forall i :: 0 <= i < |items| ==> IsJson(items[i])
    ensures ReadBackItems(items) == items
    decreases items, 0
  {
    if items != [] {
      ReadBackSame(items[0]);
      ReadBackItemsSame(items[1..]);
    }
  }

  lemma {:induction false} ReadBackMembersSame(members: seq<Member>)
    requires forall i :: 0 <= i < |members| ==> IsJson(members[i].value)
    ensures ReadBackMembers(members) == members
    decreases members, 0
  {
    if members != [] {
      ReadBackSame(members[0].value);
      ReadBackMembersSame(members[1..]);
    }
  }
}
