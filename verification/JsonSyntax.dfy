/**
  The grammar above the bytes: documents as trees, their symbols and their events, and the pushdown
  automaton that the structural states of the parser form over symbols.
 */
module JsonSyntax {
  import opened Options
  import opened JsonTypes
  import opened JsonTables

  /** A document as a tree. Leaves are strings, numbers with their verbatim text, and the three words. */
  datatype Json =
    | Leaf(kind: Kind, data: Bytes)
    | Arr(items: seq<Json>)
    | Obj(members: seq<Member>)
  datatype Member = Member(key: Bytes, value: Json)

  predicate IsScalarKind(kind: Kind) {
    kind == IntKind || kind == FloatKind || IsWordKind(kind)
  }

  predicate IsWordKind(kind: Kind) {
    kind == TrueKind || kind == FalseKind || kind == NullKind
  }

  /** The leaves are of kinds a parser can report as values. */
  predicate IsJson(v: Json) {
    match v
    case Leaf(kind, _) => kind == StringKind || IsScalarKind(kind)
    case Arr(items) => forall i :: 0 <= i < |items| ==> IsJson(items[i])
    case Obj(members) => forall i :: 0 <= i < |members| ==> IsJson(members[i].value)
  }

  // The events of a document, in order.

  function Linearise(v: Json): seq<Event> {
    match v
    case Leaf(kind, data) => [Event(kind, data)]
    case Arr(items) => [Event(ArrayBegin, [])] + LineariseItems(items) + [Event(ArrayEnd, [])]
    case Obj(members) => [Event(ObjectBegin, [])] + LineariseMembers(members) + [Event(ObjectEnd, [])]
  }

  function LineariseItems(items: seq<Json>): seq<Event> {
    if items == [] then [] else Linearise(items[0]) + LineariseItems(items[1..])
  }

  function LineariseMembers(members: seq<Member>): seq<Event> {
    if members == [] then []
    else LineariseMember(members[0]) + LineariseMembers(members[1..])
  }

  function LineariseMember(m: Member): seq<Event> {
    [Event(KeyKind, m.key)] + Linearise(m.value)
  }

  // The symbols of a document, in order (sections 2, 4 and 5 of RFC 8259).

  datatype Symbol =
    | LBrace | RBrace | LBracket | RBracket | CommaSym | ColonSym
    | TextSym(data: Bytes)
    | ScalarSym(kind: Kind, data: Bytes)

  function Symbols(v: Json): seq<Symbol> {
    match v
    case Leaf(kind, data) => [LeafSymbol(kind, data)]
    case Arr(items) => [LBracket] + ItemSymbols(items) + [RBracket]
    case Obj(members) => [LBrace] + MemberSymbols(members) + [RBrace]
  }

  function LeafSymbol(kind: Kind, data: Bytes): Symbol {
    if kind == StringKind then TextSym(data) else ScalarSym(kind, data)
  }

  function ItemSymbols(items: seq<Json>): seq<Symbol> {
    if items == [] then []
    else Symbols(items[0]) + (if |items| == 1 then [] else [CommaSym]) + ItemSymbols(items[1..])
  }

  function MemberSymbols(members: seq<Member>): seq<Symbol> {
    if members == [] then []
    else PairSymbols(members[0]) + (if |members| == 1 then [] else [CommaSym]) + MemberSymbols(members[1..])
  }

  function PairSymbols(m: Member): seq<Symbol> {
    [TextSym(m.key), ColonSym] + Symbols(m.value)
  }

  // The automaton.

  /** Where the parser is between two symbols, with every scalar read so far counted as reported. */
  datatype Place = Place(at: State, stack: seq<Mode>, events: seq<Event>)

  const FIRST: Place := Place(GO, [], [])

  function Report(p: Place, at: State, kind: Kind, data: Bytes): Place {
    p.(at := at, events := p.events + [Event(kind, data)])
  }

  predicate ExpectsValue(at: State) {
    at == VA || at == AR
  }

  function Open(p: Place, mode: Mode): Option<Place> {
    if p.at == GO || ExpectsValue(p.at) then
      Some(Report(p, if mode == ObjectMode then OB else AR, if mode == ObjectMode then ObjectBegin else ArrayBegin, [])
        .(stack := p.stack + [mode]))
    else None
  }

  function Close(p: Place, mode: Mode, empty: State): Option<Place> {
    if (p.at == OK || p.at == empty) && p.stack != [] && p.stack[|p.stack| - 1] == mode then
      Some(Report(p, OK, if mode == ObjectMode then ObjectEnd else ArrayEnd, [])
        .(stack := p.stack[..|p.stack| - 1]))
    else None
  }

  /** The place after one more symbol, when there is one. */
  function Read(p: Place, sym: Symbol): Option<Place> {
    match sym
    case LBrace => Open(p, ObjectMode)
    case LBracket => Open(p, ArrayMode)
    case RBrace => Close(p, ObjectMode, OB)
    case RBracket => Close(p, ArrayMode, AR)
    case CommaSym =>
      if p.at == OK && p.stack != []
      then Some(p.(at := if p.stack[|p.stack| - 1] == ObjectMode then KY else VA))
      else None
    case ColonSym => if p.at == CO then Some(p.(at := VA)) else None
    case TextSym(data) =>
      if p.at == OB || p.at == KY then Some(Report(p, CO, KeyKind, data))
      else if ExpectsValue(p.at) then Some(Report(p, OK, StringKind, data))
      else None
    case ScalarSym(kind, data) =>
      if ExpectsValue(p.at) && IsScalarKind(kind) then Some(Report(p, OK, kind, data)) else None
  }

  function ReadAll(p: Place, syms: seq<Symbol>): Option<Place>
    decreases |syms|
  {
    if syms == [] then Some(p)
    else
      var next := Read(p, syms[0]);
      if next == None then None else ReadAll(next.value, syms[1..])
  }

  /** A place at which a whole document has been read. */
  predicate IsEnd(p: Place) {
    p.at == OK && p.stack == []
  }

  // Every document is read, with its own events.

  predicate CanStart(p: Place, v: Json) {
    ExpectsValue(p.at) || (p.at == GO && !v.Leaf?)
  }

  lemma ReadCons(p: Place, sym: Symbol, rest: seq<Symbol>)
    ensures ReadAll(p, [sym] + rest) ==
      match Read(p, sym) case None => None case Some(q) => ReadAll(q, rest)
  {
    assert ([sym] + rest)[1..] == rest;
  }

  lemma {:induction false} ReadsValue(p: Place, v: Json, rest: seq<Symbol>)
    requires IsJson(v) && CanStart(p, v)
    ensures ReadAll(p, Symbols(v) + rest) == ReadAll(p.(at := OK, events := p.events + Linearise(v)), rest)
    decreases v, 1
  {
    match v
    case Leaf(kind, data) =>
      ReadCons(p, LeafSymbol(kind, data), rest);
    case Arr(items) =>
      ReadsArray(p, items, rest);
    case Obj(members) =>
      ReadsObject(p, members, rest);
  }

  lemma Bracketed(open: Symbol, list: seq<Symbol>, close: Symbol, rest: seq<Symbol>)
    ensures [open] + list + [close] + rest == [open] + (list + ([close] + rest))
  {}

  lemma BracketedEvents(events: seq<Event>, begin: Event, list: seq<Event>, end: Event)
    ensures events + ([begin] + list + [end]) == events + [begin] + list + [end]
  {}

  lemma {:induction false} ReadsArray(p: Place, items: seq<Json>, rest: seq<Symbol>)
    requires (forall i :: 0 <= i < |items| ==> IsJson(items[i])) && (p.at == GO || ExpectsValue(p.at))
    ensures ReadAll(p, Symbols(Arr(items)) + rest) ==
      ReadAll(p.(at := OK, events := p.events + Linearise(Arr(items))), rest)
    decreases items, 3
  {
    hide ReadAll;
    var q := Open(p, ArrayMode).value;
    var after := AfterList(q, |items|, LineariseItems(items));
    ReadCons(p, LBracket, ItemSymbols(items) + ([RBracket] + rest));
    ReadsItems(q, items, [RBracket] + rest);
    ReadCons(after, RBracket, rest);
    Bracketed(LBracket, ItemSymbols(items), RBracket, rest);
    assert after.stack[..|p.stack|] == p.stack;
    assert after.events == q.events + LineariseItems(items);
    BracketedEvents(p.events, Event(ArrayBegin, []), LineariseItems(items), Event(ArrayEnd, []));
  }

  lemma {:induction false} ReadsObject(p: Place, members: seq<Member>, rest: seq<Symbol>)
    requires (forall i :: 0 <= i < |members| ==> IsJson(members[i].value)) && (p.at == GO || ExpectsValue(p.at))
    ensures ReadAll(p, Symbols(Obj(members)) + rest) ==
      ReadAll(p.(at := OK, events := p.events + Linearise(Obj(members))), rest)
    decreases members, 3
  {
    hide ReadAll;
    var q := Open(p, ObjectMode).value;
    var after := AfterList(q, |members|, LineariseMembers(members));
    ReadCons(p, LBrace, MemberSymbols(members) + ([RBrace] + rest));
    ReadsMembers(q, members, [RBrace] + rest);
    ReadCons(after, RBrace, rest);
    Bracketed(LBrace, MemberSymbols(members), RBrace, rest);
    assert after.stack[..|p.stack|] == p.stack;
    assert after.events == q.events + LineariseMembers(members);
    BracketedEvents(p.events, Event(ObjectBegin, []), LineariseMembers(members), Event(ObjectEnd, []));
  }

  /** Where the list of a container leaves the parser: unmoved when the list is empty. */
  function AfterList(p: Place, n: nat, events: seq<Event>): Place {
    if n == 0 then p else p.(at := OK, events := p.events + events)
  }

  lemma OneItem(items: seq<Json>)
    requires |items| == 1
    ensures ItemSymbols(items) == Symbols(items[0]) && LineariseItems(items) == Linearise(items[0])
  {
    assert items[1..] == [] && ItemSymbols([]) == [] && LineariseItems([]) == [];
    hide Symbols, Linearise;
    assert Symbols(items[0]) + [] + [] == Symbols(items[0]);
    assert Linearise(items[0]) + [] == Linearise(items[0]);
  }

  lemma OneMember(members: seq<Member>)
    requires |members| == 1
    ensures MemberSymbols(members) == PairSymbols(members[0]) && LineariseMembers(members) == LineariseMember(members[0])
  {
    assert members[1..] == [] && MemberSymbols([]) == [] && LineariseMembers([]) == [];
    hide PairSymbols, LineariseMember;
    assert PairSymbols(members[0]) + [] + [] == PairSymbols(members[0]);
    assert LineariseMember(members[0]) + [] == LineariseMember(members[0]);
  }

  /** A comma inside a container leads to the next item or key. */
  lemma ReadsComma(p: Place, rest: seq<Symbol>)
    requires p.at == OK && p.stack != []
    ensures ReadAll(p, [CommaSym] + rest) ==
      ReadAll(p.(at := if p.stack[|p.stack| - 1] == ObjectMode then KY else VA), rest)
  {
    ReadCons(p, CommaSym, rest);
    hide ReadAll;
  }

  lemma MoreItems(items: seq<Json>, rest: seq<Symbol>)
    requires |items| > 1
    ensures ItemSymbols(items) + rest == Symbols(items[0]) + ([CommaSym] + (ItemSymbols(items[1..]) + rest))
    ensures LineariseItems(items) == Linearise(items[0]) + LineariseItems(items[1..])
  {
    hide Symbols, Linearise;
    ListSplits(Symbols(items[0]), ItemSymbols(items[1..]), rest);
  }

  lemma MoreMembers(members: seq<Member>, rest: seq<Symbol>)
    requires |members| > 1
    ensures MemberSymbols(members) + rest == PairSymbols(members[0]) + ([CommaSym] + (MemberSymbols(members[1..]) + rest))
    ensures LineariseMembers(members) == LineariseMember(members[0]) + LineariseMembers(members[1..])
  {
    hide PairSymbols, LineariseMember;
    ListSplits(PairSymbols(members[0]), MemberSymbols(members[1..]), rest);
  }

  lemma ListSplits(first: seq<Symbol>, others: seq<Symbol>, rest: seq<Symbol>)
    ensures first + [CommaSym] + others + rest == first + ([CommaSym] + (others + rest))
  {}

  /** The list goes on from `q` where its first element has been read. */
  lemma ListGoesOn(p: Place, q: Place, at: State, first: seq<Event>, n: nat, others: seq<Event>)
    requires n > 0 && q == p.(at := OK, events := p.events + first)
    ensures AfterList(q.(at := at), n, others) == AfterList(p, n + 1, first + others)
  {
    assert q.events + others == p.events + (first + others);
  }

  lemma {:induction false} ReadsItems(p: Place, items: seq<Json>, rest: seq<Symbol>)
    requires forall i :: 0 <= i < |items| ==> IsJson(items[i])
    requires ExpectsValue(p.at) && p.stack != [] && p.stack[|p.stack| - 1] == ArrayMode
    ensures ReadAll(p, ItemSymbols(items) + rest) ==
      ReadAll(AfterList(p, |items|, LineariseItems(items)), rest)
    decreases items, 1
  {
    hide ReadAll;
    if items == [] {
      assert ItemSymbols(items) + rest == rest;
    } else if |items| == 1 {
      ReadsValue(p, items[0], rest);
      OneItem(items);
    } else {
      ReadsMoreItems(p, items, rest);
    }
  }

  lemma {:induction false} ReadsMoreItems(p: Place, items: seq<Json>, rest: seq<Symbol>)
    requires |items| > 1 && forall i :: 0 <= i < |items| ==> IsJson(items[i])
    requires ExpectsValue(p.at) && p.stack != [] && p.stack[|p.stack| - 1] == ArrayMode
    ensures ReadAll(p, ItemSymbols(items) + rest) ==
      ReadAll(AfterList(p, |items|, LineariseItems(items)), rest)
    decreases items, 0
  {
    hide ReadAll, Symbols, ItemSymbols, Linearise, LineariseItems, AfterList, IsJson;
    var q := p.(at := OK, events := p.events + Linearise(items[0]));
    var more := ItemSymbols(items[1..]) + rest;
    MoreItems(items, rest);
    ReadsValue(p, items[0], [CommaSym] + more);
    ReadsComma(q, more);
    ReadsItems(q.(at := VA), items[1..], rest);
    ListGoesOn(p, q, VA, Linearise(items[0]), |items| - 1, LineariseItems(items[1..]));
  }

  lemma {:induction false} ReadsMembers(p: Place, members: seq<Member>, rest: seq<Symbol>)
    requires forall i :: 0 <= i < |members| ==> IsJson(members[i].value)
    requires (p.at == OB || p.at == KY) && p.stack != [] && p.stack[|p.stack| - 1] == ObjectMode
    ensures ReadAll(p, MemberSymbols(members) + rest) ==
      ReadAll(AfterList(p, |members|, LineariseMembers(members)), rest)
    decreases members, 1
  {
    hide ReadAll, PairSymbols, LineariseMember;
    if members == [] {
      assert MemberSymbols(members) + rest == rest;
    } else if |members| == 1 {
      ReadsPair(p, members[0], rest);
      OneMember(members);
    } else {
      ReadsMoreMembers(p, members, rest);
    }
  }

  lemma {:induction false} ReadsMoreMembers(p: Place, members: seq<Member>, rest: seq<Symbol>)
    requires |members| > 1 && forall i :: 0 <= i < |members| ==> IsJson(members[i].value)
    requires (p.at == OB || p.at == KY) && p.stack != [] && p.stack[|p.stack| - 1] == ObjectMode
    ensures ReadAll(p, MemberSymbols(members) + rest) ==
      ReadAll(AfterList(p, |members|, LineariseMembers(members)), rest)
    decreases members, 0
  {
    hide ReadAll, PairSymbols, MemberSymbols, LineariseMember, LineariseMembers, AfterList, IsJson;
    var q := p.(at := OK, events := p.events + LineariseMember(members[0]));
    var more := MemberSymbols(members[1..]) + rest;
    MoreMembers(members, rest);
    ReadsPair(p, members[0], [CommaSym] + more);
    ReadsComma(q, more);
    ReadsMembers(q.(at := KY), members[1..], rest);
    ListGoesOn(p, q, KY, LineariseMember(members[0]), |members| - 1, LineariseMembers(members[1..]));
  }

  lemma {:induction false} ReadsPair(p: Place, m: Member, rest: seq<Symbol>)
    requires IsJson(m.value) && (p.at == OB || p.at == KY)
    ensures ReadAll(p, PairSymbols(m) + rest) ==
      ReadAll(p.(at := OK, events := p.events + LineariseMember(m)), rest)
    decreases m, 2
  {
    hide ReadAll;
    var k := Report(p, CO, KeyKind, m.key);
    ReadCons(p, TextSym(m.key), [ColonSym] + (Symbols(m.value) + rest));
    ReadCons(k, ColonSym, Symbols(m.value) + rest);
    ReadsValue(k.(at := VA), m.value, rest);
    assert PairSymbols(m) + rest == [TextSym(m.key)] + ([ColonSym] + (Symbols(m.value) + rest));
    assert k.events + Linearise(m.value) == p.events + LineariseMember(m);
  }

  // Whatever is read up to the end of a document is the symbols of a tree.

  /** `syms` leads from `p` to the end of a document. */
  predicate Finishes(p: Place, syms: seq<Symbol>) {
    ReadAll(p, syms).Some? && IsEnd(ReadAll(p, syms).value)
  }

  lemma FirstRead(p: Place, syms: seq<Symbol>) returns (q: Place)
    requires Finishes(p, syms) && !IsEnd(p)
    ensures syms != [] && Read(p, syms[0]) == Some(q) && Finishes(q, syms[1..])
    ensures syms == [syms[0]] + syms[1..]
  {
    q := Read(p, syms[0]).value;
  }

  lemma {:induction false} FindValue(p: Place, syms: seq<Symbol>) returns (v: Json, rest: seq<Symbol>)
    requires ExpectsValue(p.at) || p.at == GO
    requires Finishes(p, syms) && (p.at == AR ==> syms[0] != RBracket)
    ensures syms == Symbols(v) + rest && IsJson(v) && CanStart(p, v)
    ensures Finishes(p.(at := OK, events := p.events + Linearise(v)), rest)
    ensures |rest| < |syms|
    decreases |syms|, 1
  {
    hide ReadAll;
    var q := FirstRead(p, syms);
    var sym := syms[0];
    if sym.TextSym? {
      v, rest := Leaf(StringKind, sym.data), syms[1..];
    } else if sym.ScalarSym? {
      v, rest := Leaf(sym.kind, sym.data), syms[1..];
    } else if sym == LBracket {
      v, rest := FindArray(p, q, syms);
    } else {
      v, rest := FindObject(p, q, syms);
    }
  }

  lemma Wrapped(syms: seq<Symbol>, open: Symbol, list: seq<Symbol>, close: Symbol, after: seq<Symbol>)
    requires syms != [] && syms[0] == open && syms[1..] == list + after && after != [] && after[0] == close
    ensures syms == [open] + list + [close] + after[1..] && |after[1..]| < |syms|
  {
    assert syms == [syms[0]] + syms[1..] && after == [after[0]] + after[1..];
  }

  lemma {:induction false} FindArray(p: Place, q: Place, syms: seq<Symbol>) returns (v: Json, rest: seq<Symbol>)
    requires Finishes(p, syms) && syms != [] && syms[0] == LBracket && Open(p, ArrayMode) == Some(q) && Finishes(q, syms[1..])
    ensures syms == Symbols(v) + rest && IsJson(v) && CanStart(p, v)
    ensures Finishes(p.(at := OK, events := p.events + Linearise(v)), rest)
    ensures |rest| < |syms|
    decreases |syms|, 0
  {
    hide ReadAll, ItemSymbols, LineariseItems;
    var items, after := FindItems(q, syms[1..]);
    v, rest := Arr(items), after[1..];
    Wrapped(syms, LBracket, ItemSymbols(items), RBracket, after);
    ReadsArray(p, items, rest);
  }

  lemma {:induction false} FindObject(p: Place, q: Place, syms: seq<Symbol>) returns (v: Json, rest: seq<Symbol>)
    requires Finishes(p, syms) && syms != [] && syms[0] == LBrace && Open(p, ObjectMode) == Some(q) && Finishes(q, syms[1..])
    ensures syms == Symbols(v) + rest && IsJson(v) && CanStart(p, v)
    ensures Finishes(p.(at := OK, events := p.events + Linearise(v)), rest)
    ensures |rest| < |syms|
    decreases |syms|, 0
  {
    hide ReadAll, MemberSymbols, LineariseMembers;
    var members, after := FindMembers(q, syms[1..]);
    v, rest := Obj(members), after[1..];
    Wrapped(syms, LBrace, MemberSymbols(members), RBrace, after);
    ReadsObject(p, members, rest);
  }

  lemma {:induction false} FindItems(p: Place, syms: seq<Symbol>) returns (items: seq<Json>, rest: seq<Symbol>)
    requires ExpectsValue(p.at) && p.stack != [] && p.stack[|p.stack| - 1] == ArrayMode
    requires Finishes(p, syms)
    ensures syms == ItemSymbols(items) + rest && rest != [] && rest[0] == RBracket
    ensures forall i :: 0 <= i < |items| ==> IsJson(items[i])
    ensures p.at == VA ==> items != []
    decreases |syms|, 2
  {
    hide ReadAll;
    var first := FirstRead(p, syms);
    if syms[0] == RBracket {
      items, rest := [], syms;
    } else {
      var v, after := FindValue(p, syms);
      var q := FirstRead(p.(at := OK, events := p.events + Linearise(v)), after);
      if after[0] == CommaSym {
        var tail;
        tail, rest := FindItems(q, after[1..]);
        items := [v] + tail;
        assert items[1..] == tail;
        assert syms == Symbols(v) + [CommaSym] + ItemSymbols(tail) + rest;
      } else {
        items, rest := [v], after;
        OneItem(items);
      }
    }
  }

  lemma JoinMembers(pair: seq<Symbol>, tail: seq<Symbol>, rest: seq<Symbol>, after: seq<Symbol>)
    requires after != [] && after[0] == CommaSym && after[1..] == tail + rest
    ensures pair + after == pair + [CommaSym] + tail + rest
  {
    assert after == [CommaSym] + after[1..];
  }

  lemma {:induction false} FindMembers(p: Place, syms: seq<Symbol>) returns (members: seq<Member>, rest: seq<Symbol>)
    requires (p.at == OB || p.at == KY) && p.stack != [] && p.stack[|p.stack| - 1] == ObjectMode
    requires Finishes(p, syms)
    ensures syms == MemberSymbols(members) + rest && rest != [] && rest[0] == RBrace
    ensures forall i :: 0 <= i < |members| ==> IsJson(members[i].value)
    ensures p.at == KY ==> members != []
    decreases |syms|, 2
  {
    hide ReadAll;
    var k := FirstRead(p, syms);
    if syms[0] == RBrace {
      members, rest := [], syms;
    } else {
      var m, after := FindPair(p, syms);
      hide PairSymbols, LineariseMember;
      var q := FirstRead(p.(at := OK, events := p.events + LineariseMember(m)), after);
      if after[0] == CommaSym {
        var tail;
        tail, rest := FindMembers(q, after[1..]);
        members := [m] + tail;
        assert members[1..] == tail && |members| > 1;
        assert MemberSymbols(members) == PairSymbols(m) + [CommaSym] + MemberSymbols(tail);
        hide MemberSymbols;
        JoinMembers(PairSymbols(m), MemberSymbols(tail), rest, after);
      } else {
        members, rest := [m], after;
        OneMember(members);
      }
    }
  }

  lemma {:induction false} FindPair(p: Place, syms: seq<Symbol>) returns (m: Member, rest: seq<Symbol>)
    requires (p.at == OB || p.at == KY) && Finishes(p, syms) && syms[0] != RBrace
    ensures syms == PairSymbols(m) + rest && IsJson(m.value)
    ensures Finishes(p.(at := OK, events := p.events + LineariseMember(m)), rest)
    ensures |rest| < |syms|
    decreases |syms|, 1
  {
    hide ReadAll, Finishes, Symbols, Linearise, IsJson;
    var k := FirstRead(p, syms);
    var c := FirstRead(k, syms[1..]);
    assert syms[0].TextSym? && syms[1..][0] == ColonSym && c == p.(at := VA, events := p.events + [Event(KeyKind, syms[0].data)]);
    hide Read;
    var v;
    v, rest := FindValue(c, syms[1..][1..]);
    m := Member(syms[0].data, v);
    PairJoins(syms, Symbols(v), rest);
    assert c.events + Linearise(v) == p.events + ([Event(KeyKind, m.key)] + Linearise(v));
  }

  lemma PairJoins(syms: seq<Symbol>, value: seq<Symbol>, rest: seq<Symbol>)
    requires |syms| > 1 && syms[1] == ColonSym && syms[1..][1..] == value + rest
    ensures syms == [syms[0], ColonSym] + value + rest && |rest| < |syms|
  {
    assert syms == [syms[0], syms[1]] + syms[1..][1..];
  }

  lemma NothingAfterEnd(p: Place, syms: seq<Symbol>)
    requires IsEnd(p) && Finishes(p, syms)
    ensures syms == []
  {}

  /**
    The symbol sequences that lead from the start to the end are exactly those of the arrays and
    objects, and the events are then those of the tree.
   */
  lemma SymbolsOfDocuments(syms: seq<Symbol>)
    ensures Finishes(FIRST, syms) <==>
      exists v: Json :: IsJson(v) && !v.Leaf? && Symbols(v) == syms
    ensures forall v: Json :: IsJson(v) && !v.Leaf? && Symbols(v) == syms ==>
      ReadAll(FIRST, syms) == Some(Place(OK, [], Linearise(v)))
  {
    if Finishes(FIRST, syms) {
      var v, rest := FindValue(FIRST, syms);
      NothingAfterEnd(FIRST.(at := OK, events := FIRST.events + Linearise(v)), rest);
      assert Symbols(v) == syms;
    }
    forall v: Json | IsJson(v) && !v.Leaf? && Symbols(v) == syms
      ensures ReadAll(FIRST, syms) == Some(Place(OK, [], Linearise(v)))
    {
      ReadsValue(FIRST, v, []);
      assert Symbols(v) + [] == syms && FIRST.events + Linearise(v) == Linearise(v);
    }
  }
}
