/** The printer of ctcpsvr/json.cpp: a function on values, and the object that works in place. */
module JsonPrinter {
  import opened JsonTypes
  import opened JsonSyntax

  /** The fields of `json_printer`, and everything its callback has been given so far. */
  datatype Print = Print(indentLevel: int, afterKey: bool, enterObject: bool, first: bool, out: Bytes)

  const FRESH: Print := Print(0, false, true, true, [])

  predicate IsEnding(kind: Kind) {
    kind == ArrayEnd || kind == ObjectEnd
  }

  function HexDigit(n: nat): Byte
    requires n < 16
  {
    if n < 10 then 48 + n else 87 + n
  }

  /** `character_escape[c]`. */
  function EscapeText(c: Byte): Bytes {
    if c == 8 then [BACKSLASH, 98]
    else if c == 9 then [BACKSLASH, 116]
    else if c == 10 then [BACKSLASH, 110]
    else if c == 12 then [BACKSLASH, 102]
    else if c == 13 then [BACKSLASH, 114]
    else if c == QUOTE || c == BACKSLASH then [BACKSLASH, c]
    else if c < 32 || c >= 127 then [BACKSLASH, LOWER_U, 48, 48, HexDigit(c / 16), HexDigit(c % 16)]
    else [c]
  }

  /** The table entry by entry: the five letters, the two signs, printable ASCII as it is, the rest as `\u00xx` in lower case. */
  lemma EscapesPrinted(c: Byte)
    ensures EscapeText(8) == [92, 98] && EscapeText(9) == [92, 116] && EscapeText(10) == [92, 110]
    ensures EscapeText(12) == [92, 102] && EscapeText(13) == [92, 114]
    ensures EscapeText(34) == [92, 34] && EscapeText(92) == [92, 92]
    ensures 32 <= c < 127 && c != 34 && c != 92 ==> EscapeText(c) == [c]
    ensures (c < 32 && c != 8 && c != 9 && c != 10 && c != 12 && c != 13) || c >= 127 ==>
      EscapeText(c) == [92, 117, 48, 48, LOWER_DIGITS[c / 16], LOWER_DIGITS[c % 16]]
  {
    LowerDigit(c / 16);
    LowerDigit(c % 16);
    hide HexDigit;
  }

  lemma LowerDigit(n: nat)
    requires n < 16
    ensures HexDigit(n) == LOWER_DIGITS[n]
  {}

  /** What `print_string` makes of one byte. */
  function StringByte(c: Byte): Bytes {
    if c < 36 then EscapeText(c) else if c == BACKSLASH then [BACKSLASH, BACKSLASH] else [c]
  }

  /** A string that is not binary: control characters and the two signs are escaped, everything else is printed as it is. */
  lemma StringBytesPrinted(c: Byte)
    ensures StringByte(c) == if c < 32 || c == 34 || c == 92 then EscapeText(c) else [c]
  {}

  function StringBody(data: Bytes): Bytes {
    if data == [] then [] else StringByte(data[0]) + StringBody(data[1..])
  }

  function BinaryBody(data: Bytes): Bytes {
    if data == [] then [] else EscapeText(data[0]) + BinaryBody(data[1..])
  }

  function QuotedText(body: Bytes): Bytes {
    [QUOTE] + body + [QUOTE]
  }

  function Tabs(n: int): Bytes {
    if n <= 0 then [] else [TAB] + Tabs(n - 1)
  }

  /** `print_indent`. */
  function Indent(level: int): Bytes {
    [LF] + Tabs(level)
  }

  /** What is printed before an event that is not an ending. */
  function Lead(p: Print, pretty: bool): Bytes {
    if p.afterKey && !p.enterObject then []
    else if !p.enterObject then [COMMA] + (if pretty then Indent(p.indentLevel) else [])
    else if pretty && !p.first then Indent(p.indentLevel)
    else []
  }

  /** The text of an event by itself. */
  function EventText(e: Event, pretty: bool): Bytes {
    match e.kind
    case ArrayBegin => [LSQRB]
    case ObjectBegin => [LCURB]
    case IntKind | FloatKind => e.data
    case NullKind => NULL_TEXT
    case TrueKind => TRUE_TEXT
    case FalseKind => FALSE_TEXT
    case KeyKind => QuotedText(StringBody(e.data)) + (if pretty then [COLON, SPACE] else [COLON])
    case StringKind => QuotedText(StringBody(e.data))
    case BStringKind => QuotedText(BinaryBody(e.data))
    case _ => []
  }

  /** `json_print_mode`. */
  function PrintEvent(p: Print, e: Event, pretty: bool): Print {
    if IsEnding(e.kind) then
      Print(p.indentLevel - 1, false, false, false,
            p.out + (if pretty && !p.enterObject then Indent(p.indentLevel - 1) else [])
            + [if e.kind == ObjectEnd then RCURB else RSQRB])
    else
      var begins := e.kind == ArrayBegin || e.kind == ObjectBegin;
      Print(if begins then p.indentLevel + 1 else p.indentLevel, e.kind == KeyKind, begins, false,
            p.out + Lead(p, pretty) + EventText(e, pretty))
  }

  function PrintAll(p: Print, es: seq<Event>, pretty: bool): Print
    decreases |es|
  {
    if es == [] then p else PrintAll(PrintEvent(p, es[0], pretty), es[1..], pretty)
  }

  class Printer {
    var indentLevel: int
    var afterKey: bool
    var enterObject: bool
    var first: bool
    var out: Bytes  // what the callback has been given

    ghost function Abs(): Print
      reads this
    {
      Print(indentLevel, afterKey, enterObject, first, out)
    }

    constructor ()
      ensures Abs() == FRESH
    {
      indentLevel, afterKey, enterObject, first, out := 0, false, true, true, [];
    }

    method Write(s: Bytes)
      modifies this`out
      ensures out == old(out) + s
    {
      out := out + s;
    }

    method PrintByte(c: Byte)
      modifies this`out
      ensures out == old(out) + StringByte(c)
    {
      if c < 36 {
        Write(EscapeText(c));
      } else if c == BACKSLASH {
        Write([BACKSLASH, BACKSLASH]);
      } else {
        Write([c]);
      }
    }

    method PrintString(data: Bytes)
      modifies this`out
      ensures out == old(out) + QuotedText(StringBody(data))
    {
      hide EscapeText, StringByte;
      Write([QUOTE]);
      for i := 0 to |data|
        invariant out + StringBody(data[i..]) == old(out) + [QUOTE] + StringBody(data)
      {
        assert data[i..][1..] == data[i + 1..];
        ghost var before := out;
        PrintByte(data[i]);
        assert before + (StringByte(data[i]) + StringBody(data[i + 1..])) == out + StringBody(data[i + 1..]);
      }
      assert data[|data|..] == [];
      assert out == old(out) + [QUOTE] + StringBody(data);
      Write([QUOTE]);
      assert out == old(out) + QuotedText(StringBody(data));
    }

    method PrintBinaryString(data: Bytes)
      modifies this`out
      ensures out == old(out) + QuotedText(BinaryBody(data))
    {
      hide EscapeText;
      Write([QUOTE]);
      for i := 0 to |data|
        invariant out + BinaryBody(data[i..]) == old(out) + [QUOTE] + BinaryBody(data)
      {
        assert data[i..][1..] == data[i + 1..];
        ghost var before := out;
        Write(EscapeText(data[i]));
        assert before + (EscapeText(data[i]) + BinaryBody(data[i + 1..])) == out + BinaryBody(data[i + 1..]);
      }
      assert data[|data|..] == [];
      assert out == old(out) + [QUOTE] + BinaryBody(data);
      Write([QUOTE]);
      assert out == old(out) + QuotedText(BinaryBody(data));
    }

    method PrintIndent()
      modifies this`out
      ensures out == old(out) + Indent(indentLevel)
    {
      Write([LF]);
      var i := 0;
      while i < indentLevel
        invariant i <= indentLevel || i == 0
        invariant out + Tabs(indentLevel - i) == old(out) + Indent(indentLevel)
      {
        Write([TAB]);
        i := i + 1;
      }
    }

    method PrintLead(kind: Kind, pretty: bool)
      modifies this`out
      ensures out == old(out) + if IsEnding(kind) then [] else Lead(old(Abs()), pretty)
    {
      hide Tabs, Indent;
      if !enterObject && !afterKey && !IsEnding(kind) {
        Write([COMMA]);
        if pretty { PrintIndent(); }
      }
      if pretty && enterObject && !first && !IsEnding(kind) {
        PrintIndent();
      }
    }

    method PrintText(e: Event, pretty: bool)
      requires !IsEnding(e.kind)
      modifies this`out
      ensures out == old(out) + EventText(e, pretty)
    {
      hide StringBody, BinaryBody, QuotedText;
      if e.kind == KeyKind {
        PrintString(e.data);
        Write(if pretty then [COLON, SPACE] else [COLON]);
      } else if e.kind == StringKind {
        PrintString(e.data);
      } else if e.kind == BStringKind {
        PrintBinaryString(e.data);
      } else {
        Write(EventText(e, pretty));
      }
    }

    /** `json_print_raw` and `json_print_pretty`. */
    method PrintMode(e: Event, pretty: bool)
      modifies this
      ensures Abs() == PrintEvent(old(Abs()), e, pretty)
    {
      hide Indent, Lead, EventText;
      var enter := enterObject;
      PrintLead(e.kind, pretty);
      first := false;
      enterObject := false;
      afterKey := false;
      if IsEnding(e.kind) {
        indentLevel := indentLevel - 1;
        if pretty && !enter { PrintIndent(); }
        Write(if e.kind == ObjectEnd then [RCURB] else [RSQRB]);
      } else {
        PrintText(e, pretty);
        if e.kind == ArrayBegin || e.kind == ObjectBegin {
          indentLevel := indentLevel + 1;
          enterObject := true;
        } else if e.kind == KeyKind {
          afterKey := true;
        }
      }
    }

    /** A client that prints a list of events. */
    method PrintEvents(es: seq<Event>, pretty: bool)
      modifies this
      ensures Abs() == PrintAll(old(Abs()), es, pretty)
    {
      hide PrintEvent;
      for i := 0 to |es|
        invariant PrintAll(Abs(), es[i..], pretty) == PrintAll(old(Abs()), es, pretty)
      {
        assert es[i..][1..] == es[i + 1..];
        PrintMode(es[i], pretty);
      }
    }
  }
}
