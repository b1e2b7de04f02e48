/** What the parts add up to: prefixes, the DOM, uniqueness and chunks. */
module JsonTheorems {
  import opened Options
  import opened JsonTypes
  import opened JsonTables
  import opened JsonMachine
  import opened JsonSyntax
  import opened JsonUnicode
  import opened JsonText
  import opened JsonReads
  import opened JsonCompleteness
  import opened JsonSoundness
  import opened JsonGrammar
  import opened JsonDom
  import opened JsonInvariant
  import opened JsonLimits

  // Prefixes, and the tree under construction.

  /** The events of any run without error begin the events of some document. */
  lemma EventsBeginDocument(cfg: Config, s: Bytes)
    requires Run(cfg, START, s).err == Success
    ensures exists v: Json :: IsJson(v) && !v.Leaf? && Run(cfg, START, s).m.events <= Linearise(v)
  {
    hide Run, Step;
    RunsAreStructured(cfg, s);
    PrefixesOfDocuments(Run(cfg, START, s).m.events);
  }

  lemma ActionEvents(cfg: Config, m: Machine, a: Action)
    requires (a == UnicodeRead ==> HexTail(m.buf, 4)) && DoAction(cfg, m, a).err == Success
    ensures var es := DoAction(cfg, m, a).m.events; var n := |m.events|;
      && n <= |es| <= n + 2 && es[..n] == m.events
      && (|es| == n + 2 ==> es[n] == Event(m.kind, m.buf))
  {
    if a == UnicodeRead {
      UnicodeEvents(m);
      hide HexTail, ActUnicode;
    } else {
      hide ActUnicode;
    }
  }

  lemma StepEvents(cfg: Config, m: Machine, ch: Byte)
    requires Safe(m) && Step(cfg, m, ch).err == Success
    ensures var es := Step(cfg, m, ch).m.events; var n := |m.events|;
      && n <= |es| <= n + 2 && es[..n] == m.events
      && (|es| == n + 2 ==> es[n].kind == m.kind)
  {
    hide Advance;
    var m' := m.(left := if m.left > 0 then m.left - 1 else Utf8Header(ch));
    AdvanceEvents(cfg, m', ch, if m.left > 0 || m'.left > 0 then Other else CharClass(ch));
  }

  lemma AdvanceEvents(cfg: Config, m: Machine, ch: Byte, c: Class)
    requires Safe(m) && c != ErrorClass && (IsHex(c) ==> IsHexByte(ch)) && Advance(cfg, m, ch, c).err == Success
    ensures var es := Advance(cfg, m, ch, c).m.events; var n := |m.events|;
      && n <= |es| <= n + 2 && es[..n] == m.events
      && (|es| == n + 2 ==> es[n].kind == m.kind)
  {
    hide Transition, BufferPolicy, DoAction, HexTail;
    StoreKeepsDigits(cfg, m, ch, c);
    var next := Transition(m.state, c);
    var m' := Store(cfg, m, ch, BufferPolicy(m.state, c)).m;
    StoreFields(cfg, m, ch, BufferPolicy(m.state, c));
    hide Store;
    if next.Do? { ActionEvents(cfg, m', next.action); }
  }

  lemma ShallowNext(es: seq<Event>, p: Partial, e: Event)
    requires FeedAll(Before, es) == Some(p) && IsPartial(p) && Shallow(Before, es)
    requires Feed(p, e).Some? && |Base(Feed(p, e).value)| <= DOM_STACK_SIZE
    ensures IsPartial(Feed(p, e).value)
    ensures FeedAll(Before, es + [e]) == Some(Feed(p, e).value) && Shallow(Before, es + [e])
  {
    FeedAppend(Before, es, [e]);
    FeedCons(p, e, []);
    var q := Feed(p, e).value;
    FeedNothing(q);
    hide FeedAll;
    assert [e] + [] == [e];
    ShallowLast(es, p);
    assert Shallow(q, []);
    ShallowCons(p, e, []);
    ShallowAppend(Before, es, [e]);
  }

  lemma {:induction false} ShallowLast(es: seq<Event>, p: Partial)
    requires FeedAll(Before, es) == Some(p) && Shallow(Before, es)
    ensures |Base(p)| <= DOM_STACK_SIZE
  {
    ShallowLastFrom(Before, es);
  }

  lemma {:induction false} ShallowLastFrom(p: Partial, es: seq<Event>)
    requires IsPartial(p) && FeedAll(p, es).Some? && Shallow(p, es)
    ensures |Base(FeedAll(p, es).value)| <= DOM_STACK_SIZE
    decreases |es|
  {
    hide Feed, IsPartial, Base;
    if es != [] {
      FeedKeepsPartial(p, es[0]);
      ShallowLastFrom(Feed(p, es[0]).value, es[1..]);
    }
  }

  lemma OneMoreEvent(es: seq<Event>, p: Partial, e: Event, q: Partial)
    requires IsPartial(p) && FeedAll(Before, es) == Some(p) && FeedAll(Before, es + [e]) == Some(q)
    ensures Feed(p, e) == Some(q)
  {
    FeedAppend(Before, es, [e]);
    FeedCons(p, e, []);
    assert [e] + [] == [e];
    if Feed(p, e).Some? { FeedNothing(Feed(p, e).value); }
    hide FeedAll, Feed;
  }

  lemma TwoMoreEvents(es: seq<Event>, p: Partial, e: Event, f: Event, q: Partial)
    requires IsPartial(p) && FeedAll(Before, es) == Some(p) && FeedAll(Before, es + [e, f]) == Some(q)
    requires |Base(p)| <= DOM_STACK_SIZE && IsScalarKind(e.kind)
    ensures Feed(p, e).Some? && |Base(Feed(p, e).value)| <= DOM_STACK_SIZE
    ensures FeedAll(Before, es + [e]) == Some(Feed(p, e).value)
  {
    FeedAppend(Before, es, [e, f]);
    FeedCons(p, e, [f]);
    assert [e] + [f] == [e, f];
    FeedAppend(Before, es, [e]);
    FeedCons(p, e, []);
    assert [e] + [] == [e];
    FeedNothing(Feed(p, e).value);
    hide FeedAll;
  }

  lemma NoKindFeedsNothing(es: seq<Event>, p: Partial, e: Event, f: Event)
    requires IsPartial(p) && FeedAll(Before, es) == Some(p) && e.kind == NoKind
    ensures FeedAll(Before, es + [e, f]) == None
  {
    NoKindIsNotFed(p, e);
    hide IsPartial, Feed;
    FeedAppend(Before, es, [e, f]);
    FeedCons(p, e, [f]);
    assert [e] + [f] == [e, f];
  }

  lemma NoKindIsNotFed(p: Partial, e: Event)
    requires IsPartial(p) && e.kind == NoKind
    ensures Feed(p, e) == None
  {}

  lemma EventsShallow(es: seq<Event>, p: Partial, es': seq<Event>, q: Partial)
    requires IsPartial(p) && FeedAll(Before, es) == Some(p) && Shallow(Before, es)
    requires FeedAll(Before, es') == Some(q) && |Base(q)| <= DOM_STACK_SIZE
    requires |es| <= |es'| <= |es| + 2 && es'[..|es|] == es
    requires |es'| == |es| + 2 ==> es'[|es|].kind == NoKind || IsScalarKind(es'[|es|].kind)
    ensures Shallow(Before, es')
  {
    hide FeedAll, Shallow, Feed, Base, IsPartial;
    var n := |es|;
    if |es'| == n {
      assert es' == es;
    } else if |es'| == n + 1 {
      var e := es'[n];
      assert es' == es + [e];
      OneMoreEvent(es, p, e, q);
      ShallowNext(es, p, e);
    } else {
      var e, f := es'[n], es'[n + 1];
      assert es' == es + [e, f];
      assert es' == es + [e] + [f];
      ShallowLast(es, p);
      if e.kind == NoKind { NoKindFeedsNothing(es, p, e, f); }
      TwoMoreEvents(es, p, e, f, q);
      ShallowNext(es, p, e);
      OneMoreEvent(es + [e], Feed(p, e).value, f, q);
      ShallowNext(es + [e], Feed(p, e).value, f);
    }
  }

  lemma NewEventsShallow(m: Machine, p: Partial, m': Machine, q: Partial)
    requires Builds(m, p) && Builds(m', q) && Shallow(Before, m.events) && |m'.stack| <= DOM_STACK_SIZE
    requires var n := |m.events|;
      && n <= |m'.events| <= n + 2 && m'.events[..n] == m.events
      && (|m'.events| == n + 2 ==> m'.events[n].kind == m.kind)
    ensures Shallow(Before, m'.events)
  {
    hide FeedAll, Shallow, IsPartial, Fits, Position;
    assert |Base(q)| == |m'.stack|;
    EventsShallow(m.events, p, m'.events, q);
  }

  lemma {:induction false} RunShallow(cfg: Config, m: Machine, p: Partial, s: Bytes) returns (q: Partial)
    requires 0 < cfg.maxNesting <= DOM_STACK_SIZE && Within(cfg, m)
    requires Builds(m, p) && Tidy(m) && Shallow(Before, m.events) && Run(cfg, m, s).err == Success
    ensures Builds(Run(cfg, m, s).m, q) && Shallow(Before, Run(cfg, m, s).m.events)
    decreases |s|
  {
    hide Step, Builds, HexTail, Shallow;
    if s == [] {
      q := p;
    } else {
      var m' := Step(cfg, m, s[0]).m;
      var p' := StepBuilds(cfg, m, p, s[0]);
      StepTidy(cfg, m, s[0]);
      StepWithin(cfg, m, s[0]);
      StepEvents(cfg, m, s[0]);
      NewEventsShallow(m, p, m', p');
      q := RunShallow(cfg, m', p', s[1..]);
    }
  }

  /** After no prefix is more open than the builder has room for. */
  predicate StaysShallow(cfg: Config, s: Bytes) {
    forall i :: 0 <= i <= |s| ==> |Run(cfg, START, s[..i]).m.stack| <= 1024
  }

  /** The same parser, limited to the room the builder has. */
  function AsDeepAsBuilder(cfg: Config): Config {
    cfg.(maxNesting := DOM_STACK_SIZE, maxData := 0)
  }

  lemma PrefixRuns(cfg: Config, s: Bytes, i: nat)
    requires i <= |s| && Run(cfg, START, s).err == Success
    ensures Run(cfg, START, s[..i]).err == Success
    ensures Run(cfg, START, s[..i]) == Run(cfg.WithoutLimits(), START, s[..i])
    ensures Run(cfg, START, s[..i]).m.events <= Run(cfg, START, s).m.events
  {
    assert s == s[..i] + s[i..];
    RunAppend(cfg, START, s[..i], s[i..]);
    hide Run;
    RunWithoutLimits(cfg, START, s[..i]);
    EventsGrow(cfg, Run(cfg, START, s[..i]).m, s[i..]);
  }

  lemma ShallowIsLimited(cfg: Config, s: Bytes)
    requires Run(cfg, START, s).err == Success
    ensures var deep := AsDeepAsBuilder(cfg);
      StaysShallow(cfg, s) <==> Run(deep, START, s).err == Success
    ensures StaysShallow(cfg, s) ==> Run(AsDeepAsBuilder(cfg), START, s) == Run(cfg, START, s)
  {
    hide Run;
    var deep := AsDeepAsBuilder(cfg);
    RunWithoutLimits(cfg, START, s);
    LimitsCutOff(deep, s);
    forall i | 0 <= i <= |s| ensures PrefixFits(deep, START, s, i) <==> |Run(cfg, START, s[..i]).m.stack| <= DOM_STACK_SIZE {
      PrefixRuns(cfg, s, i);
    }
    hide PrefixFits;
    if StaysShallow(cfg, s) {
      forall i | 0 <= i <= |s| ensures PrefixFits(deep, START, s, i) {}
    }
  }

  /** If the events leave the builder room, the parser never had more open. */
  lemma ShallowEvents(cfg: Config, s: Bytes)
    requires Run(cfg, START, s).err == Success && FeedAll(Before, Run(cfg, START, s).m.events).Some?
    requires Shallow(Before, Run(cfg, START, s).m.events)
    ensures StaysShallow(cfg, s)
  {
    hide Run, Shallow, FeedAll;
    forall i | 0 <= i <= |s| ensures |Run(cfg, START, s[..i]).m.stack| <= DOM_STACK_SIZE {
      PrefixRuns(cfg, s, i);
      ShallowSoFar(cfg, s[..i], Run(cfg, START, s).m.events);
    }
  }

  lemma ShallowSoFar(cfg: Config, s: Bytes, es: seq<Event>)
    requires Run(cfg, START, s).err == Success && Run(cfg, START, s).m.events <= es && Shallow(Before, es)
    ensures |Run(cfg, START, s).m.stack| <= DOM_STACK_SIZE
  {
    hide Run, Shallow, FeedAll, Fits, KindFits, Position;
    RunsAreStructured(cfg, s);
    var m := Run(cfg, START, s).m;
    var p :| Builds(m, p);
    assert es == m.events + es[|m.events|..];
    ShallowPrefix(Before, m.events, es[|m.events|..]);
    ShallowLast(m.events, p);
    assert |Modes(Base(p))| == |Base(p)|;
  }

  /**
    The builder's first stack does for the events of a run exactly if no more was ever open than it has room for.
    The builder then has as many open structures as the parser, of the same kinds, and a root exactly when the
    outermost one has been closed.
   */
  lemma BuilderFollowsParser(cfg: Config, s: Bytes)
    requires Run(cfg, START, s).err == Success
    ensures var m := Run(cfg, START, s).m; var d := DomRun(EMPTY_DOM, m.events);
      && (d.Some? <==> StaysShallow(cfg, s))
      && (d.Some? ==>
        && |d.value.stack| == |m.stack|
        && (forall i :: 0 <= i < |m.stack| ==> (d.value.stack[i].val.Obj? <==> m.stack[i] == ObjectMode))
        && (d.value.root.Some? <==> m.stack == [] && m.events != []))
  {
    hide Run, StaysShallow, DomRun, Shallow;
    ShallowIsLimited(cfg, s);
    if StaysShallow(cfg, s) {
      ShallowBuilder(AsDeepAsBuilder(cfg), s);
    } else {
      RunsAreStructured(cfg, s);
      var m := Run(cfg, START, s).m;
      var p :| Builds(m, p);
      if Shallow(Before, m.events) {
        ShallowEvents(cfg, s);
      } else {
        DomRunFails(EMPTY_DOM, Before, m.events);
      }
    }
  }

  lemma ShallowBuilder(cfg: Config, s: Bytes)
    requires 0 < cfg.maxNesting <= DOM_STACK_SIZE && Run(cfg, START, s).err == Success
    ensures var m := Run(cfg, START, s).m; var d := DomRun(EMPTY_DOM, m.events);
      && d.Some? && |d.value.stack| == |m.stack|
      && (forall i :: 0 <= i < |m.stack| ==> (d.value.stack[i].val.Obj? <==> m.stack[i] == ObjectMode))
      && (d.value.root.Some? <==> m.stack == [] && m.events != [])
  {
    hide Run, Step;
    assert Builds(START, Before) by { FeedNothing(Before); }
    var q := RunShallow(cfg, START, Before, s);
    var m := Run(cfg, START, s).m;
    DomRunHolds(EMPTY_DOM, Before, m.events);
    FeedAllEvents(Before, m.events);
    assert Events(Before) + m.events == m.events;
    var d := DomRun(EMPTY_DOM, m.events).value;
    hide FeedAll, DomRun;
    forall i | 0 <= i < |m.stack| ensures d.stack[i].val.Obj? <==> m.stack[i] == ObjectMode {
      assert q.Inside? && SameElem(d.stack[i], q.frames[i]) && Modes(Base(q))[i] == m.stack[i];
    }
    DoneHasEvents(q);
  }

  lemma DoneHasEvents(p: Partial)
    requires IsPartial(p)
    ensures Events(p) == [] <==> p.Before?
  {
    if p.Inside? { assert FrameEvents(Top(p)) != []; }
  }

  /**
    Whatever a parser accepts is a document with the reported events. If it is no deeper than the builder's first
    stack has room for, feeding the events to the builder gives the document; otherwise that stack does not do.
   */
  lemma ParsingBuildsDocument(cfg: Config, s: Bytes) returns (d: Document, v: Json)
    requires Accepts(cfg, s)
    ensures Spells(cfg, d, v) && Text(d) == s && Run(cfg, START, s).m.events == Linearise(v)
    ensures DomRun(EMPTY_DOM, Run(cfg, START, s).m.events) ==
      if Depth(v) <= 1024 then Some(Dom([], Some(v))) else None
  {
    hide Run, StaysShallow, Text, Linearise, DomRun, TokensFit;
    d, v := FindDocument(cfg, s);
    if Depth(v) <= DOM_STACK_SIZE {
      DomBuildsDocument(v);
    } else {
      var deep := AsDeepAsBuilder(cfg);
      SameGrammar(cfg, deep, d, v);
      DocumentsWithLimits(deep, d, v);
      ShallowIsLimited(cfg, s);
      BuilderFollowsParser(cfg, s);
    }
  }

  /** A text is the text of at most one document tree. */
  lemma ParseIsUnique(cfg: Config, d: Document, v: Json, d': Document, v': Json)
    requires Spells(cfg, d, v) && Spells(cfg, d', v') && Text(d) == Text(d')
    ensures v == v'
  {
    hide Run, Text;
    var free := cfg.WithoutLimits();
    SameGrammar(cfg, free, d, v);
    SameGrammar(cfg, free, d', v');
    DocumentsAreAccepted(free, d, v);
    DocumentsAreAccepted(free, d', v');
    LineariseInjective(v, v');
  }

  // Chunks.

  function Concat(chunks: seq<Bytes>): Bytes {
    if chunks == [] then [] else chunks[0] + Concat(chunks[1..])
  }

  /** Successive calls of `json_parser_string`, up to the first that fails. */
  function RunChunks(cfg: Config, m: Machine, chunks: seq<Bytes>): Result
    requires Safe(m)
    decreases |chunks|
  {
    if chunks == [] then Result(m, Success, 0)
    else
      var r := Run(cfg, m, chunks[0]);
      if r.err != Success then r
      else
        var rest := RunChunks(cfg, r.m, chunks[1..]);
        rest.(processed := r.processed + rest.processed)
  }

  /** However a text is cut into calls: same events, state, error and number of bytes consumed. */
  lemma {:induction false} ChunksDoNotMatter(cfg: Config, m: Machine, chunks: seq<Bytes>)
    requires Safe(m)
    ensures RunChunks(cfg, m, chunks) == Run(cfg, m, Concat(chunks))
    decreases |chunks|
  {
    if chunks != [] {
      RunAppend(cfg, m, chunks[0], Concat(chunks[1..]));
      var r := Run(cfg, m, chunks[0]);
      if r.err == Success {
        ChunksDoNotMatter(cfg, r.m, chunks[1..]);
      }
      hide Run;
    }
  }
}
