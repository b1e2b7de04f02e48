/**
  The DOM builder of ctcpsvr/json.cpp, and the prefixes of well-formed event sequences it is fed:
  each is the events of one tree under construction, and the builder holds exactly that tree.
 */
module JsonDom {
  import opened Options
  import opened JsonTypes
  import opened JsonSyntax

  // Trees under construction.

  /** A container that is still open. `key` is a key whose value has not been completed. */
  datatype Frame = OpenArr(items: seq<Json>) | OpenObj(members: seq<Member>, key: Option<Bytes>)

  datatype Partial = Before | Inside(frames: seq<Frame>) | Done(value: Json)

  predicate TakesValue(f: Frame) {
    f.OpenArr? || f.key.Some?
  }

  function WithValue(f: Frame, v: Json): Frame
    requires TakesValue(f)
  {
    match f
    case OpenArr(items) => OpenArr(items + [v])
    case OpenObj(members, key) => OpenObj(members + [Member(key.value, v)], None)
  }

  function Closed(f: Frame): Json {
    match f
    case OpenArr(items) => Arr(items)
    case OpenObj(members, _) => Obj(members)
  }

  function ModeOf(f: Frame): Mode {
    if f.OpenArr? then ArrayMode else ObjectMode
  }

  function Opening(mode: Mode): Kind {
    if mode == ObjectMode then ObjectBegin else ArrayBegin
  }

  function Ending(mode: Mode): Kind {
    if mode == ObjectMode then ObjectEnd else ArrayEnd
  }

  /** Only the outermost frame may be without a frame that takes its value. */
  predicate IsPartial(p: Partial) {
    p.Inside? ==>
      p.frames != [] && forall i :: 0 <= i < |p.frames| - 1 ==> TakesValue(p.frames[i])
  }

  function Top(p: Partial): Frame
    requires p.Inside? && p.frames != []
  {
    p.frames[|p.frames| - 1]
  }

  function Under(p: Partial): seq<Frame>
    requires p.Inside? && p.frames != []
  {
    p.frames[..|p.frames| - 1]
  }

  /** A completed value goes where it was awaited. */
  function Complete(frames: seq<Frame>, v: Json): Partial
    requires frames != [] ==> TakesValue(frames[|frames| - 1])
  {
    if frames == [] then Done(v)
    else Inside(frames[..|frames| - 1] + [WithValue(frames[|frames| - 1], v)])
  }

  predicate AwaitsValue(p: Partial) {
    p.Inside? && p.frames != [] && TakesValue(Top(p))
  }

  predicate AwaitsKeyOrEnd(p: Partial, mode: Mode) {
    p.Inside? && p.frames != [] && ModeOf(Top(p)) == mode && (Top(p).OpenObj? ==> Top(p).key.None?)
  }

  /** The frames around a value completed or opened next. */
  function Base(p: Partial): seq<Frame> {
    if p.Inside? then p.frames else []
  }

  function Fresh(mode: Mode): Frame {
    if mode == ObjectMode then OpenObj([], None) else OpenArr([])
  }

  /** One more event, when it may come next. */
  function Feed(p: Partial, e: Event): Option<Partial>
    requires IsPartial(p)
  {
    if e.kind == ArrayBegin || e.kind == ObjectBegin then
      if (p.Before? || AwaitsValue(p)) && e.data == [] then
        Some(Inside(Base(p) + [Fresh(if e.kind == ObjectBegin then ObjectMode else ArrayMode)]))
      else None
    else if e.kind == ArrayEnd || e.kind == ObjectEnd then
      if AwaitsKeyOrEnd(p, if e.kind == ArrayEnd then ArrayMode else ObjectMode) && e.data == []
      then Some(Complete(Under(p), Closed(Top(p))))
      else None
    else if e.kind == KeyKind then
      if AwaitsKeyOrEnd(p, ObjectMode)
      then Some(Inside(Under(p) + [OpenObj(Top(p).members, Some(e.data))]))
      else None
    else if e.kind == StringKind || IsScalarKind(e.kind) then
      if AwaitsValue(p) then Some(Complete(p.frames, Leaf(e.kind, e.data))) else None
    else None
  }

  lemma FeedKeepsPartial(p: Partial, e: Event)
    requires IsPartial(p) && Feed(p, e).Some?
    ensures IsPartial(Feed(p, e).value)
  {}

  function FeedAll(p: Partial, es: seq<Event>): (r: Option<Partial>)
    requires IsPartial(p)
    ensures r.Some? ==> IsPartial(r.value)
    decreases |es|
  {
    if es == [] then Some(p)
    else
      var next := Feed(p, es[0]);
      if next == None then None
      else
        FeedKeepsPartial(p, es[0]);
        FeedAll(next.value, es[1..])
  }

  lemma {:induction false} FeedAppend(p: Partial, a: seq<Event>, b: seq<Event>)
    requires IsPartial(p)
    ensures FeedAll(p, a + b) == match FeedAll(p, a) case None => None case Some(q) => FeedAll(q, b)
    decreases |a|
  {
    hide Feed, IsPartial;
    if a == [] {
      assert a + b == b;
    } else {
      assert (a + b)[1..] == a[1..] + b;
      if Feed(p, a[0]).Some? {
        FeedKeepsPartial(p, a[0]);
        FeedAppend(Feed(p, a[0]).value, a[1..], b);
      }
    }
  }

  lemma FeedCons(p: Partial, e: Event, es: seq<Event>)
    requires IsPartial(p)
    ensures Feed(p, e).Some? ==> IsPartial(Feed(p, e).value)
    ensures FeedAll(p, [e] + es) == match Feed(p, e) case None => None case Some(q) => FeedAll(q, es)
  {
    if Feed(p, e).Some? { FeedKeepsPartial(p, e); }
    assert ([e] + es)[1..] == es;
  }

  // The events of a tree complete it.

  /** Where a whole value may come: at the start when it is a container, else where one is awaited. */
  predicate CanComplete(p: Partial, v: Json) {
    AwaitsValue(p) || (p.Before? && !v.Leaf?)
  }

  function Completed(p: Partial, v: Json): Partial
    requires CanComplete(p, v)
  {
    Complete(Base(p), v)
  }

  lemma {:induction false} FeedValue(p: Partial, v: Json)
    requires IsPartial(p) && IsJson(v) && CanComplete(p, v)
    ensures FeedAll(p, Linearise(v)) == Some(Completed(p, v))
    decreases v, 1
  {
    match v
    case Leaf(kind, data) =>
      FeedCons(p, Event(kind, data), []);
      assert Linearise(v) == [Event(kind, data)] + [];
    case Arr(items) =>
      FeedOpening(p, ArrayMode);
      FeedItems(Base(p), [], items);
      assert [] + items == items;
      FeedContainer(p, OpenArr(items), LineariseItems(items));
    case Obj(members) =>
      FeedOpening(p, ObjectMode);
      FeedMembers(Base(p), [], members);
      assert [] + members == members;
      FeedContainer(p, OpenObj(members, None), LineariseMembers(members));
  }

  /** The partial tree just inside a container. */
  function Opened(p: Partial, mode: Mode): Partial {
    Inside(Base(p) + [Fresh(mode)])
  }

  lemma FeedOpening(p: Partial, mode: Mode)
    requires IsPartial(p) && (p.Before? || AwaitsValue(p))
    ensures TakesValues(Base(p)) && IsPartial(Opened(p, mode))
    ensures Feed(p, Event(Opening(mode), [])) == Some(Opened(p, mode))
  {
    if p.Inside? {
      assert forall i :: 0 <= i < |p.frames| ==> i < |p.frames| - 1 || p.frames[i] == Top(p);
    }
  }

  lemma FeedContainer(p: Partial, f: Frame, inner: seq<Event>)
    requires IsPartial(p) && (p.Before? || AwaitsValue(p))
    requires IsPartial(Opened(p, ModeOf(f))) && (f.OpenObj? ==> f.key.None?)
    requires FeedAll(Opened(p, ModeOf(f)), inner) == Some(Inside(Base(p) + [f]))
    requires Feed(p, Event(Opening(ModeOf(f)), [])) == Some(Opened(p, ModeOf(f)))
    ensures FeedAll(p, [Event(Opening(ModeOf(f)), [])] + inner + [Event(Ending(ModeOf(f)), [])])
      == Some(Completed(p, Closed(f)))
  {
    hide FeedAll;
    var mode := ModeOf(f);
    var q, r, e := Opened(p, mode), Inside(Base(p) + [f]), Event(Ending(mode), []);
    FeedCons(p, Event(Opening(mode), []), inner + [e]);
    FeedAppend(q, inner, [e]);
    assert Under(r) == Base(p) && Top(r) == f;
    FeedCons(r, e, []);
    FeedNothing(Completed(p, Closed(f)));
    assert [e] + [] == [e];
    assert [Event(Opening(mode), [])] + inner + [e] == [Event(Opening(mode), [])] + (inner + [e]);
  }

  lemma FeedNothing(p: Partial)
    requires IsPartial(p)
    ensures FeedAll(p, []) == Some(p)
  {}

  predicate TakesValues(frames: seq<Frame>) {
    forall i :: 0 <= i < |frames| ==> TakesValue(frames[i])
  }

  lemma {:induction false} FeedItems(under: seq<Frame>, before: seq<Json>, items: seq<Json>)
    requires TakesValues(under) && forall i :: 0 <= i < |items| ==> IsJson(items[i])
    ensures FeedAll(Inside(under + [OpenArr(before)]), LineariseItems(items))
      == Some(Inside(under + [OpenArr(before + items)]))
    decreases items, 0
  {
    hide FeedAll;
    var p := Inside(under + [OpenArr(before)]);
    if items == [] {
      FeedNothing(p);
      assert before + items == before;
    } else {
      FeedValue(p, items[0]);
      hide Feed;
      assert Completed(p, items[0]) == Inside(under + [OpenArr(before + [items[0]])]);
      FeedAppend(p, Linearise(items[0]), LineariseItems(items[1..]));
      FeedItems(under, before + [items[0]], items[1..]);
      assert before + items == before + [items[0]] + items[1..];
    }
  }

  lemma KeyFed(under: seq<Frame>, before: seq<Member>, key: Bytes)
    requires TakesValues(under)
    ensures var p := Inside(under + [OpenObj(before, None)]); var k := Inside(under + [OpenObj(before, Some(key))]);
      IsPartial(p) && IsPartial(k) && Feed(p, Event(KeyKind, key)) == Some(k)
  {}

  lemma MemberFed(under: seq<Frame>, before: seq<Member>, m: Member)
    requires TakesValues(under)
    ensures var k := Inside(under + [OpenObj(before, Some(m.key))]);
      && CanComplete(k, m.value)
      && Completed(k, m.value) == Inside(under + [OpenObj(before + [m], None)])
  {}

  lemma {:induction false} FeedMembers(under: seq<Frame>, before: seq<Member>, members: seq<Member>)
    requires TakesValues(under) && forall i :: 0 <= i < |members| ==> IsJson(members[i].value)
    ensures FeedAll(Inside(under + [OpenObj(before, None)]), LineariseMembers(members))
      == Some(Inside(under + [OpenObj(before + members, None)]))
    decreases members, 0
  {
    hide FeedAll, Feed, Completed, TakesValues, TakesValue, IsPartial, Complete;
    var p := Inside(under + [OpenObj(before, None)]);
    if members == [] {
      assert IsPartial(p) by { KeyFed(under, before, []); }
      FeedNothing(p);
      assert before + members == before;
    } else {
      var m := members[0];
      FeedMember(under, before, m);
      KeyFed(under, before, []);
      FeedAppend(p, LineariseMember(m), LineariseMembers(members[1..]));
      FeedMembers(under, before + [m], members[1..]);
      hide LineariseMember;
      assert before + members == before + [m] + members[1..];
    }
  }

  lemma FeedMember(under: seq<Frame>, before: seq<Member>, m: Member)
    requires TakesValues(under) && IsJson(m.value)
    ensures IsPartial(Inside(under + [OpenObj(before, None)]))
    ensures FeedAll(Inside(under + [OpenObj(before, None)]), LineariseMember(m)) == Some(Inside(under + [OpenObj(before + [m], None)]))
    decreases m, 2
  {
    hide FeedAll, Feed, TakesValues, TakesValue, IsPartial, Complete;
    var p, k := Inside(under + [OpenObj(before, None)]), Inside(under + [OpenObj(before, Some(m.key))]);
    KeyFed(under, before, m.key);
    MemberFed(under, before, m);
    FeedCons(p, Event(KeyKind, m.key), Linearise(m.value));
    FeedValue(k, m.value);
  }

  /** Distinct documents have distinct events. */
  lemma LineariseInjective(v: Json, w: Json)
    requires IsJson(v) && IsJson(w) && !v.Leaf? && !w.Leaf? && Linearise(v) == Linearise(w)
    ensures v == w
  {
    FeedValue(Before, v);
    FeedValue(Before, w);
  }

  // The events of a tree under construction.

  function FrameEvents(f: Frame): seq<Event> {
    match f
    case OpenArr(items) => [Event(ArrayBegin, [])] + LineariseItems(items)
    case OpenObj(members, key) =>
      [Event(ObjectBegin, [])] + LineariseMembers(members) + (if key.Some? then [Event(KeyKind, key.value)] else [])
  }

  function FramesEvents(frames: seq<Frame>): seq<Event> {
    if frames == [] then []
    else FramesEvents(frames[..|frames| - 1]) + FrameEvents(frames[|frames| - 1])
  }

  function Events(p: Partial): seq<Event> {
    match p
    case Before => []
    case Inside(frames) => FramesEvents(frames)
    case Done(v) => Linearise(v)
  }

  lemma {:induction false} LineariseItemsAppend(a: seq<Json>, v: Json)
    ensures LineariseItems(a + [v]) == LineariseItems(a) + Linearise(v)
    decreases |a|
  {
    if a == [] {
      assert (a + [v])[1..] == [];
    } else {
      assert (a + [v])[1..] == a[1..] + [v];
      LineariseItemsAppend(a[1..], v);
    }
  }

  lemma {:induction false} LineariseMembersAppend(a: seq<Member>, m: Member)
    ensures LineariseMembers(a + [m]) == LineariseMembers(a) + LineariseMember(m)
    decreases |a|
  {
    hide LineariseMember;
    if a == [] {
      assert (a + [m])[1..] == [];
    } else {
      assert (a + [m])[1..] == a[1..] + [m];
      LineariseMembersAppend(a[1..], m);
    }
  }

  lemma WithValueEvents(f: Frame, v: Json)
    requires TakesValue(f)
    ensures FrameEvents(WithValue(f, v)) == FrameEvents(f) + Linearise(v)
  {
    match f
    case OpenArr(items) =>
      LineariseItemsAppend(items, v);
    case OpenObj(members, key) =>
      LineariseMembersAppend(members, Member(key.value, v));
  }

  lemma CompleteEvents(frames: seq<Frame>, v: Json)
    requires frames != [] ==> TakesValue(frames[|frames| - 1])
    ensures Events(Complete(frames, v)) == FramesEvents(frames) + Linearise(v)
  {
    if frames != [] {
      var n := |frames| - 1;
      var c := frames[..n] + [WithValue(frames[n], v)];
      assert c[..n] == frames[..n];
      WithValueEvents(frames[n], v);
      hide FrameEvents, WithValue, Linearise;
      assert Complete(frames, v) == Inside(c);
      assert FramesEvents(c) == FramesEvents(frames[..n]) + FrameEvents(c[n]);
    }
  }

  lemma FramesEventsAppend(frames: seq<Frame>, f: Frame)
    ensures FramesEvents(frames + [f]) == FramesEvents(frames) + FrameEvents(f)
  {
    hide FrameEvents;
    assert (frames + [f])[..|frames|] == frames;
  }

  lemma BeginEvents(p: Partial, mode: Mode)
    requires p.Before? || p.Inside?
    ensures Events(Opened(p, mode)) == Events(p) + [Event(Opening(mode), [])]
  {
    hide FramesEvents;
    FramesEventsAppend(Base(p), Fresh(mode));
    assert FrameEvents(Fresh(mode)) == [Event(Opening(mode), [])];
    assert p.Before? ==> FramesEvents(Base(p)) == [] by { NoFrames(); }
  }

  lemma NoFrames()
    ensures FramesEvents([]) == []
  {}

  lemma EndEvents(p: Partial)
    requires p.Inside? && p.frames != [] && (Top(p).OpenObj? ==> Top(p).key.None?)
    requires Under(p) != [] ==> TakesValue(Under(p)[|Under(p)| - 1])
    ensures Events(Complete(Under(p), Closed(Top(p)))) == Events(p) + [Event(Ending(ModeOf(Top(p))), [])]
  {
    hide FramesEvents, Complete;
    CompleteEvents(Under(p), Closed(Top(p)));
    FramesEventsAppend(Under(p), Top(p));
    InsideEvents(p);
    hide Events;
    assert p.frames == Under(p) + [Top(p)];
    assert Linearise(Closed(Top(p))) == FrameEvents(Top(p)) + [Event(Ending(ModeOf(Top(p))), [])];
  }

  lemma KeyEvents(p: Partial, key: Bytes)
    requires AwaitsKeyOrEnd(p, ObjectMode)
    ensures Events(Inside(Under(p) + [OpenObj(Top(p).members, Some(key))])) == Events(p) + [Event(KeyKind, key)]
  {
    hide FramesEvents;
    FramesEventsAppend(Under(p), Top(p));
    FramesEventsAppend(Under(p), OpenObj(Top(p).members, Some(key)));
    assert p.frames == Under(p) + [Top(p)];
    assert FrameEvents(OpenObj(Top(p).members, Some(key))) == FrameEvents(Top(p)) + [Event(KeyKind, key)];
  }

  /** An event that may come next extends the events by itself. */
  lemma FeedEvents(p: Partial, e: Event)
    requires IsPartial(p) && Feed(p, e).Some?
    ensures Events(Feed(p, e).value) == Events(p) + [e]
  {
    hide Events, FramesEvents;
    if e.kind == ArrayBegin {
      BeginEvents(p, ArrayMode);
    } else if e.kind == ObjectBegin {
      BeginEvents(p, ObjectMode);
    } else if e.kind == ArrayEnd || e.kind == ObjectEnd {
      EndEvents(p);
    } else if e.kind == KeyKind {
      KeyEvents(p, e.data);
    } else {
      CompleteEvents(p.frames, Leaf(e.kind, e.data));
      assert Events(p) == FramesEvents(p.frames) by { InsideEvents(p); }
    }
  }

  lemma InsideEvents(p: Partial)
    requires p.Inside?
    ensures Events(p) == FramesEvents(p.frames)
  {}

  /** A sequence of events that may come is the events of the tree under construction. */
  lemma {:induction false} FeedAllEvents(p: Partial, es: seq<Event>)
    requires IsPartial(p) && FeedAll(p, es).Some?
    ensures Events(FeedAll(p, es).value) == Events(p) + es
    decreases |es|
  {
    hide Feed, IsPartial, Events;
    if es == [] {
      assert Events(p) + es == Events(p);
    } else {
      FeedKeepsPartial(p, es[0]);
      FeedEvents(p, es[0]);
      FeedAllEvents(Feed(p, es[0]).value, es[1..]);
      assert Events(p) + es == Events(p) + [es[0]] + es[1..];
    }
  }

  // The builder.

  const DOM_STACK_SIZE := 1024

  /** `struct stack_elem`; the value is the structure as the append callback has filled it so far. */
  datatype Elem = Elem(val: Json, key: Bytes)

  datatype Dom = Dom(stack: seq<Elem>, root: Option<Json>)

  const EMPTY_DOM := Dom([], None)

  /** The append callback of a client that keeps what it is given. */
  function AppendTo(parent: Json, key: Bytes, v: Json): Json {
    match parent
    case Arr(items) => Arr(items + [v])
    case Obj(members) => Obj(members + [Member(key, v)])
    case Leaf(_, _) => parent
  }

  /** What the callback relies on: room on its stack, and a structure to add to. */
  predicate CanTake(d: Dom, e: Event) {
    if e.kind == ArrayBegin || e.kind == ObjectBegin then |d.stack| < DOM_STACK_SIZE else d.stack != []
  }

  /** Adds a value to the innermost structure. */
  function AddToTop(stack: seq<Elem>, v: Json): seq<Elem>
    requires stack != []
  {
    var n := |stack| - 1;
    stack[n := stack[n].(val := AppendTo(stack[n].val, stack[n].key, v))]
  }

  /** `json_parser_dom_callback`. */
  function DomStep(d: Dom, e: Event): Dom
    requires CanTake(d, e)
  {
    if e.kind == ArrayBegin then d.(stack := d.stack + [Elem(Arr([]), [])])
    else if e.kind == ObjectBegin then d.(stack := d.stack + [Elem(Obj([]), [])])
    else
      var n := |d.stack| - 1;
      if e.kind == ArrayEnd || e.kind == ObjectEnd then
        if n > 0 then d.(stack := AddToTop(d.stack[..n], d.stack[n].val))
        else Dom([], Some(d.stack[n].val))
      else if e.kind == KeyKind then d.(stack := d.stack[n := d.stack[n].(key := e.data)])
      else if e.kind == StringKind || IsScalarKind(e.kind) then d.(stack := AddToTop(d.stack, Leaf(e.kind, e.data)))
      else d
  }

  /** The builder after a list of events, or None if its stack would not do. */
  function DomRun(d: Dom, es: seq<Event>): Option<Dom>
    decreases |es|
  {
    if es == [] then Some(d)
    else if !CanTake(d, es[0]) then None
    else DomRun(DomStep(d, es[0]), es[1..])
  }

  class DomBuilder {
    var stack: array<Elem>
    var stackOffset: nat
    var root: Option<Json>

    ghost predicate Valid()
      reads this, stack
    {
      stack.Length == DOM_STACK_SIZE && stackOffset <= stack.Length
    }

    ghost function Abs(): Dom
      requires Valid()
      reads this, stack
    {
      Dom(stack[..stackOffset], root)
    }

    constructor ()
      ensures Valid() && Abs() == EMPTY_DOM && fresh(stack)
    {
      stack := new Elem[DOM_STACK_SIZE](_ => Elem(Arr([]), []));
      stackOffset := 0;
      root := None;
    }

    method Push(v: Json)
      requires Valid() && stackOffset < DOM_STACK_SIZE
      modifies this`stackOffset, stack
      ensures Valid() && Abs() == old(Abs()).(stack := old(Abs()).stack + [Elem(v, [])])
    {
      stack[stackOffset] := Elem(v, []);
      stackOffset := stackOffset + 1;
    }

    method Pop() returns (v: Json)
      requires Valid() && stackOffset > 0
      modifies this`stackOffset
      ensures Valid() && stackOffset == old(stackOffset) - 1
      ensures v == old(stack[stackOffset - 1].val)
      ensures Abs() == old(Abs()).(stack := old(Abs()).stack[..stackOffset])
    {
      stackOffset := stackOffset - 1;
      v := stack[stackOffset].val;
    }

    method AppendTop(v: Json)
      requires Valid() && stackOffset > 0
      modifies stack
      ensures Abs() == old(Abs()).(stack := AddToTop(old(Abs()).stack, v))
    {
      var top := stack[stackOffset - 1];
      stack[stackOffset - 1] := top.(val := AppendTo(top.val, top.key, v));
    }

    method Callback(e: Event)
      requires Valid() && CanTake(Abs(), e)
      modifies this, stack
      ensures Valid() && stack == old(stack) && Abs() == DomStep(old(Abs()), e)
    {
      if e.kind == ArrayBegin || e.kind == ObjectBegin {
        Push(if e.kind == ObjectBegin then Obj([]) else Arr([]));
      } else if e.kind == ArrayEnd || e.kind == ObjectEnd {
        var v := Pop();
        if stackOffset > 0 {
          AppendTop(v);
        } else {
          root := Some(v);
        }
      } else if e.kind == KeyKind {
        stack[stackOffset - 1] := stack[stackOffset - 1].(key := e.data);
      } else if e.kind == StringKind || IsScalarKind(e.kind) {
        AppendTop(Leaf(e.kind, e.data));
      }
    }
  }

  // The builder holds the tree under construction.

  predicate SameElem(x: Elem, f: Frame) {
    x.val == Closed(f) && (f.OpenObj? && f.key.Some? ==> x.key == f.key.value)
  }

  predicate SameFrames(stack: seq<Elem>, frames: seq<Frame>) {
    |stack| == |frames| && forall i :: 0 <= i < |stack| ==> SameElem(stack[i], frames[i])
  }

  predicate Holds(d: Dom, p: Partial) {
    match p
    case Before => d == EMPTY_DOM
    case Inside(frames) => SameFrames(d.stack, frames) && d.root == None
    case Done(v) => d == Dom([], Some(v))
  }

  lemma AddKeeps(stack: seq<Elem>, frames: seq<Frame>, v: Json)
    requires SameFrames(stack, frames) && frames != [] && TakesValue(frames[|frames| - 1])
    ensures SameFrames(AddToTop(stack, v), frames[..|frames| - 1] + [WithValue(frames[|frames| - 1], v)])
  {}

  lemma EndHolds(d: Dom, p: Partial, e: Event)
    requires IsPartial(p) && Holds(d, p) && Feed(p, e).Some? && (e.kind == ArrayEnd || e.kind == ObjectEnd)
    ensures CanTake(d, e) && Holds(DomStep(d, e), Feed(p, e).value)
  {
    var n := |d.stack| - 1;
    if n > 0 {
      assert SameFrames(d.stack[..n], Under(p));
      AddKeeps(d.stack[..n], Under(p), Closed(Top(p)));
      hide SameFrames;
    }
  }

  lemma DomStepHolds(d: Dom, p: Partial, e: Event)
    requires IsPartial(p) && Holds(d, p) && Feed(p, e).Some? && |Base(Feed(p, e).value)| <= DOM_STACK_SIZE
    ensures CanTake(d, e) && Holds(DomStep(d, e), Feed(p, e).value)
  {
    if e.kind == ArrayEnd || e.kind == ObjectEnd {
      EndHolds(d, p, e);
    } else if e.kind == StringKind || IsScalarKind(e.kind) {
      AddKeeps(d.stack, p.frames, Leaf(e.kind, e.data));
    }
  }

  /** No more containers are ever open than the builder has room for. */
  predicate Shallow(p: Partial, es: seq<Event>)
    requires IsPartial(p)
    decreases |es|
  {
    |Base(p)| <= DOM_STACK_SIZE &&
    (es == [] || Feed(p, es[0]) == None ||
     (FeedKeepsPartial(p, es[0]); Shallow(Feed(p, es[0]).value, es[1..])))
  }

  /** Fed a well-formed prefix, the builder holds exactly the tree under construction. */
  lemma {:induction false} DomRunHolds(d: Dom, p: Partial, es: seq<Event>)
    requires IsPartial(p) && Holds(d, p) && FeedAll(p, es).Some? && Shallow(p, es)
    ensures DomRun(d, es).Some? && Holds(DomRun(d, es).value, FeedAll(p, es).value)
    decreases |es|
  {
    hide Feed, IsPartial, DomStep, CanTake, Holds, Base;
    if es != [] {
      FeedKeepsPartial(p, es[0]);
      var q := Feed(p, es[0]).value;
      assert |Base(q)| <= DOM_STACK_SIZE;
      DomStepHolds(d, p, es[0]);
      DomRunHolds(DomStep(d, es[0]), q, es[1..]);
    }
  }

  /** With more open than it has room for, the builder's first stack does not do. */
  lemma {:induction false} DomRunFails(d: Dom, p: Partial, es: seq<Event>)
    requires IsPartial(p) && Holds(d, p) && FeedAll(p, es).Some? && |Base(p)| <= DOM_STACK_SIZE && !Shallow(p, es)
    ensures DomRun(d, es) == None
    decreases |es|
  {
    assert es != [];
    FeedKeepsPartial(p, es[0]);
    var q := Feed(p, es[0]).value;
    if |Base(q)| <= DOM_STACK_SIZE {
      DomStepHolds(d, p, es[0]);
      hide Feed, IsPartial, DomStep, CanTake, Holds, Base;
      DomRunFails(DomStep(d, es[0]), q, es[1..]);
    } else {
      NoRoomToOpen(d, p, es[0]);
    }
  }

  lemma NoRoomToOpen(d: Dom, p: Partial, e: Event)
    requires IsPartial(p) && Holds(d, p) && Feed(p, e).Some? && |Base(p)| <= DOM_STACK_SIZE < |Base(Feed(p, e).value)|
    ensures !CanTake(d, e)
  {}

  lemma {:induction false} ShallowPrefix(p: Partial, a: seq<Event>, b: seq<Event>)
    requires IsPartial(p) && FeedAll(p, a).Some? && Shallow(p, a + b)
    ensures Shallow(p, a)
    decreases |a|
  {
    hide Feed, IsPartial, Base;
    if a != [] {
      assert (a + b)[1..] == a[1..] + b;
      FeedKeepsPartial(p, a[0]);
      ShallowPrefix(Feed(p, a[0]).value, a[1..], b);
    }
  }

  /** How many containers enclose the innermost part of `v`, itself included. */
  function Depth(v: Json): nat {
    match v
    case Leaf(_, _) => 0
    case Arr(items) => 1 + ItemsDepth(items)
    case Obj(members) => 1 + MembersDepth(members)
  }

  function Max(a: nat, b: nat): nat {
    if a < b then b else a
  }

  function ItemsDepth(items: seq<Json>): nat {
    if items == [] then 0 else Max(Depth(items[0]), ItemsDepth(items[1..]))
  }

  function MembersDepth(members: seq<Member>): nat {
    if members == [] then 0 else Max(Depth(members[0].value), MembersDepth(members[1..]))
  }

  lemma {:induction false} ShallowAppend(p: Partial, a: seq<Event>, b: seq<Event>)
    requires IsPartial(p) && Shallow(p, a) && FeedAll(p, a).Some? && Shallow(FeedAll(p, a).value, b)
    ensures Shallow(p, a + b)
    decreases |a|
  {
    hide Feed, IsPartial, Base;
    if a == [] {
      assert a + b == b;
    } else {
      assert (a + b)[1..] == a[1..] + b;
      FeedKeepsPartial(p, a[0]);
      ShallowAppend(Feed(p, a[0]).value, a[1..], b);
    }
  }

  lemma ShallowCons(p: Partial, e: Event, es: seq<Event>)
    requires IsPartial(p) && Feed(p, e).Some? && |Base(p)| <= DOM_STACK_SIZE
    requires IsPartial(Feed(p, e).value) && Shallow(Feed(p, e).value, es)
    ensures Shallow(p, [e] + es)
  {
    hide Feed, IsPartial, Base;
    assert ([e] + es)[1..] == es;
  }

  lemma {:induction false} ShallowValue(p: Partial, v: Json)
    requires IsPartial(p) && IsJson(v) && CanComplete(p, v) && |Base(p)| + Depth(v) <= DOM_STACK_SIZE
    ensures Shallow(p, Linearise(v))
    decreases v, 1
  {
    match v
    case Leaf(kind, data) =>
      FeedCons(p, Event(kind, data), []);
      ShallowCons(p, Event(kind, data), []);
    case Arr(items) =>
      FeedOpening(p, ArrayMode);
      FeedItems(Base(p), [], items);
      ShallowItems(Base(p), [], items);
      ShallowContainer(p, OpenArr(items), LineariseItems(items));
    case Obj(members) =>
      FeedOpening(p, ObjectMode);
      FeedMembers(Base(p), [], members);
      ShallowMembers(Base(p), [], members);
      ShallowContainer(p, OpenObj(members, None), LineariseMembers(members));
  }

  lemma ShallowContainer(p: Partial, f: Frame, inner: seq<Event>)
    requires IsPartial(p) && (p.Before? || AwaitsValue(p)) && |Base(p)| < DOM_STACK_SIZE
    requires IsPartial(Opened(p, ModeOf(f))) && (f.OpenObj? ==> f.key.None?)
    requires Feed(p, Event(Opening(ModeOf(f)), [])) == Some(Opened(p, ModeOf(f)))
    requires IsPartial(Inside(Base(p) + [f])) && FeedAll(Opened(p, ModeOf(f)), inner).Some?
    requires |Base(FeedAll(Opened(p, ModeOf(f)), inner).value)| <= DOM_STACK_SIZE
    requires Shallow(Opened(p, ModeOf(f)), inner)
    ensures Shallow(p, [Event(Opening(ModeOf(f)), [])] + inner + [Event(Ending(ModeOf(f)), [])])
  {
    hide FeedAll;
    var mode := ModeOf(f);
    var q, e := Opened(p, mode), Event(Ending(mode), []);
    var r := FeedAll(q, inner).value;
    ShallowEnd(r, e);
    ShallowAppend(q, inner, [e]);
    ShallowCons(p, Event(Opening(mode), []), inner + [e]);
    assert [Event(Opening(mode), [])] + inner + [e] == [Event(Opening(mode), [])] + (inner + [e]);
  }

  lemma ShallowEnd(p: Partial, e: Event)
    requires IsPartial(p) && |Base(p)| <= DOM_STACK_SIZE && (e.kind == ArrayEnd || e.kind == ObjectEnd)
    ensures Shallow(p, [e])
  {
    if Feed(p, e).Some? {
      FeedKeepsPartial(p, e);
      assert [e][1..] == [];
    }
  }

  lemma {:induction false} ShallowItems(under: seq<Frame>, before: seq<Json>, items: seq<Json>)
    requires TakesValues(under) && forall i :: 0 <= i < |items| ==> IsJson(items[i])
    requires |under| + 1 + ItemsDepth(items) <= DOM_STACK_SIZE
    ensures Shallow(Inside(under + [OpenArr(before)]), LineariseItems(items))
    decreases items, 0
  {
    hide FeedAll;
    var p := Inside(under + [OpenArr(before)]);
    if items != [] {
      FeedValue(p, items[0]);
      ShallowValue(p, items[0]);
      assert Completed(p, items[0]) == Inside(under + [OpenArr(before + [items[0]])]);
      hide Feed, Shallow;
      ShallowItems(under, before + [items[0]], items[1..]);
      ShallowAppend(p, Linearise(items[0]), LineariseItems(items[1..]));
    }
  }

  lemma {:induction false} ShallowMembers(under: seq<Frame>, before: seq<Member>, members: seq<Member>)
    requires TakesValues(under) && forall i :: 0 <= i < |members| ==> IsJson(members[i].value)
    requires |under| + 1 + MembersDepth(members) <= DOM_STACK_SIZE
    ensures Shallow(Inside(under + [OpenObj(before, None)]), LineariseMembers(members))
    decreases members, 0
  {
    hide FeedAll;
    var p := Inside(under + [OpenObj(before, None)]);
    if members != [] {
      var m := members[0];
      var k := Inside(under + [OpenObj(before, Some(m.key))]);
      assert Feed(p, Event(KeyKind, m.key)) == Some(k);
      FeedValue(k, m.value);
      ShallowValue(k, m.value);
      ShallowCons(p, Event(KeyKind, m.key), Linearise(m.value));
      FeedCons(p, Event(KeyKind, m.key), Linearise(m.value));
      assert Completed(k, m.value) == Inside(under + [OpenObj(before + [m], None)]);
      hide Feed, Shallow;
      ShallowMembers(under, before + [m], members[1..]);
      ShallowAppend(p, LineariseMember(m), LineariseMembers(members[1..]));
    }
  }

  /** The builder makes of the events of a document that document, its stack empty again. */
  lemma DomBuildsDocument(v: Json)
    requires IsJson(v) && !v.Leaf? && Depth(v) <= 1024
    ensures DomRun(EMPTY_DOM, Linearise(v)) == Some(Dom([], Some(v)))
  {
    FeedValue(Before, v);
    ShallowValue(Before, v);
    DomRunHolds(EMPTY_DOM, Before, Linearise(v));
  }

  // Every tree under construction can be finished.

  predicate FrameIsJson(f: Frame) {
    match f
    case OpenArr(items) => forall i :: 0 <= i < |items| ==> IsJson(items[i])
    case OpenObj(members, _) => forall i :: 0 <= i < |members| ==> IsJson(members[i].value)
  }

  predicate PartialIsJson(p: Partial) {
    match p
    case Before => true
    case Inside(frames) => forall i :: 0 <= i < |frames| ==> FrameIsJson(frames[i])
    case Done(v) => IsJson(v) && !v.Leaf?
  }

  lemma FeedKeepsJson(p: Partial, e: Event)
    requires IsPartial(p) && PartialIsJson(p) && Feed(p, e).Some?
    ensures PartialIsJson(Feed(p, e).value)
  {}

  lemma {:induction false} FeedAllKeepsJson(p: Partial, es: seq<Event>)
    requires IsPartial(p) && PartialIsJson(p) && FeedAll(p, es).Some?
    ensures PartialIsJson(FeedAll(p, es).value)
    decreases |es|
  {
    hide Feed, IsPartial, PartialIsJson;
    if es != [] {
      FeedKeepsPartial(p, es[0]);
      FeedKeepsJson(p, es[0]);
      FeedAllKeepsJson(Feed(p, es[0]).value, es[1..]);
    }
  }

  /** An event that brings a tree under construction nearer to its end. */
  function Finishing(p: Partial): Event
    requires p.Inside? && p.frames != []
  {
    if Top(p).OpenObj? && Top(p).key.Some? then Event(StringKind, []) else Event(Ending(ModeOf(Top(p))), [])
  }

  /** How far a tree under construction is from its end. */
  function Remaining(p: Partial): nat {
    match p
    case Inside(frames) =>
      2 * |frames| + if frames != [] && Top(p).OpenObj? && Top(p).key.Some? then 1 else 0
    case _ => 0
  }

  lemma FinishingFeeds(p: Partial)
    requires IsPartial(p) && PartialIsJson(p) && p.Inside?
    ensures Feed(p, Finishing(p)).Some?
    ensures Remaining(Feed(p, Finishing(p)).value) < Remaining(p)
    ensures !Feed(p, Finishing(p)).value.Before?
  {
    var q := Feed(p, Finishing(p)).value;
    if q.Inside? {
      assert Top(q).OpenObj? ==> Top(q).key.None?;
    }
  }

  lemma {:induction false} FinishTree(p: Partial) returns (v: Json, tail: seq<Event>)
    requires IsPartial(p) && PartialIsJson(p)
    ensures IsJson(v) && !v.Leaf? && Linearise(v) == Events(p) + tail
    decreases Remaining(p)
  {
    match p
    case Before =>
      v := Arr([]);
      tail := Linearise(v);
    case Done(w) =>
      v, tail := w, [];
    case Inside(frames) =>
      v, tail := FinishInside(p);
  }

  lemma {:induction false} FinishInside(p: Partial) returns (v: Json, tail: seq<Event>)
    requires IsPartial(p) && PartialIsJson(p) && p.Inside? && p.frames != []
    ensures IsJson(v) && !v.Leaf? && Linearise(v) == Events(p) + tail
    decreases Remaining(p), 0
  {
    hide Feed, Finishing, Remaining, Events, IsPartial, PartialIsJson, Linearise, IsJson;
    var e := Finishing(p);
    FinishingFeeds(p);
    FeedKeepsPartial(p, e);
    FeedKeepsJson(p, e);
    FeedEvents(p, e);
    v, tail := FinishTree(Feed(p, e).value);
    tail := [e] + tail;
  }

  /** Well-formed prefixes are the prefixes of the events of documents. */
  lemma PrefixesOfDocuments(es: seq<Event>)
    ensures FeedAll(Before, es).Some? <==>
      exists v: Json :: IsJson(v) && !v.Leaf? && es <= Linearise(v)
  {
    hide FeedAll, Linearise, IsJson;
    if FeedAll(Before, es).Some? {
      var v := FindCompletion(es);
    }
    forall v: Json | IsJson(v) && !v.Leaf? && es <= Linearise(v)
      ensures FeedAll(Before, es).Some?
    {
      PrefixFeeds(es, v);
    }
  }

  lemma FindCompletion(es: seq<Event>) returns (v: Json)
    requires FeedAll(Before, es).Some?
    ensures IsJson(v) && !v.Leaf? && es <= Linearise(v)
  {
    FeedAllKeepsJson(Before, es);
    FeedAllEvents(Before, es);
    hide FeedAll, Linearise;
    var tail;
    v, tail := FinishTree(FeedAll(Before, es).value);
  }

  lemma PrefixFeeds(es: seq<Event>, v: Json)
    requires IsJson(v) && !v.Leaf? && es <= Linearise(v)
    ensures FeedAll(Before, es).Some?
  {
    FeedValue(Before, v);
    hide Linearise, IsJson;
    FeedAppend(Before, es, Linearise(v)[|es|..]);
    assert Linearise(v) == es + Linearise(v)[|es|..];
  }
}
