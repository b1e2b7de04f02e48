/**
  The replication protocol of include/Util/RingBuffer.h as a state machine: one master cache, one
  dispatcher per poller kept in step by writes queued to that poller, readers coming and going.
  Each action is what one thread does between two points where others can interfere. What runs on a
  poller's thread (attaching, setting a callback, queued tasks) does not interleave with itself.
 */
module RingReplication {
  import opened RingStorage

  type Poller = nat
  type DispatcherId = nat
  type ReaderId = nat

  /** `_RingReaderDispatcher`; `upTo` is how much of the history its cache has seen. */
  datatype Dispatcher<T> = Dispatcher(
    poller: Poller,
    cache: seq<Entry<T>>,
    readers: set<ReaderId>,
    size: int,
    upTo: nat)

  /**
    `_RingReader`. `live` says that a client still holds it, `received` is what the current callback
    was given, and `since` is the history its dispatcher had seen when that callback was set.
   */
  datatype Reader<T> = Reader(
    dispatcher: DispatcherId,
    useCache: bool,
    live: bool,
    deleted: bool,
    listening: bool,
    received: seq<Entry<T>>,
    since: nat)

  /** A write waiting in a poller's queue, and the dispatcher it was captured with. */
  datatype Task<D, T> = Task(to: D, entry: Entry<T>)

  datatype Ring<T> = Ring(
    max: nat,
    history: seq<Entry<T>>,                    // every write so far
    master: seq<Entry<T>>,                     // the cache of the ring buffer itself
    mapped: map<Poller, DispatcherId>,         // _dispatcher_map
    dispatchers: map<DispatcherId, Dispatcher<T>>,
    queues: map<Poller, seq<Task<DispatcherId, T>>>,
    readers: map<ReaderId, Reader<T>>,
    attaching: map<Poller, DispatcherId>,      // between the two halves of attach
    nextDispatcher: DispatcherId,
    nextReader: ReaderId)

  function QueueOf<D, T>(queues: map<Poller, seq<Task<D, T>>>, p: Poller): seq<Task<D, T>> {
    if p in queues then queues[p] else []
  }

  function Queue<T>(s: Ring<T>, p: Poller): seq<Task<DispatcherId, T>> {
    QueueOf(s.queues, p)
  }

  ghost predicate IsInitial<T>(s: Ring<T>) {
    && s.max >= RING_MIN_SIZE
    && s == Ring(s.max, [], [], map[], map[], map[], map[], map[], 0, 0)
  }

  datatype Action<T> =
    | Write(entry: Entry<T>)
    | AttachBegin(poller: Poller)
    | AttachEnd(poller: Poller, useCache: bool)
    | SetReadCB(reader: ReaderId)
    | ClearReadCB(reader: ReaderId)
    | DropReader(reader: ReaderId)
    | Deliver(poller: Poller)
    | Dealloc(reader: ReaderId)

  /** When an action can happen. A poller's thread does nothing else while it is attaching. */
  predicate Enabled<T>(s: Ring<T>, a: Action<T>) {
    match a
    case Write(_) => true
    case AttachBegin(p) => p !in s.attaching
    case AttachEnd(p, _) => p in s.attaching && s.attaching[p] in s.dispatchers
    case SetReadCB(r) =>
      && r in s.readers && s.readers[r].live && s.readers[r].dispatcher in s.dispatchers
      && s.dispatchers[s.readers[r].dispatcher].poller !in s.attaching
    case ClearReadCB(r) => r in s.readers && s.readers[r].live
    case DropReader(r) => r in s.readers && s.readers[r].live
    case Deliver(p) => p !in s.attaching && Queue(s, p) != [] && Queue(s, p)[0].to in s.dispatchers
    case Dealloc(r) =>
      && r in s.readers && !s.readers[r].live && !s.readers[r].deleted && s.readers[r].dispatcher in s.dispatchers
      && s.dispatchers[s.readers[r].dispatcher].poller !in s.attaching
  }

  // The parts of the actions.

  /** `RingBuffer::write`: the same write for every mapped dispatcher, at the end of its poller's queue. */
  function Enqueued<D, T>(queues: map<Poller, seq<Task<D, T>>>, mapped: map<Poller, D>, e: Entry<T>): map<Poller, seq<Task<D, T>>> {
    map p | p in queues.Keys + mapped.Keys ::
      if p in mapped then QueueOf(queues, p) + [Task(mapped[p], e)] else QueueOf(queues, p)
  }

  /** `RingBuffer::onSizeChanged`: a dispatcher without readers is unmapped. */
  function SizeChanged<D>(mapped: map<Poller, D>, p: Poller, size: int): map<Poller, D> {
    if size == 0 then mapped - {p} else mapped
  }

  /** The readers of a dispatcher that `write` finds expired. */
  function Expired<T>(s: Ring<T>, d: Dispatcher<T>): set<ReaderId> {
    set r | r in d.readers && (r !in s.readers || !s.readers[r].live)
  }

  /** `_RingReaderDispatcher::write`, apart from the readers' callbacks. */
  function Written<T>(d: Dispatcher<T>, max: nat, e: Entry<T>, expired: set<ReaderId>): Dispatcher<T> {
    d.(readers := d.readers - expired, size := d.size - |expired|, cache := Put(d.cache, max, e), upTo := d.upTo + 1)
  }

  function Heard<T>(received: seq<Entry<T>>, listening: bool, e: Entry<T>): seq<Entry<T>> {
    if listening then received + [e] else received
  }

  /** `onRead`, unless the reader has expired; the default callback ignores what it is given. */
  function Told<T>(r: Reader<T>, e: Entry<T>): Reader<T> {
    r.(received := Heard(r.received, r.live && r.listening, e))
  }

  function Notified<T>(s: Ring<T>, d: Dispatcher<T>, e: Entry<T>): map<ReaderId, Reader<T>> {
    map r | r in s.readers :: if r in d.readers then Told(s.readers[r], e) else s.readers[r]
  }

  /** `setReadCB`: the new callback is first given the cache, if the reader uses it. */
  function Flushed<T>(cache: seq<Entry<T>>, useCache: bool): seq<Entry<T>> {
    if useCache then cache else []
  }

  function NewDispatcher<T>(s: Ring<T>, p: Poller): Dispatcher<T> {
    Dispatcher(p, s.master, {}, 0, |s.history|)
  }

  function Do<T>(s: Ring<T>, a: Action<T>): Ring<T>
    requires Enabled(s, a)
  {
    match a
    case Write(e) =>
      s.(history := s.history + [e], master := Put(s.master, s.max, e), queues := Enqueued(s.queues, s.mapped, e))
    case AttachBegin(p) =>
      if p in s.mapped then s.(attaching := s.attaching[p := s.mapped[p]])
      else
        var id := s.nextDispatcher;
        s.(mapped := s.mapped[p := id], dispatchers := s.dispatchers[id := NewDispatcher(s, p)],
           attaching := s.attaching[p := id], nextDispatcher := id + 1)
    case AttachEnd(p, useCache) =>
      var id := s.attaching[p];
      var d := s.dispatchers[id];
      var r := s.nextReader;
      s.(dispatchers := s.dispatchers[id := d.(readers := d.readers + {r}, size := d.size + 1)],
         readers := s.readers[r := Reader(id, useCache, true, false, false, [], 0)],
         mapped := SizeChanged(s.mapped, p, d.size + 1),
         attaching := s.attaching - {p}, nextReader := r + 1)
    case SetReadCB(r) =>
      var reader := s.readers[r];
      var d := s.dispatchers[reader.dispatcher];
      s.(readers := s.readers[r :=
        reader.(listening := true, received := Flushed(d.cache, reader.useCache), since := d.upTo)])
    case ClearReadCB(r) => s.(readers := s.readers[r := s.readers[r].(listening := false, received := [])])
    case DropReader(r) => s.(readers := s.readers[r := s.readers[r].(live := false)])
    case Deliver(p) =>
      var t := Queue(s, p)[0];
      var d := s.dispatchers[t.to];
      var expired := Expired(s, d);
      var d' := Written(d, s.max, t.entry, expired);
      s.(queues := s.queues[p := Queue(s, p)[1..]],
         dispatchers := s.dispatchers[t.to := d'],
         readers := Notified(s, d, t.entry),
         mapped := if expired != {} then SizeChanged(s.mapped, d.poller, d'.size) else s.mapped)
    case Dealloc(r) =>
      var id := s.readers[r].dispatcher;
      var d := s.dispatchers[id];
      var s' := s.(readers := s.readers[r := s.readers[r].(deleted := true)]);
      if r !in d.readers then s'
      else
        s'.(dispatchers := s.dispatchers[id := d.(readers := d.readers - {r}, size := d.size - 1)],
            mapped := SizeChanged(s.mapped, d.poller, d.size - 1))
  }

  // What every reachable state satisfies.

  /** The writes still on their way to dispatcher `id`. */
  function Pending<T>(q: seq<Task<DispatcherId, T>>, id: DispatcherId): seq<Entry<T>> {
    if q == [] then []
    else (if q[0].to == id then [q[0].entry] else []) + Pending(q[1..], id)
  }

  ghost predicate DispatcherOk<T>(s: Ring<T>, id: DispatcherId)
    requires id in s.dispatchers
  {
    var d := s.dispatchers[id];
    && id < s.nextDispatcher
    && d.upTo <= |s.history| && d.cache == PutAll([], s.max, s.history[..d.upTo])
    && d.size == |d.readers|
    && Pending(Queue(s, d.poller), id) <= s.history[d.upTo..]
    && (d.readers != {} ==> d.poller in s.mapped && s.mapped[d.poller] == id)
    && forall r :: r in d.readers ==> r in s.readers && s.readers[r].dispatcher == id && !s.readers[r].deleted
  }

  ghost predicate MappedOk<T>(s: Ring<T>, p: Poller)
    requires p in s.mapped
  {
    var id := s.mapped[p];
    && id in s.dispatchers && s.dispatchers[id].poller == p && s.dispatchers[id].upTo <= |s.history|
    && Pending(Queue(s, p), id) == s.history[s.dispatchers[id].upTo..]
    && (s.dispatchers[id].readers == {} ==> p in s.attaching)
  }

  ghost predicate QueueOk<T>(s: Ring<T>, p: Poller) {
    forall i :: 0 <= i < |Queue(s, p)| ==>
      Queue(s, p)[i].to in s.dispatchers && s.dispatchers[Queue(s, p)[i].to].poller == p
  }

  /** What a callback set with the cache should have been given by now. */
  function Expected<T>(s: Ring<T>, r: Reader<T>, upTo: nat): seq<Entry<T>>
    requires r.since <= upTo <= |s.history|
  {
    (if r.useCache then PutAll([], s.max, s.history[..r.since]) else []) + s.history[r.since..upTo]
  }

  ghost predicate ReaderOk<T>(s: Ring<T>, id: ReaderId)
    requires id in s.readers
  {
    var r := s.readers[id];
    && id < s.nextReader
    && r.dispatcher in s.dispatchers
    && (r.live ==> !r.deleted && id in s.dispatchers[r.dispatcher].readers)
    && (r.live && r.listening ==>
      var upTo := s.dispatchers[r.dispatcher].upTo;
      r.since <= upTo <= |s.history| && r.received == Expected(s, r, upTo))
  }

  ghost predicate Inv<T>(s: Ring<T>) {
    && s.max >= RING_MIN_SIZE
    && s.master == PutAll([], s.max, s.history)
    && (forall id :: id in s.dispatchers ==> DispatcherOk(s, id))
    && (forall p :: p in s.mapped ==> MappedOk(s, p))
    && (forall p :: p in s.queues ==> QueueOk(s, p))
    && (forall p :: p in s.attaching ==> p in s.mapped && s.mapped[p] == s.attaching[p])
    && (forall id :: id in s.readers ==> ReaderOk(s, id))
  }

  lemma {:induction false} PendingAppend<T>(q: seq<Task<DispatcherId, T>>, t: Task<DispatcherId, T>, id: DispatcherId)
    ensures Pending(q + [t], id) == Pending(q, id) + (if t.to == id then [t.entry] else [])
    decreases |q|
  {
    if q == [] {
      assert (q + [t])[1..] == [];
    } else {
      assert (q + [t])[1..] == q[1..] + [t];
      PendingAppend(q[1..], t, id);
    }
  }

  lemma {:induction false} PendingElsewhere<T>(q: seq<Task<DispatcherId, T>>, id: DispatcherId)
    requires forall i :: 0 <= i < |q| ==> q[i].to != id
    ensures Pending(q, id) == []
    decreases |q|
  {
    if q != [] { PendingElsewhere(q[1..], id); }
  }

  lemma InitialInv<T>(s: Ring<T>)
    requires IsInitial(s)
    ensures Inv(s)
  {}

  lemma PutNext<T>(h: seq<Entry<T>>, max: nat, e: Entry<T>)
    ensures PutAll([], max, h + [e]) == Put(PutAll([], max, h), max, e)
  {
    assert (h + [e])[..|h|] == h;
  }

  // A write.

  lemma EnqueuedQueue<T>(s: Ring<T>, e: Entry<T>, p: Poller)
    ensures Queue(Do(s, Write(e)), p) == if p in s.mapped then Queue(s, p) + [Task(s.mapped[p], e)] else Queue(s, p)
  {}

  lemma WriteHistory<T>(s: Ring<T>, e: Entry<T>)
    ensures var s' := Do(s, Write(e));
      s' == s.(history := s.history + [e], master := Put(s.master, s.max, e), queues := s'.queues)
  {}

  lemma WriteDispatcher<T>(s: Ring<T>, e: Entry<T>, id: DispatcherId)
    requires id in s.dispatchers && DispatcherOk(s, id)
    requires var p := s.dispatchers[id].poller; p in s.mapped ==> MappedOk(s, p)
    ensures DispatcherOk(Do(s, Write(e)), id)
  {
    hide Do, Queue, Pending, PutAll;
    var s' := Do(s, Write(e));
    var d := s.dispatchers[id];
    EnqueuedQueue(s, e, d.poller);
    WriteHistory(s, e);
    if d.poller in s.mapped {
      PendingAppend(Queue(s, d.poller), Task(s.mapped[d.poller], e), id);
    }
    assert s'.history[..d.upTo] == s.history[..d.upTo];
    assert s'.history[d.upTo..] == s.history[d.upTo..] + [e];
  }

  lemma WriteMapped<T>(s: Ring<T>, e: Entry<T>, p: Poller)
    requires p in s.mapped && MappedOk(s, p)
    ensures MappedOk(Do(s, Write(e)), p)
  {
    hide Do, Queue, Pending;
    var s' := Do(s, Write(e));
    var id := s.mapped[p];
    EnqueuedQueue(s, e, p);
    WriteHistory(s, e);
    PendingAppend(Queue(s, p), Task(id, e), id);
    assert s'.history[s.dispatchers[id].upTo..] == s.history[s.dispatchers[id].upTo..] + [e];
  }

  lemma WriteReader<T>(s: Ring<T>, e: Entry<T>, id: ReaderId)
    requires id in s.readers && ReaderOk(s, id)
    ensures ReaderOk(Do(s, Write(e)), id)
  {
    hide Do, PutAll;
    var s' := Do(s, Write(e));
    WriteHistory(s, e);
    var r := s.readers[id];
    if r.live && r.listening {
      var upTo := s.dispatchers[r.dispatcher].upTo;
      assert s'.history[..r.since] == s.history[..r.since];
      assert s'.history[r.since..upTo] == s.history[r.since..upTo];
    }
  }

  lemma WriteQueue<T>(s: Ring<T>, e: Entry<T>, p: Poller)
    requires p in s.queues ==> QueueOk(s, p)
    requires p in s.mapped ==> MappedOk(s, p)
    ensures QueueOk(Do(s, Write(e)), p)
  {
    hide Do, Pending;
    EnqueuedQueue(s, e, p);
    WriteHistory(s, e);
  }

  lemma WriteInv<T>(s: Ring<T>, e: Entry<T>)
    requires Inv(s)
    ensures Inv(Do(s, Write(e)))
  {
    hide Do, DispatcherOk, MappedOk, QueueOk, ReaderOk, PutAll, Put, Queue, Pending;
    var s' := Do(s, Write(e));
    WriteHistory(s, e);
    PutNext(s.history, s.max, e);
    forall id | id in s'.dispatchers ensures DispatcherOk(s', id) { WriteDispatcher(s, e, id); }
    forall p | p in s'.mapped ensures MappedOk(s', p) { WriteMapped(s, e, p); }
    forall p | p in s'.queues ensures QueueOk(s', p) { WriteQueue(s, e, p); }
    forall id | id in s'.readers ensures ReaderOk(s', id) { WriteReader(s, e, id); }
  }

  // Attaching.

  lemma NothingFor<T>(s: Ring<T>, p: Poller, id: DispatcherId)
    requires Inv(s) && id !in s.dispatchers
    ensures Pending(Queue(s, p), id) == []
  {
    assert p in s.queues ==> QueueOk(s, p);
    PendingElsewhere(Queue(s, p), id);
  }

  lemma UnusedIds<T>(s: Ring<T>)
    requires Inv(s)
    ensures s.nextDispatcher !in s.dispatchers && s.nextReader !in s.readers
  {
    assert s.nextDispatcher in s.dispatchers ==> DispatcherOk(s, s.nextDispatcher);
    assert s.nextReader in s.readers ==> ReaderOk(s, s.nextReader);
  }

  // Dispatchers only come to be, and never move to another poller.
  lemma QueueKept<T>(s: Ring<T>, s': Ring<T>, p: Poller)
    requires QueueOk(s, p) && (Queue(s', p) == Queue(s, p) || (Queue(s, p) != [] && Queue(s', p) == Queue(s, p)[1..]))
    requires forall id :: id in s.dispatchers ==> id in s'.dispatchers && s'.dispatchers[id].poller == s.dispatchers[id].poller
    ensures QueueOk(s', p)
  {
    hide Queue;
  }

  lemma AttachBeginDispatcher<T>(s: Ring<T>, p: Poller, id: DispatcherId)
    requires Enabled(s, AttachBegin(p)) && id in Do(s, AttachBegin(p)).dispatchers && s.master == PutAll([], s.max, s.history)
    requires s.nextDispatcher !in s.dispatchers
    requires id in s.dispatchers ==> DispatcherOk(s, id)
    requires p !in s.mapped ==> Pending(Queue(s, p), s.nextDispatcher) == []
    ensures DispatcherOk(Do(s, AttachBegin(p)), id)
  {
    hide PutAll, Pending;
    if id !in s.dispatchers {
      assert s.history[..|s.history|] == s.history && s.history[|s.history|..] == [];
    }
  }

  lemma AttachBeginMapped<T>(s: Ring<T>, p: Poller, q: Poller)
    requires Enabled(s, AttachBegin(p)) && q in Do(s, AttachBegin(p)).mapped
    requires s.nextDispatcher !in s.dispatchers
    requires q in s.mapped ==> MappedOk(s, q)
    requires p !in s.mapped ==> Pending(Queue(s, p), s.nextDispatcher) == []
    ensures MappedOk(Do(s, AttachBegin(p)), q)
  {
    hide PutAll, Pending;
    if q !in s.mapped {
      assert s.history[|s.history|..] == [];
    }
  }

  lemma AttachBeginReader<T>(s: Ring<T>, p: Poller, id: ReaderId)
    requires Enabled(s, AttachBegin(p)) && id in s.readers && ReaderOk(s, id)
    requires s.nextDispatcher !in s.dispatchers
    ensures ReaderOk(Do(s, AttachBegin(p)), id)
  {
    hide PutAll;
  }

  lemma AttachBeginInv<T>(s: Ring<T>, p: Poller)
    requires Inv(s) && Enabled(s, AttachBegin(p))
    ensures Inv(Do(s, AttachBegin(p)))
  {
    hide DispatcherOk, MappedOk, QueueOk, ReaderOk, PutAll, Put, Pending;
    var s' := Do(s, AttachBegin(p));
    UnusedIds(s);
    if p !in s.mapped { NothingFor(s, p, s.nextDispatcher); }
    forall id | id in s'.dispatchers ensures DispatcherOk(s', id) { AttachBeginDispatcher(s, p, id); }
    forall q | q in s'.mapped ensures MappedOk(s', q) { AttachBeginMapped(s, p, q); }
    forall q | q in s'.queues ensures QueueOk(s', q) { QueueKept(s, s', q); }
    forall id | id in s'.readers ensures ReaderOk(s', id) { AttachBeginReader(s, p, id); }
  }

  lemma AttachEndDispatcher<T>(s: Ring<T>, a: Action<T>, id: DispatcherId)
    requires a.AttachEnd? && Enabled(s, a) && id in s.dispatchers && DispatcherOk(s, id)
    requires a.poller in s.mapped && s.mapped[a.poller] == s.attaching[a.poller] && MappedOk(s, a.poller)
    requires s.nextReader !in s.readers
    ensures DispatcherOk(Do(s, a), id)
  {
    hide PutAll, Pending;
  }

  lemma AttachEndMapped<T>(s: Ring<T>, a: Action<T>, q: Poller)
    requires a.AttachEnd? && Enabled(s, a) && q in s.mapped && MappedOk(s, q)
    requires a.poller in s.mapped && s.mapped[a.poller] == s.attaching[a.poller] && MappedOk(s, a.poller)
    requires s.attaching[a.poller] in s.dispatchers && DispatcherOk(s, s.attaching[a.poller])
    ensures MappedOk(Do(s, a), q)
  {
    hide PutAll, Pending;
  }

  lemma AttachEndReader<T>(s: Ring<T>, a: Action<T>, id: ReaderId)
    requires a.AttachEnd? && Enabled(s, a) && id in Do(s, a).readers && s.nextReader !in s.readers
    requires id in s.readers ==> ReaderOk(s, id)
    ensures ReaderOk(Do(s, a), id)
  {
    hide PutAll;
  }

  lemma AttachKeepsMap<T>(s: Ring<T>, a: Action<T>)
    requires a.AttachEnd? && Enabled(s, a) && DispatcherOk(s, s.attaching[a.poller])
    ensures Do(s, a).mapped == s.mapped
  {
    hide PutAll, Pending;
  }

  lemma AttachEndInv<T>(s: Ring<T>, a: Action<T>)
    requires a.AttachEnd? && Inv(s) && Enabled(s, a)
    ensures Inv(Do(s, a))
  {
    hide DispatcherOk, MappedOk, QueueOk, ReaderOk, PutAll, Put, Pending;
    var s' := Do(s, a);
    UnusedIds(s);
    AttachKeepsMap(s, a);
    forall id | id in s'.dispatchers ensures DispatcherOk(s', id) { AttachEndDispatcher(s, a, id); }
    forall q | q in s'.mapped ensures MappedOk(s', q) { AttachEndMapped(s, a, q); }
    forall q | q in s'.queues ensures QueueOk(s', q) { QueueKept(s, s', q); }
    forall id | id in s'.readers ensures ReaderOk(s', id) { AttachEndReader(s, a, id); }
  }

  // What clients do with their readers.

  lemma ClientReader<T>(s: Ring<T>, a: Action<T>, id: ReaderId)
    requires Enabled(s, a) && (a.SetReadCB? || a.ClearReadCB? || a.DropReader?)
    requires id in s.readers && ReaderOk(s, id)
    requires a.SetReadCB? ==> DispatcherOk(s, s.readers[a.reader].dispatcher)
    ensures ReaderOk(Do(s, a), id)
  {
    hide PutAll, Pending;
    var since := Do(s, a).readers[id].since;
    assert since <= |s.history| ==> s.history[since..since] == [];
  }

  lemma ClientDispatcher<T>(s: Ring<T>, a: Action<T>, id: DispatcherId)
    requires Enabled(s, a) && (a.SetReadCB? || a.ClearReadCB? || a.DropReader?)
    requires id in s.dispatchers && DispatcherOk(s, id)
    ensures DispatcherOk(Do(s, a), id)
  {
    hide PutAll, Pending;
  }

  lemma ClientMapped<T>(s: Ring<T>, a: Action<T>, p: Poller)
    requires Enabled(s, a) && (a.SetReadCB? || a.ClearReadCB? || a.DropReader?)
    requires p in s.mapped && MappedOk(s, p)
    ensures MappedOk(Do(s, a), p)
  {
    hide PutAll, Pending;
  }

  lemma ClientInv<T>(s: Ring<T>, a: Action<T>)
    requires Inv(s) && Enabled(s, a) && (a.SetReadCB? || a.ClearReadCB? || a.DropReader?)
    ensures Inv(Do(s, a))
  {
    hide DispatcherOk, MappedOk, QueueOk, ReaderOk, PutAll, Put, Pending;
    var s' := Do(s, a);
    forall id | id in s'.dispatchers ensures DispatcherOk(s', id) { ClientDispatcher(s, a, id); }
    forall q | q in s'.mapped ensures MappedOk(s', q) { ClientMapped(s, a, q); }
    forall q | q in s'.queues ensures QueueOk(s', q) { QueueKept(s, s', q); }
    forall id | id in s'.readers ensures ReaderOk(s', id) { ClientReader(s, a, id); }
  }

  // A queued write.

  function Target<T>(s: Ring<T>, p: Poller): DispatcherId
    requires Enabled(s, Deliver(p))
  {
    Queue(s, p)[0].to
  }

  /** What is at the head of a queue is the next write its dispatcher has not seen. */
  lemma HeadIsNext<T>(s: Ring<T>, p: Poller)
    requires Enabled(s, Deliver(p)) && QueueOk(s, p) && DispatcherOk(s, Target(s, p))
    ensures var d := s.dispatchers[Target(s, p)]; var e := Queue(s, p)[0].entry;
      && d.poller == p
      && d.upTo < |s.history| && s.history[d.upTo] == e
      && Pending(Queue(s, p), Target(s, p)) == [e] + Pending(Queue(s, p)[1..], Target(s, p))
  {
    hide PutAll;
    var id := Target(s, p);
    assert Pending(Queue(s, p), id)[0] == Queue(s, p)[0].entry;
    assert s.history[s.dispatchers[id].upTo..][0] == Queue(s, p)[0].entry;
  }

  lemma SizesAfterExpiry<T>(s: Ring<T>, d: Dispatcher<T>)
    ensures |d.readers - Expired(s, d)| == |d.readers| - |Expired(s, d)|
    ensures Expired(s, d) <= d.readers
  {
    assert Expired(s, d) <= d.readers;
    assert d.readers == (d.readers - Expired(s, d)) + Expired(s, d);
  }

  /** A delivery unmaps nothing but the dispatcher it runs on, and that one when its last reader goes. */
  lemma DeliverUnmaps<T>(s: Ring<T>, p: Poller)
    requires Enabled(s, Deliver(p)) && QueueOk(s, p) && DispatcherOk(s, Target(s, p))
    ensures var s' := Do(s, Deliver(p)); var id := Target(s, p); var d := s.dispatchers[id];
      && s'.dispatchers[id].size == |s'.dispatchers[id].readers|
      && s'.mapped == (if d.readers != {} && s'.dispatchers[id].readers == {} then s.mapped - {p} else s.mapped)
      && (s'.mapped != s.mapped ==> p in s.mapped && s.mapped[p] == id)
  {
    HeadIsNext(s, p);
    var d := s.dispatchers[Target(s, p)];
    SizesAfterExpiry(s, d);
    hide PutAll, Pending, Notified, QueueOk, Expired;
    assert d.readers - {} == d.readers;
    if Expired(s, d) == d.readers { assert d.readers - Expired(s, d) == {}; }
  }

  lemma NextOfHistory<T>(h: seq<Entry<T>>, n: nat)
    requires n < |h|
    ensures h[..n + 1] == h[..n] + [h[n]] && h[n..] == [h[n]] + h[n + 1..]
  {}

  lemma PrefixTail<T>(e: T, a: seq<T>, b: seq<T>)
    requires [e] + a <= [e] + b
    ensures a <= b
  {
    assert a == ([e] + a)[1..] && b == ([e] + b)[1..];
  }

  lemma DeliverTarget<T>(s: Ring<T>, p: Poller)
    requires Enabled(s, Deliver(p)) && QueueOk(s, p) && DispatcherOk(s, Target(s, p))
    ensures DispatcherOk(Do(s, Deliver(p)), Target(s, p))
  {
    hide PutAll, Put, Pending, QueueOk;
    HeadIsNext(s, p);
    DeliverUnmaps(s, p);
    var d := s.dispatchers[Target(s, p)];
    var e := s.history[d.upTo];
    NextOfHistory(s.history, d.upTo);
    PutNext(s.history[..d.upTo], s.max, e);
    PrefixTail(e, Pending(Queue(s, p)[1..], Target(s, p)), s.history[d.upTo + 1..]);
    assert Queue(Do(s, Deliver(p)), p) == Queue(s, p)[1..];
  }

  lemma DeliverOther<T>(s: Ring<T>, p: Poller, id: DispatcherId)
    requires Enabled(s, Deliver(p)) && QueueOk(s, p) && DispatcherOk(s, Target(s, p))
    requires id in s.dispatchers && id != Target(s, p) && DispatcherOk(s, id)
    ensures DispatcherOk(Do(s, Deliver(p)), id)
  {
    DeliverUnmaps(s, p);
    hide PutAll, Put, QueueOk, Expired;
  }

  lemma DeliverMapped<T>(s: Ring<T>, p: Poller, q: Poller)
    requires Enabled(s, Deliver(p)) && QueueOk(s, p) && DispatcherOk(s, Target(s, p))
    requires q in Do(s, Deliver(p)).mapped && q in s.mapped && MappedOk(s, q)
    ensures MappedOk(Do(s, Deliver(p)), q)
  {
    HeadIsNext(s, p);
    DeliverUnmaps(s, p);
    NextOfHistory(s.history, s.dispatchers[Target(s, p)].upTo);
    if q == p && s.mapped[q] == Target(s, p) {
      hide PutAll, Put, QueueOk, DispatcherOk, Expired, Pending;
    } else {
      hide PutAll, Put, QueueOk, DispatcherOk, Expired;
    }
  }

  lemma DeliverReader<T>(s: Ring<T>, p: Poller, id: ReaderId)
    requires Enabled(s, Deliver(p)) && QueueOk(s, p) && DispatcherOk(s, Target(s, p))
    requires id in s.readers && ReaderOk(s, id)
    ensures ReaderOk(Do(s, Deliver(p)), id)
  {
    HeadIsNext(s, p);
    var r := s.readers[id];
    var d := s.dispatchers[Target(s, p)];
    if r.live && r.listening && r.dispatcher == Target(s, p) {
      assert s.history[r.since..d.upTo + 1] == s.history[r.since..d.upTo] + [s.history[d.upTo]];
    }
    hide PutAll, Put, QueueOk, Pending;
  }

  lemma DeliverInv<T>(s: Ring<T>, p: Poller)
    requires Inv(s) && Enabled(s, Deliver(p))
    ensures Inv(Do(s, Deliver(p)))
  {
    hide DispatcherOk, MappedOk, QueueOk, ReaderOk, PutAll, Put, Pending;
    var s' := Do(s, Deliver(p));
    assert p in s.queues;
    DeliverUnmaps(s, p);
    forall id | id in s'.dispatchers ensures DispatcherOk(s', id) {
      if id == Target(s, p) { DeliverTarget(s, p); } else { DeliverOther(s, p, id); }
    }
    forall q | q in s'.mapped ensures MappedOk(s', q) { DeliverMapped(s, p, q); }
    forall q | q in s'.queues ensures QueueOk(s', q) { QueueKept(s, s', q); }
    forall id | id in s'.readers ensures ReaderOk(s', id) { DeliverReader(s, p, id); }
  }

  // The queued task that forgets a reader.

  lemma DeallocTarget<T>(s: Ring<T>, r: ReaderId)
    requires Enabled(s, Dealloc(r)) && DispatcherOk(s, s.readers[r].dispatcher)
    ensures DispatcherOk(Do(s, Dealloc(r)), s.readers[r].dispatcher)
  {
    hide PutAll, Pending;
    var d := s.dispatchers[s.readers[r].dispatcher];
    assert r in d.readers ==> |d.readers - {r}| == |d.readers| - 1;
  }

  lemma DeallocOther<T>(s: Ring<T>, r: ReaderId, id: DispatcherId)
    requires Enabled(s, Dealloc(r)) && id in s.dispatchers && DispatcherOk(s, id) && id != s.readers[r].dispatcher
    requires DispatcherOk(s, s.readers[r].dispatcher)
    ensures DispatcherOk(Do(s, Dealloc(r)), id)
  {
    hide PutAll, Pending;
  }

  lemma DeallocMapped<T>(s: Ring<T>, r: ReaderId, p: Poller)
    requires Enabled(s, Dealloc(r)) && p in Do(s, Dealloc(r)).mapped && p in s.mapped && MappedOk(s, p)
    requires DispatcherOk(s, s.readers[r].dispatcher)
    ensures MappedOk(Do(s, Dealloc(r)), p)
  {
    var d := s.dispatchers[s.readers[r].dispatcher];
    assert r in d.readers ==> |d.readers - {r}| == |d.readers| - 1;
    hide PutAll, Pending;
  }

  lemma DeallocReader<T>(s: Ring<T>, r: ReaderId, id: ReaderId)
    requires Enabled(s, Dealloc(r)) && id in s.readers && ReaderOk(s, id)
    ensures ReaderOk(Do(s, Dealloc(r)), id)
  {
    hide PutAll;
  }

  lemma DeallocInv<T>(s: Ring<T>, r: ReaderId)
    requires Inv(s) && Enabled(s, Dealloc(r))
    ensures Inv(Do(s, Dealloc(r)))
  {
    hide DispatcherOk, MappedOk, QueueOk, ReaderOk, PutAll, Put, Pending;
    var s' := Do(s, Dealloc(r));
    forall id | id in s'.dispatchers ensures DispatcherOk(s', id) {
      if id == s.readers[r].dispatcher { DeallocTarget(s, r); } else { DeallocOther(s, r, id); }
    }
    forall q | q in s'.mapped ensures MappedOk(s', q) { DeallocMapped(s, r, q); }
    forall q | q in s'.queues ensures QueueOk(s', q) { QueueKept(s, s', q); }
    forall id | id in s'.readers ensures ReaderOk(s', id) { DeallocReader(s, r, id); }
  }

  /** Every action keeps the invariant. */
  lemma StepKeepsInv<T>(s: Ring<T>, a: Action<T>)
    requires Inv(s) && Enabled(s, a)
    ensures Inv(Do(s, a))
  {
    hide Inv, Do, Enabled;
    match a
    case Write(e) => WriteInv(s, e);
    case AttachBegin(p) => AttachBeginInv(s, p);
    case AttachEnd(_, _) => AttachEndInv(s, a);
    case SetReadCB(_) => ClientInv(s, a);
    case ClearReadCB(_) => ClientInv(s, a);
    case DropReader(_) => ClientInv(s, a);
    case Deliver(p) => DeliverInv(s, p);
    case Dealloc(r) => DeallocInv(s, r);
  }

  // Every run.

  ghost predicate Run<T>(s: Ring<T>, actions: seq<Action<T>>, s': Ring<T>)
    decreases |actions|
  {
    if actions == [] then s == s'
    else Enabled(s, actions[0]) && Run(Do(s, actions[0]), actions[1..], s')
  }

  /** A run of enabled actions from the beginning; what holds of `s` then holds of every reachable state. */
  ghost predicate Reaches<T>(s0: Ring<T>, actions: seq<Action<T>>, s: Ring<T>) {
    IsInitial(s0) && Run(s0, actions, s)
  }

  lemma {:induction false} RunKeepsInv<T>(s: Ring<T>, actions: seq<Action<T>>, s': Ring<T>)
    requires Inv(s) && Run(s, actions, s')
    ensures Inv(s')
    decreases |actions|
  {
    if actions != [] {
      hide Inv, Do, Enabled;
      StepKeepsInv(s, actions[0]);
      RunKeepsInv(Do(s, actions[0]), actions[1..], s');
    }
  }

  lemma ReachableInv<T>(s0: Ring<T>, actions: seq<Action<T>>, s: Ring<T>)
    requires Reaches(s0, actions, s)
    ensures Inv(s)
  {
    InitialInv(s0);
    hide Inv, IsInitial;
    RunKeepsInv(s0, actions, s);
  }

  lemma MasterIsCache<T>(s: Ring<T>)
    requires Inv(s)
    ensures s.max > 0 && s.master == PutAll([], s.max, s.history)
  {
    hide MappedOk, DispatcherOk, QueueOk, ReaderOk;
  }

  lemma MappedDispatcher<T>(s: Ring<T>, p: Poller)
    requires Inv(s) && p in s.mapped
    ensures MappedOk(s, p) && s.mapped[p] in s.dispatchers && DispatcherOk(s, s.mapped[p])
  {
    assert MappedOk(s, p) by { hide MappedOk, DispatcherOk, QueueOk, ReaderOk; }
    assert s.mapped[p] in s.dispatchers by { hide Inv; }
    hide MappedOk, DispatcherOk, QueueOk, ReaderOk;
  }

  lemma LiveReader<T>(s: Ring<T>, id: ReaderId)
    requires Inv(s) && id in s.readers && s.readers[id].live
    ensures var r := s.readers[id];
      && ReaderOk(s, id) && r.dispatcher in s.dispatchers && DispatcherOk(s, r.dispatcher)
      && s.dispatchers[r.dispatcher].poller in s.mapped && MappedOk(s, s.dispatchers[r.dispatcher].poller)
      && s.mapped[s.dispatchers[r.dispatcher].poller] == r.dispatcher
  {
    var r := s.readers[id];
    assert ReaderOk(s, id) by { hide MappedOk, DispatcherOk, QueueOk, ReaderOk; }
    assert r.dispatcher in s.dispatchers by { hide Inv; }
    assert DispatcherOk(s, r.dispatcher) by { hide MappedOk, DispatcherOk, QueueOk, ReaderOk; }
    var p := s.dispatchers[r.dispatcher].poller;
    assert p in s.mapped && s.mapped[p] == r.dispatcher by { hide Inv, Pending, PutAll; }
    hide MappedOk, DispatcherOk, QueueOk, ReaderOk;
  }

  /** Replication: what is still queued for a mapped dispatcher is exactly what brings it to the master. */
  lemma DispatchersFollowMaster<T>(s0: Ring<T>, actions: seq<Action<T>>, s: Ring<T>, p: Poller)
    requires Reaches(s0, actions, s) && p in s.mapped
    ensures s.mapped[p] in s.dispatchers
    ensures var id := s.mapped[p];
      PutAll(s.dispatchers[id].cache, s.max, Pending(Queue(s, p), id)) == s.master
  {
    hide Inv, PutAll, Pending, Reaches;
    ReachableInv(s0, actions, s);
    MasterIsCache(s);
    MappedDispatcher(s, p);
    var d := s.dispatchers[s.mapped[p]];
    PutAllAppend([], s.max, s.history[..d.upTo], s.history[d.upTo..]);
    assert s.history[..d.upTo] + s.history[d.upTo..] == s.history;
  }

  /**
    Delivery: what a live reader's callback was given is a contiguous block of the history, `history[from..upTo]`.
    It begins with the bounded tail since the last key frame when the reader uses the cache, and ends at
    the last write its dispatcher was given. All that is missing from it is still queued to the reader's poller.
   */
  lemma ReadersGetContiguousHistory<T>(s0: Ring<T>, actions: seq<Action<T>>, s: Ring<T>, id: ReaderId) returns (from: nat)
    requires Reaches(s0, actions, s) && id in s.readers && s.readers[id].live && s.readers[id].listening
    ensures s.readers[id].dispatcher in s.dispatchers
    ensures var r := s.readers[id]; var d := s.dispatchers[r.dispatcher];
      && from <= r.since <= d.upTo <= |s.history|
      && r.received == s.history[from..d.upTo]
      && s.history[from..r.since] == (if r.useCache then Last(SinceKey(s.history[..r.since]), s.max) else [])
      && d.poller in s.mapped && s.mapped[d.poller] == r.dispatcher
      && r.received + Pending(Queue(s, d.poller), r.dispatcher) == s.history[from..]
  {
    hide Inv, PutAll, Pending, Reaches, SinceKey, Last, Queue, Expected;
    ReachableInv(s0, actions, s);
    MasterIsCache(s);
    LiveReader(s, id);
    var r := s.readers[id];
    var d := s.dispatchers[r.dispatcher];
    from := Contiguous(s, r, d.upTo);
    assert s.history[from..] == s.history[from..d.upTo] + s.history[d.upTo..];
  }

  lemma Contiguous<T>(s: Ring<T>, r: Reader<T>, upTo: nat) returns (from: nat)
    requires s.max > 0 && r.since <= upTo <= |s.history|
    ensures from <= r.since && Expected(s, r, upTo) == s.history[from..upTo]
    ensures s.history[from..r.since] == (if r.useCache then Last(SinceKey(s.history[..r.since]), s.max) else [])
  {
    if r.useCache {
      var seen := s.history[..r.since];
      CacheEndsHistory(seen, s.max);
      CacheIsTail(seen, s.max);
      from := r.since - |PutAll([], s.max, seen)|;
      assert s.history[from..r.since] == seen[from..];
      assert s.history[from..upTo] == s.history[from..r.since] + s.history[r.since..upTo];
    } else {
      from := r.since;
    }
  }

  /** What an action does to dispatcher `id`: the map changes for it only as its last reader goes. */
  ghost predicate UnmapsRightly<T>(s: Ring<T>, s': Ring<T>, id: DispatcherId)
    requires id in s.dispatchers && id in s'.dispatchers
  {
    var d := s.dispatchers[id];
    var d' := s'.dispatchers[id];
    && d'.poller == d.poller
    && (d.readers != {} && d'.readers == {} ==> d.poller !in s'.mapped)
    && (d.poller in s.mapped && s.mapped[d.poller] == id && d.poller !in s'.mapped ==> d.readers != {} && d'.readers == {})
  }

  lemma DeliverUnmapsRightly<T>(s: Ring<T>, p: Poller, id: DispatcherId)
    requires Enabled(s, Deliver(p)) && QueueOk(s, p) && DispatcherOk(s, Target(s, p)) && id in s.dispatchers
    ensures UnmapsRightly(s, Do(s, Deliver(p)), id)
  {
    HeadIsNext(s, p);
    DeliverUnmaps(s, p);
    hide PutAll, Put, Pending, QueueOk, DispatcherOk, Expired;
  }

  lemma DeallocUnmapsRightly<T>(s: Ring<T>, r: ReaderId, id: DispatcherId)
    requires Enabled(s, Dealloc(r)) && DispatcherOk(s, s.readers[r].dispatcher) && id in s.dispatchers
    ensures UnmapsRightly(s, Do(s, Dealloc(r)), id)
  {
    var d := s.dispatchers[s.readers[r].dispatcher];
    assert r in d.readers ==> |d.readers - {r}| == |d.readers| - 1;
    hide PutAll, Pending;
  }

  lemma ActionUnmapsRightly<T>(s: Ring<T>, a: Action<T>, id: DispatcherId)
    requires Inv(s) && Enabled(s, a) && id in s.dispatchers
    ensures id in Do(s, a).dispatchers && UnmapsRightly(s, Do(s, a), id)
  {
    hide DispatcherOk, QueueOk, MappedOk, ReaderOk, PutAll, Put, Pending;
    UnusedIds(s);
    match a
    case AttachEnd(p, _) => AttachKeepsMap(s, a);
    case Deliver(p) =>
      assert p in s.queues;
      DeliverUnmapsRightly(s, p, id);
    case Dealloc(r) => DeallocUnmapsRightly(s, r, id);
    case _ =>
  }

  /** A dispatcher counts its readers, is unmapped as its last one goes, and no other dispatcher ever is. */
  lemma OnlyEmptyDispatchersAreUnmapped<T>(s0: Ring<T>, actions: seq<Action<T>>, s: Ring<T>, a: Action<T>, id: DispatcherId)
    requires Reaches(s0, actions, s) && Enabled(s, a) && id in s.dispatchers
    ensures id in Do(s, a).dispatchers
    ensures var d := s.dispatchers[id]; var s' := Do(s, a); var d' := s'.dispatchers[id];
      && d.size == |d.readers| && d'.size == |d'.readers| && d'.poller == d.poller
      && (d.readers != {} && d'.readers == {} ==> d.poller !in s'.mapped)
      && (d.readers != {} && d'.readers != {} ==> d.poller in s'.mapped && s'.mapped[d.poller] == id)
      && (d.poller in s.mapped && s.mapped[d.poller] == id && d.poller !in s'.mapped ==> d.readers != {} && d'.readers == {})
  {
    ReachableInv(s0, actions, s);
    ActionUnmapsRightly(s, a, id);
    StepKeepsInv(s, a);
    hide Do, Enabled, Pending, PutAll, MappedOk, QueueOk, ReaderOk;
  }

  // A poller that only runs its queue catches up.

  function Deliveries<T>(n: nat, p: Poller): seq<Action<T>> {
    if n == 0 then [] else [Deliver(p)] + Deliveries(n - 1, p)
  }

  lemma HeadHasDispatcher<T>(s: Ring<T>, p: Poller)
    requires p !in s.attaching && Queue(s, p) != [] && QueueOk(s, p)
    ensures Enabled(s, Deliver(p))
  {}

  lemma CanDeliver<T>(s: Ring<T>, p: Poller)
    requires Inv(s) && p !in s.attaching && Queue(s, p) != []
    ensures Enabled(s, Deliver(p))
  {
    hide MappedOk, DispatcherOk, QueueOk, ReaderOk, Enabled;
    assert p in s.queues;
    HeadHasDispatcher(s, p);
  }

  ghost predicate OnlyDelivered<T>(s: Ring<T>, s': Ring<T>) {
    && s'.max == s.max && s'.history == s.history && s'.master == s.master && s'.attaching == s.attaching
    && s'.readers.Keys == s.readers.Keys
    && s'.dispatchers.Keys == s.dispatchers.Keys
    && (forall id :: id in s.readers ==> s'.readers[id].(received := []) == s.readers[id].(received := []))
    && (forall id :: id in s.dispatchers ==> s'.dispatchers[id].poller == s.dispatchers[id].poller)
  }

  lemma DeliverOnce<T>(s: Ring<T>, p: Poller)
    requires Enabled(s, Deliver(p))
    ensures OnlyDelivered(s, Do(s, Deliver(p))) && Queue(Do(s, Deliver(p)), p) == Queue(s, p)[1..]
  {}

  lemma {:induction false} Drain<T>(s: Ring<T>, p: Poller) returns (s': Ring<T>)
    requires Inv(s) && p !in s.attaching
    ensures Run(s, Deliveries(|Queue(s, p)|, p), s')
    ensures Inv(s') && Queue(s', p) == [] && OnlyDelivered(s, s')
    decreases |Queue(s, p)|
  {
    hide Inv, Do, Enabled, Queue;
    if Queue(s, p) == [] {
      s' := s;
    } else {
      CanDeliver(s, p);
      StepKeepsInv(s, Deliver(p));
      DeliverOnce(s, p);
      var s1 := Do(s, Deliver(p));
      s' := Drain(s1, p);
      var rest := Deliveries<T>(|Queue(s1, p)|, p);
      assert ([Deliver(p)] + rest)[1..] == rest;
    }
  }

  /**
    From any reachable state, a poller that is not attaching catches up by running what is queued: its
    dispatcher then holds the master's cache, and each live reader has been given all that was written since it began.
   */
  lemma PollersCatchUp<T>(s0: Ring<T>, actions: seq<Action<T>>, s: Ring<T>, p: Poller) returns (s': Ring<T>)
    requires Reaches(s0, actions, s) && p !in s.attaching
    ensures Run(s, Deliveries(|Queue(s, p)|, p), s') && OnlyDelivered(s, s')
    ensures p in s'.mapped ==> s'.mapped[p] in s'.dispatchers && s'.dispatchers[s'.mapped[p]].cache == s.master
    ensures forall id :: IsListening(s, id, p) ==>
      s'.readers[id].received == s.readers[id].received + Pending(Queue(s, p), s.readers[id].dispatcher)
  {
    hide Reaches, Inv, Pending, Queue, Deliveries, PutAll, Run;
    ReachableInv(s0, actions, s);
    s' := Drain(s, p);
    assert Pending<T>([], 0) == [] by { PendingElsewhere<T>([], 0); }
    if p in s'.mapped { CaughtUpDispatcher(s', p); }
    forall id | IsListening(s, id, p)
      ensures s'.readers[id].received == s.readers[id].received + Pending(Queue(s, p), s.readers[id].dispatcher)
    {
      CaughtUpReader(s, s', id);
    }
  }

  ghost predicate IsListening<T>(s: Ring<T>, id: ReaderId, p: Poller) {
    && id in s.readers && s.readers[id].live && s.readers[id].listening
    && s.readers[id].dispatcher in s.dispatchers && s.dispatchers[s.readers[id].dispatcher].poller == p
  }

  lemma CaughtUpDispatcher<T>(s: Ring<T>, p: Poller)
    requires Inv(s) && p in s.mapped && Queue(s, p) == []
    ensures s.mapped[p] in s.dispatchers
    ensures s.dispatchers[s.mapped[p]].upTo == |s.history| && s.dispatchers[s.mapped[p]].cache == s.master
  {
    hide Inv, Queue, PutAll;
    MasterIsCache(s);
    MappedDispatcher(s, p);
    assert s.history[..|s.history|] == s.history;
  }

  lemma CaughtUpReader<T>(s: Ring<T>, s': Ring<T>, id: ReaderId)
    requires Inv(s) && Inv(s') && OnlyDelivered(s, s') && id in s.readers && s.readers[id].live && s.readers[id].listening
    requires s.readers[id].dispatcher in s.dispatchers
    requires Queue(s', s.dispatchers[s.readers[id].dispatcher].poller) == []
    ensures var r := s.readers[id]; var p := s.dispatchers[r.dispatcher].poller;
      s'.readers[id].received == r.received + Pending(Queue(s, p), r.dispatcher)
  {
    hide Inv, Queue, PutAll, Pending;
    var r := s.readers[id];
    var r' := s'.readers[id];
    assert r'.(received := []) == r.(received := []);
    LiveReader(s, id);
    LiveReader(s', id);
    CaughtUpDispatcher(s', s.dispatchers[r.dispatcher].poller);
    var upTo := s.dispatchers[r.dispatcher].upTo;
    assert s.history[r.since..] == s.history[r.since..upTo] + s.history[upTo..];
    assert s.history[r.since..|s.history|] == s.history[r.since..];
  }
}
