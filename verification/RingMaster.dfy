/**
  The ring buffer object itself: it stands for a state of the replication from the moment it is made, through
  writes and attaching, and what a reader is given first is the tail of what was written.
 */
module RingMaster {
  import opened RingStorage
  import opened RingReplication
  import opened RingDispatcher
  import opened RingSimulation

  /** Which object is which dispatcher. */
  type Objects<T> = map<DispatcherId, DispatcherObject<T>>

  ghost predicate QueueStands<T>(q: seq<Task<DispatcherObject<T>, T>>, q': seq<Task<DispatcherId, T>>, objects: Objects<T>) {
    |q| == |q'| && forall i :: 0 <= i < |q| ==> q'[i].to in objects && q[i] == Task(objects[q'[i].to], q'[i].entry)
  }

  ghost predicate QueuesStand<T>(qs: map<Poller, seq<Task<DispatcherObject<T>, T>>>, qs': map<Poller, seq<Task<DispatcherId, T>>>,
                                  objects: Objects<T>) {
    qs.Keys == qs'.Keys && forall p :: p in qs ==> QueueStands(qs[p], qs'[p], objects)
  }

  ghost predicate MapStands<T>(m: map<Poller, DispatcherObject<T>>, mapped: map<Poller, DispatcherId>, objects: Objects<T>) {
    m.Keys == mapped.Keys && forall p :: p in m ==> mapped[p] in objects && m[p] == objects[mapped[p]]
  }

  /** The object holds the cache, the map and the queues of the state. */
  ghost predicate Stands<T>(o: RingBufferObject<T>, s: Ring<T>, objects: Objects<T>)
    reads o, o.storage
  {
    && o.storage.Valid() && o.storage.dataCache == s.master && o.storage.maxSize == s.max
    && MapStands(o.dispatcherMap, s.mapped, objects) && QueuesStand(o.queues, s.queues, objects)
  }

  /** A new ring buffer is where every run begins; it keeps at least 32 frames. */
  method Create<T>(maxSize: int, hasCallback: bool) returns (o: RingBufferObject<T>, ghost s: Ring<T>)
    ensures fresh(o) && fresh(o.storage) && Stands(o, s, map[]) && IsInitial(s)
    ensures s.max == if maxSize < 32 then 32 else maxSize
  {
    o := new RingBufferObject(maxSize, hasCallback);
    s := Ring(o.storage.maxSize, [], [], map[], map[], map[], map[], map[], 0, 0);
  }

  lemma EnqueuedStands<T>(qs: map<Poller, seq<Task<DispatcherObject<T>, T>>>, qs': map<Poller, seq<Task<DispatcherId, T>>>,
                          m: map<Poller, DispatcherObject<T>>, mapped: map<Poller, DispatcherId>, e: Entry<T>, objects: Objects<T>)
    requires QueuesStand(qs, qs', objects) && MapStands(m, mapped, objects)
    ensures QueuesStand(Enqueued(qs, m, e), Enqueued(qs', mapped, e), objects)
  {
    forall p | p in qs.Keys + m.Keys ensures QueueStands(Enqueued(qs, m, e)[p], Enqueued(qs', mapped, e)[p], objects) {
      assert QueueStands(QueueOf(qs, p), QueueOf(qs', p), objects);
    }
  }

  /** A write, with everything it queues. */
  method WriteFrame<T>(o: RingBufferObject<T>, ghost s: Ring<T>, ghost objects: Objects<T>, e: Entry<T>)
    requires Stands(o, s, objects)
    modifies o.storage, o`queues
    ensures Stands(o, Do(s, Action.Write(e)), objects)
  {
    EnqueuedStands(o.queues, s.queues, o.dispatcherMap, s.mapped, e, objects);
    hide Put, Enqueued, QueuesStand, MapStands;
    assert e == Entry(e.isKey, e.data);
    o.Write(e.data, e.isKey);
  }

  lemma MoreObjects<T>(qs: map<Poller, seq<Task<DispatcherObject<T>, T>>>, qs': map<Poller, seq<Task<DispatcherId, T>>>,
                       m: map<Poller, DispatcherObject<T>>, mapped: map<Poller, DispatcherId>, objects: Objects<T>,
                       p: Poller, id: DispatcherId, d: DispatcherObject<T>)
    requires QueuesStand(qs, qs', objects) && MapStands(m, mapped, objects) && id !in objects
    ensures QueuesStand(qs, qs', objects[id := d]) && MapStands(m[p := d], mapped[p := id], objects[id := d])
  {}

  /** Attaching begins: a dispatcher that is made for it represents itself. */
  method BeginAttach<T>(o: RingBufferObject<T>, ghost s: Ring<T>, ghost objects: Objects<T>, p: Poller)
      returns (d: DispatcherObject<T>, ghost objects': Objects<T>)
    requires Stands(o, s, objects) && Enabled(s, Action.AttachBegin(p)) && s.nextDispatcher !in objects
    modifies o`dispatcherMap
    ensures var s' := Do(s, Action.AttachBegin(p));
      && Stands(o, s', objects')
      && (if p in s.mapped then objects' == objects && d == objects[s.mapped[p]]
          else objects' == objects[s.nextDispatcher := d] && fresh(d) && fresh(d.storage) && Represents(d, s', s.nextDispatcher))
  {
    objects' := objects;
    assert p in s.mapped <==> p in o.dispatcherMap;
    ghost var qs, m := o.queues, o.dispatcherMap;
    hide QueuesStand;
    d := o.DispatcherFor(p);
    if p !in m {
      MoreObjects(qs, s.queues, m, s.mapped, objects, p, s.nextDispatcher, d);
      objects' := objects[s.nextDispatcher := d];
      NewDispatcherIsRepresented(d, s, p);
      hide Represents, MapStands;
    }
  }

  /** A report of a dispatcher's size: the map changes as in the state machine, whatever the user is told. */
  method ReportSize<T>(o: RingBufferObject<T>, ghost s: Ring<T>, ghost objects: Objects<T>, p: Poller, size: int, added: bool)
    requires Stands(o, s, objects)
    modifies o`dispatcherMap, o`readerChanges
    ensures Stands(o, s.(mapped := SizeChanged(s.mapped, p, size)), objects)
    ensures o.readerChanges == old(o.readerChanges) + if o.hasCallback then [ReaderChange(p, size, added)] else []
  {
    hide QueuesStand;
    o.OnSizeChanged(p, size, added);
  }

  // Any action.

  /** Of what the ring buffer object holds, a dispatcher's action changes the map, and takes the task that it delivers. */
  lemma MasterParts<T>(s: Ring<T>, a: Action<T>)
    requires Enabled(s, a) && !a.Write? && !a.AttachBegin?
    ensures var s' := Do(s, a);
      && s'.max == s.max && s'.master == s.master
      && (a.Deliver? ==> a.poller in s.queues && s.queues[a.poller] != [])
      && s'.queues == if a.Deliver? then s.queues[a.poller := s.queues[a.poller][1..]] else s.queues
  {
    hide Put, Expired, Notified;
  }

  /** The poller's thread takes its next task. */
  method TakeTask<T>(o: RingBufferObject<T>, ghost s: Ring<T>, ghost objects: Objects<T>, p: Poller)
    requires Stands(o, s, objects) && p in s.queues && s.queues[p] != []
    modifies o`queues
    ensures Stands(o, s.(queues := s.queues[p := s.queues[p][1..]]), objects)
  {
    hide MapStands;
    assert QueueStands(o.queues[p], s.queues[p], objects);
    o.queues := o.queues[p := o.queues[p][1..]];
  }

  /** What a dispatcher reported while it was at work reaches the ring buffer. */
  method ReportAll<T>(o: RingBufferObject<T>, ghost s: Ring<T>, ghost objects: Objects<T>, p: Poller, changes: seq<Change>)
    requires Stands(o, s, objects)
    modifies o`dispatcherMap, o`readerChanges
    ensures Stands(o, s.(mapped := Reported(s.mapped, p, changes)), objects)
  {
    hide Stands, SizeChanged;
    for i := 0 to |changes|
      invariant Stands(o, s.(mapped := Reported(s.mapped, p, changes[..i])), objects)
    {
      assert changes[..i + 1][..i] == changes[..i];
      ReportSize(o, s.(mapped := Reported(s.mapped, p, changes[..i])), objects, p, changes[i].size, changes[i].added);
    }
    assert changes[..|changes|] == changes;
  }

  lemma OnlyMasterMatters<T>(o: RingBufferObject<T>, s: Ring<T>, s': Ring<T>, objects: Objects<T>)
    requires Stands(o, s, objects)
    requires s'.max == s.max && s'.master == s.master && s'.mapped == s.mapped && s'.queues == s.queues
    ensures Stands(o, s', objects)
  {
    hide MapStands, QueuesStand;
  }

  /**
    The part of the ring buffer object in any action; that of the dispatcher is `RingSimulation.Perform`. The two
    share nothing but the tasks that go one way and the reported sizes that come back.
   */
  method PerformMaster<T>(o: RingBufferObject<T>, ghost s: Ring<T>, ghost objects: Objects<T>, a: Action<T>, p: Poller, changes: seq<Change>)
      returns (ghost objects': Objects<T>)
    requires Stands(o, s, objects) && Enabled(s, a) && s.nextDispatcher !in objects
    requires !a.Write? && !a.AttachBegin? ==> Do(s, a).mapped == Reported(s.mapped, p, changes)
    modifies o, o.storage
    ensures Stands(o, Do(s, a), objects')
    ensures objects' == objects || (a.AttachBegin? && objects' - {s.nextDispatcher} == objects)
  {
    hide Stands, Do, Enabled, Reported, Represents;
    objects' := objects;
    if a.Write? {
      WriteFrame(o, s, objects, a.entry);
    } else if a.AttachBegin? {
      var d;
      d, objects' := BeginAttach(o, s, objects, a.poller);
    } else {
      MasterParts(s, a);
      ghost var taken := s;
      if a.Deliver? {
        TakeTask(o, s, objects, a.poller);
        taken := s.(queues := s.queues[a.poller := s.queues[a.poller][1..]]);
      }
      ReportAll(o, taken, objects, p, changes);
      OnlyMasterMatters(o, taken.(mapped := Do(s, a).mapped), Do(s, a), objects);
    }
  }

  // The first reader.

  /** `k` is where the last key frame is. */
  ghost predicate IsLastKey<T>(frames: seq<Entry<T>>, k: nat) {
    k < |frames| && frames[k].isKey && forall i :: k < i < |frames| ==> !frames[i].isKey
  }

  lemma {:induction false} SinceLastKey<T>(frames: seq<Entry<T>>, k: nat)
    requires IsLastKey(frames, k)
    ensures SinceKey(frames) == frames[k..]
    decreases |frames|
  {
    var n := |frames| - 1;
    if k < n {
      SinceLastKey(frames[..n], k);
      assert frames[k..] == frames[..n][k..] + [frames[n]];
    } else {
      assert frames[k..] == [frames[n]];
    }
  }

  lemma {:induction false} WithoutKey<T>(frames: seq<Entry<T>>)
    requires forall i :: 0 <= i < |frames| ==> !frames[i].isKey
    ensures SinceKey(frames) == frames
    decreases |frames|
  {
    if frames != [] {
      var n := |frames| - 1;
      WithoutKey(frames[..n]);
      assert frames == frames[..n] + [frames[n]];
    }
  }

  /** What is cached of some frames: from the last key frame on, or from the first, but no more than `max`. */
  lemma CacheFromKey<T>(frames: seq<Entry<T>>, max: nat)
    requires max > 0
    ensures forall k: nat :: IsLastKey(frames, k) ==>
      PutAll([], max, frames) == if |frames| - k <= max then frames[k..] else frames[|frames| - max..]
    ensures (forall i :: 0 <= i < |frames| ==> !frames[i].isKey) ==>
      PutAll([], max, frames) == if |frames| <= max then frames else frames[|frames| - max..]
  {
    CacheIsTail(frames, max);
    forall k: nat | IsLastKey(frames, k)
      ensures PutAll([], max, frames) == if |frames| - k <= max then frames[k..] else frames[|frames| - max..]
    {
      SinceLastKey(frames, k);
      assert |frames| - k > max ==> frames[k..][|frames| - k - max..] == frames[|frames| - max..];
    }
    if forall i :: 0 <= i < |frames| ==> !frames[i].isKey { WithoutKey(frames); }
  }

  /** Nobody has attached yet. */
  ghost predicate IsUnattached<T>(s: Ring<T>, frames: seq<Entry<T>>) {
    s == Ring(s.max, frames, PutAll([], s.max, frames), map[], map[], s.queues, map[], map[], 0, 0)
  }

  lemma WriteUnattached<T>(s: Ring<T>, frames: seq<Entry<T>>, e: Entry<T>)
    requires IsUnattached(s, frames)
    ensures IsUnattached(Do(s, Action.Write(e)), frames + [e]) && Do(s, Action.Write(e)).max == s.max
  {
    PutNext(frames, s.max, e);
    hide PutAll, Put;
  }

  /** Attaching with the cache and setting a callback, as three actions of the state machine. */
  lemma FirstReader<T>(s: Ring<T>, frames: seq<Entry<T>>, p: Poller)
    requires IsUnattached(s, frames)
    ensures Enabled(s, Action.AttachBegin(p))
    ensures var s1 := Do(s, Action.AttachBegin(p)); Enabled(s1, Action.AttachEnd(p, true)) && Concerns(s1, Action.AttachEnd(p, true), 0)
    ensures var s2 := Do(Do(s, Action.AttachBegin(p)), Action.AttachEnd(p, true));
      && Enabled(s2, Action.SetReadCB(0)) && Concerns(s2, Action.SetReadCB(0), 0)
      && var s3 := Do(s2, Action.SetReadCB(0));
        s3.readers == map[0 := Reader(0, true, true, false, true, PutAll([], s.max, frames), |frames|)]
          && 0 in s3.dispatchers && s3.dispatchers[0].readers == {0}
  {
    hide PutAll;
  }

  method WriteAll<T>(o: RingBufferObject<T>, ghost s0: Ring<T>, frames: seq<Entry<T>>) returns (ghost s: Ring<T>)
    requires Inv(s0) && IsUnattached(s0, []) && Stands(o, s0, map[])
    modifies o.storage, o`queues
    ensures Inv(s) && IsUnattached(s, frames) && s.max == s0.max && Stands(o, s, map[])
  {
    hide PutAll, Inv, Do, Enabled, Stands, IsUnattached;
    s := s0;
    for i := 0 to |frames|
      invariant s.max == s0.max && Inv(s) && IsUnattached(s, frames[..i]) && Stands(o, s, map[])
    {
      assert frames[..i + 1] == frames[..i] + [frames[i]];
      WriteFrame(o, s, map[], frames[i]);
      WriteUnattached(s, frames[..i], frames[i]);
      WriteIsEnabled(s, frames[i]);
      StepKeepsInv(s, Action.Write(frames[i]));
      s := Do(s, Action.Write(frames[i]));
    }
    assert frames[..|frames|] == frames;
  }

  lemma NothingWritten<T>(s: Ring<T>)
    requires IsInitial(s)
    ensures IsUnattached(s, [])
  {}

  lemma WriteIsEnabled<T>(s: Ring<T>, e: Entry<T>)
    ensures Enabled(s, Action.Write(e))
  {}

  /** A report changes nothing for the dispatcher itself. */
  method ReportBeside<T>(o: RingBufferObject<T>, d: DispatcherObject<T>, ghost s: Ring<T>, ghost s': Ring<T>, ghost objects: Objects<T>,
                         ghost id: DispatcherId, p: Poller, changes: seq<Change>)
    requires Stands(o, s, objects) && Represents(d, s', id)
    modifies o`dispatcherMap, o`readerChanges
    ensures Stands(o, s.(mapped := Reported(s.mapped, p, changes)), objects) && Represents(d, s', id)
  {
    hide Stands, Represents, Reported;
    ReportAll(o, s, objects, p, changes);
  }

  /** The second half of `attach`, with the report that goes back to the ring buffer. */
  method EndAttach<T>(o: RingBufferObject<T>, d: DispatcherObject<T>, ghost s: Ring<T>, ghost objects: Objects<T>, ghost id: DispatcherId,
                      p: Poller, reader: ReaderId, useCache: bool)
    requires Stands(o, s, objects) && Represents(d, s, id) && Linked(s)
    requires Enabled(s, Action.AttachEnd(p, useCache)) && s.attaching[p] == id && s.dispatchers[id].poller == p && reader == s.nextReader
    requires d.storage != o.storage
    modifies d, o`dispatcherMap, o`readerChanges
    ensures Stands(o, Do(s, Action.AttachEnd(p, useCache)), objects)
    ensures Represents(d, Do(s, Action.AttachEnd(p, useCache)), id) && fresh(d.readerMap.Values - old(d.readerMap.Values))
  {
    MasterParts(s, Action.AttachEnd(p, useCache));
    ghost var s' := Do(s, Action.AttachEnd(p, useCache));
    hide *;
    var n := |d.reported|;
    ghost var changes := RingSimulation.AttachEnd(d, s, id, p, reader, useCache);
    assert d.reported[n..] == changes;
    ReportBeside(o, d, s, s', objects, id, p, d.reported[n..]);
    OnlyMasterMatters(o, s.(mapped := Reported(s.mapped, p, changes)), s', objects);
  }

  method AttachFirst<T>(o: RingBufferObject<T>, ghost s: Ring<T>, ghost frames: seq<Entry<T>>, p: Poller) returns (reader: ReaderObject<T>)
    requires Inv(s) && IsUnattached(s, frames) && Stands(o, s, map[])
    modifies o`dispatcherMap, o`readerChanges
    ensures reader.received == PutAll([], s.max, frames)
  {
    FirstReader(s, frames, p);
    hide PutAll, Inv, Do, Enabled, Stands, Concerns, Linked;
    var d;
    ghost var objects;
    d, objects := BeginAttach(o, s, map[], p);
    ghost var s1 := Do(s, Action.AttachBegin(p));
    ghost var s2 := Do(s1, Action.AttachEnd(p, true));
    FirstLinks(s, frames, p);
    hide IsUnattached;
    EndAttach(o, d, s1, objects, 0, p, 0, true);
    Client(d, s2, 0, Action.SetReadCB(0));
    reader := d.readerMap[0];
  }

  lemma FirstLinks<T>(s: Ring<T>, frames: seq<Entry<T>>, p: Poller)
    requires Inv(s) && IsUnattached(s, frames) && Enabled(s, Action.AttachBegin(p))
    requires Enabled(Do(s, Action.AttachBegin(p)), Action.AttachEnd(p, true))
    ensures var s1 := Do(s, Action.AttachBegin(p)); var s2 := Do(s1, Action.AttachEnd(p, true));
      && Linked(s1) && Linked(s2)
      && s1.attaching == map[p := 0] && 0 in s1.dispatchers && s1.dispatchers[0].poller == p && s1.nextReader == 0
  {
    var s1 := Do(s, Action.AttachBegin(p));
    assert s1.attaching == map[p := 0] && s1.dispatchers[0].poller == p && s1.nextReader == 0;
    hide Inv, Do, Enabled, PutAll, IsUnattached, Linked;
    StepKeepsInv(s, Action.AttachBegin(p));
    StepKeepsInv(s1, Action.AttachEnd(p, true));
    InvLinks(s1);
    InvLinks(Do(s1, Action.AttachEnd(p, true)));
  }

  /**
    A ring buffer is made, frames are written, and a reader attaches that uses the cache: it is given the frames
    from the last key frame on, or from the first without one, all of them if there is room for so many.
   */
  method AttachAfter<T>(maxSize: int, frames: seq<Entry<T>>, p: Poller) returns (reader: ReaderObject<T>)
    ensures var max := if maxSize < 32 then 32 else maxSize;
      && (forall k: nat :: IsLastKey(frames, k) ==>
        reader.received == if |frames| - k <= max then frames[k..] else frames[|frames| - max..])
      && ((forall i :: 0 <= i < |frames| ==> !frames[i].isKey) ==>
        reader.received == if |frames| <= max then frames else frames[|frames| - max..])
  {
    var o: RingBufferObject<T>;
    ghost var s0, s;
    o, s0 := Create(maxSize, false);
    InitialInv(s0);
    NothingWritten(s0);
    CacheFromKey(frames, s0.max);
    hide PutAll, Inv, Stands, IsLastKey, IsUnattached;
    s := WriteAll(o, s0, frames);
    reader := AttachFirst(o, s, frames, p);
  }
}
