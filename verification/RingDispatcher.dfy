/** `_RingReader`, `_RingReaderDispatcher` and `RingBuffer` as objects, proved to do what the state machine says. */
module RingDispatcher {
  import opened RingStorage
  import opened RingReplication

  /** What `_on_size_changed` is called with. */
  datatype Change = Change(size: int, added: bool)

  datatype ReaderState<T> = ReaderState(live: bool, listening: bool, received: seq<Entry<T>>)

  /** What a write does to a reader; an expired one is passed over. */
  function Next<T>(r: ReaderState<T>, e: Entry<T>): ReaderState<T> {
    r.(received := Heard(r.received, r.live && r.listening, e))
  }

  /** `_RingReader`. A reader is live while a client holds it, so while a weak reference to it can be locked. */
  class ReaderObject<T> {
    const storage: Storage<T>
    const useCache: bool
    var live: bool
    var listening: bool
    var received: seq<Entry<T>>

    function State(): ReaderState<T>
      reads this
    {
      ReaderState(live, listening, received)
    }

    constructor (storage: Storage<T>, useCache: bool)
      ensures this.storage == storage && this.useCache == useCache && live && !listening && received == []
    {
      this.storage, this.useCache := storage, useCache;
      live, listening, received := true, false, [];
    }

    method OnRead(e: Entry<T>)
      modifies this`received
      ensures received == Heard(old(received), listening, e)
    {
      if listening {
        received := received + [e];
      }
    }

    method SetReadCB()
      modifies this`listening, this`received
      ensures listening && received == Flushed(storage.dataCache, useCache)
    {
      listening, received := true, [];
      FlushGop();
    }

    /** `setReadCB` with no callback: the default one ignores what it is given. */
    method ClearReadCB()
      modifies this`listening, this`received
      ensures !listening && received == []
    {
      listening, received := false, [];
    }

    method FlushGop()
      requires listening
      modifies this`received
      ensures received == old(received) + Flushed(storage.dataCache, useCache)
    {
      if !useCache {
        return;
      }
      for i := 0 to |storage.dataCache|
        invariant received == old(received) + storage.dataCache[..i]
      {
        OnRead(storage.dataCache[i]);
      }
    }
  }

  /** What has been reported after `k` of `n` readers were found expired: each time the size that was left. */
  function Countdown(before: seq<Change>, n: int, k: nat): seq<Change> {
    if k == 0 then before else Countdown(before, n, k - 1) + [Change(n - k, false)]
  }

  class DispatcherObject<T> {
    const storage: Storage<T>
    var readerMap: map<ReaderId, ReaderObject<T>>
    var readerSize: int
    var reported: seq<Change>

    ghost predicate Valid()
      reads this, storage
    {
      && storage.Valid()
      && readerSize == |readerMap|
      && (forall r :: r in readerMap ==> readerMap[r].storage == storage)
      && (forall r, r' :: r in readerMap && r' in readerMap && readerMap[r] == readerMap[r'] ==> r == r')
    }

    ghost function Expired(): set<ReaderId>
      reads this, readerMap.Values
    {
      set r | r in readerMap && !readerMap[r].live
    }

    constructor (storage: Storage<T>)
      requires storage.Valid()
      ensures Valid() && this.storage == storage && readerMap == map[] && readerSize == 0 && reported == []
    {
      this.storage := storage;
      readerMap, readerSize, reported := map[], 0, [];
    }

    /** Erases while it iterates, in whatever order the map is in. */
    method Write(data: T, isKey: bool)
      requires Valid()
      modifies this, storage, readerMap.Values
      ensures Valid()
      ensures storage.dataCache == Put(old(storage.dataCache), storage.maxSize, Entry(isKey, data))
      ensures readerMap == old(readerMap) - old(Expired())
      ensures readerSize == old(readerSize) - |old(Expired())|
      ensures reported == Countdown(old(reported), old(readerSize), |old(Expired())|)
      ensures forall r :: r in old(readerMap) ==>
        old(readerMap)[r].State() == Next(old(readerMap[r].State()), Entry(isKey, data))
    {
      hide Next, Put, Countdown;
      ghost var states := map r | r in readerMap :: readerMap[r].State();
      NotifyAll(states, Expired(), Entry(isKey, data));
      storage.Write(data, isKey);
    }

    method NotifyAll(ghost states: map<ReaderId, ReaderState<T>>, ghost expired: set<ReaderId>, e: Entry<T>)
      requires Valid() && Visited(readerMap, states, readerMap.Keys, e)
      requires states.Keys == readerMap.Keys && expired <= readerMap.Keys
      requires forall r :: r in states ==> (r in expired <==> !states[r].live)
      modifies this, readerMap.Values
      ensures Valid() && Visited(old(readerMap), states, {}, e)
      ensures readerMap == old(readerMap) - expired
      ensures readerSize == old(readerSize) - |expired|
      ensures reported == Countdown(old(reported), old(readerSize), |expired|)
    {
      hide Visited;
      ghost var was := readerMap;
      ghost var gone: set<ReaderId> := {};
      var unvisited := readerMap.Keys;
      while unvisited != {}
        invariant Valid() && Visited(was, states, unvisited, e)
        invariant unvisited <= was.Keys && gone <= expired && expired <= gone + unvisited && unvisited !! gone
        invariant readerMap == was - gone && readerSize == old(readerSize) - |gone|
        invariant reported == Countdown(old(reported), old(readerSize), |gone|)
      {
        var r :| r in unvisited;
        VisitOne(was, states, unvisited, r, e);
        unvisited := unvisited - {r};
        if r in expired {
          MinusMore(was, gone, r);
          gone := gone + {r};
        }
      }
      assert gone == expired;
    }

    method VisitOne(ghost was: map<ReaderId, ReaderObject<T>>, ghost states: map<ReaderId, ReaderState<T>>,
                    ghost unvisited: set<ReaderId>, id: ReaderId, e: Entry<T>)
      requires Valid() && Visited(was, states, unvisited, e)
      requires id in unvisited && id in was && id in readerMap && readerMap[id] == was[id]
      requires forall r :: r in was && was[r] == was[id] ==> r == id
      modifies this, readerMap[id]
      ensures Valid() && Visited(was, states, unvisited - {id}, e)
      ensures if states[id].live
        then readerMap == old(readerMap) && readerSize == old(readerSize) && reported == old(reported)
        else readerMap == old(readerMap) - {id} && readerSize == old(readerSize) - 1 && reported == old(reported) + [Change(readerSize, false)]
    {
      Visit(id, e);
      hide Next;
      assert was[id].State() == Next(states[id], e);
      forall r | r in was && r != id ensures was[r].State() == old(was[r].State()) {
        assert was[r] != was[id];
      }
    }

    static ghost predicate Visited(was: map<ReaderId, ReaderObject<T>>, states: map<ReaderId, ReaderState<T>>,
                                   unvisited: set<ReaderId>, e: Entry<T>)
      reads was.Values
    {
      && was.Keys == states.Keys
      && forall r :: r in was ==> was[r].State() == if r in unvisited then states[r] else Next(states[r], e)
    }

    method Visit(id: ReaderId, e: Entry<T>)
      requires Valid() && id in readerMap
      modifies this, readerMap[id]
      ensures Valid()
      ensures if old(readerMap[id].live)
        then readerMap == old(readerMap) && readerSize == old(readerSize) && reported == old(reported)
        else readerMap == old(readerMap) - {id} && readerSize == old(readerSize) - 1 && reported == old(reported) + [Change(readerSize, false)]
      ensures old(readerMap)[id].State() == Next(old(readerMap[id].State()), e)
    {
      var reader := readerMap[id];
      if !reader.live {
        MapMinus(readerMap, {id});
        readerMap := readerMap - {id};
        readerSize := readerSize - 1;
        reported := reported + [Change(readerSize, false)];
      } else {
        reader.OnRead(e);
      }
    }

    /** The second half of `RingBuffer::attach`; `id` stands for the address of the new reader. */
    method Attach(id: ReaderId, useCache: bool) returns (reader: ReaderObject<T>)
      requires Valid() && id !in readerMap
      modifies this
      ensures Valid() && fresh(reader) && reader.storage == storage && reader.useCache == useCache
      ensures reader.State() == ReaderState(true, false, [])
      ensures readerMap == old(readerMap)[id := reader] && readerSize == old(readerSize) + 1
      ensures reported == old(reported) + [Change(readerSize, true)]
    {
      reader := new ReaderObject(storage, useCache);
      readerMap := readerMap[id := reader];
      readerSize := readerSize + 1;
      reported := reported + [Change(readerSize, true)];
    }

    /** What a deleted reader queues to its poller. */
    method Dealloc(id: ReaderId)
      requires Valid()
      modifies this
      ensures Valid() && readerMap == old(readerMap) - {id}
      ensures if id in old(readerMap)
        then readerSize == old(readerSize) - 1 && reported == old(reported) + [Change(readerSize, false)]
        else readerSize == old(readerSize) && reported == old(reported)
    {
      if id in readerMap {
        MapMinus(readerMap, {id});
        readerMap := readerMap - {id};
        readerSize := readerSize - 1;
        reported := reported + [Change(readerSize, false)];
      }
    }
  }

  lemma MapMinus<K, V>(m: map<K, V>, x: set<K>)
    requires x <= m.Keys
    ensures |m - x| == |m| - |x|
  {
    assert (m - x).Keys == m.Keys - x;
    assert m.Keys == (m.Keys - x) + x;
  }

  lemma MinusMore<K, V>(m: map<K, V>, x: set<K>, k: K)
    ensures m - x - {k} == m - (x + {k})
  {}

  /** What the user's callback is called with. */
  datatype ReaderChange = ReaderChange(poller: Poller, size: int, added: bool)

  class RingBufferObject<T> {
    const storage: Storage<T>
    const hasCallback: bool
    var readerChanges: seq<ReaderChange>
    var dispatcherMap: map<Poller, DispatcherObject<T>>
    var queues: map<Poller, seq<Task<DispatcherObject<T>, T>>>

    constructor (maxSize: int, hasCallback: bool)
      ensures storage.Valid() && storage.dataCache == [] && dispatcherMap == map[] && queues == map[]
      ensures this.hasCallback == hasCallback && readerChanges == []
      ensures fresh(storage) && storage.maxSize == if maxSize < 32 then 32 else maxSize
    {
      storage := new Storage(maxSize);
      this.hasCallback, readerChanges := hasCallback, [];
      dispatcherMap, queues := map[], map[];
    }

    method Write(data: T, isKey: bool)
      requires storage.Valid()
      modifies storage, this`queues
      ensures storage.Valid() && storage.dataCache == Put(old(storage.dataCache), storage.maxSize, Entry(isKey, data))
      ensures queues == Enqueued(old(queues), dispatcherMap, Entry(isKey, data))
    {
      storage.Write(data, isKey);
      EnqueueAll(Entry(isKey, data));
    }

    method EnqueueAll(e: Entry<T>)
      modifies this`queues
      ensures queues == Enqueued(old(queues), dispatcherMap, e)
    {
      ghost var was := queues;
      var unvisited := dispatcherMap.Keys;
      while unvisited != {}
        invariant unvisited <= dispatcherMap.Keys
        invariant queues.Keys == was.Keys + (dispatcherMap.Keys - unvisited)
        invariant forall p :: p in queues ==>
          queues[p] == (if p in dispatcherMap && p !in unvisited then QueueOf(was, p) + [Task(dispatcherMap[p], e)] else QueueOf(was, p))
      {
        var p :| p in unvisited;
        unvisited := unvisited - {p};
        queues := queues[p := QueueOf(queues, p) + [Task(dispatcherMap[p], e)]];
      }
      assert queues.Keys == was.Keys + dispatcherMap.Keys;
    }

    /** The first half of `attach`, under the lock: a missing dispatcher starts from a copy of the master's cache. */
    method DispatcherFor(p: Poller) returns (d: DispatcherObject<T>)
      requires storage.Valid()
      modifies this`dispatcherMap
      ensures p in old(dispatcherMap) ==> d == old(dispatcherMap)[p] && dispatcherMap == old(dispatcherMap)
      ensures p !in old(dispatcherMap) ==>
        && fresh(d) && d.Valid() && d.readerMap == map[] && fresh(d.storage)
        && d.storage.dataCache == storage.dataCache && d.storage.maxSize == storage.maxSize
        && dispatcherMap == old(dispatcherMap)[p := d]
    {
      if p !in dispatcherMap {
        var copy := storage.Clone();
        var created := new DispatcherObject(copy);
        dispatcherMap := dispatcherMap[p := created];
      }
      d := dispatcherMap[p];
    }

    /** Also called when a reader is added; the map only changes as the last one goes. */
    method OnSizeChanged(p: Poller, size: int, added: bool)
      modifies this`dispatcherMap, this`readerChanges
      ensures dispatcherMap == SizeChanged(old(dispatcherMap), p, size)
      ensures readerChanges == old(readerChanges) + if hasCallback then [ReaderChange(p, size, added)] else []
    {
      if size == 0 {
        dispatcherMap := dispatcherMap - {p};
      }
      if hasCallback {
        readerChanges := readerChanges + [ReaderChange(p, size, added)];
      }
    }
  }
}
