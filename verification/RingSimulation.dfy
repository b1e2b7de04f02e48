/**
  One dispatcher object with its readers does what the state machine of the replication says, in every run;
  what it reports changes the map of dispatchers as the state machine does.
 */
module RingSimulation {
  import opened RingStorage
  import opened RingReplication
  import opened RingDispatcher

  function StateOf<T>(r: Reader<T>): ReaderState<T> {
    ReaderState(r.live, r.listening, r.received)
  }

  ghost predicate Matches<T>(o: ReaderObject<T>, r: Reader<T>)
    reads o
  {
    o.useCache == r.useCache && o.State() == StateOf(r)
  }

  ghost predicate AllMatch<T>(objects: map<ReaderId, ReaderObject<T>>, readers: map<ReaderId, Reader<T>>)
    reads objects.Values
  {
    forall r :: r in objects ==> r in readers && Matches(objects[r], readers[r])
  }

  ghost predicate Holds<T>(o: DispatcherObject<T>, d: Dispatcher<T>, max: nat)
    reads o, o.storage
  {
    && o.Valid() && o.storage.dataCache == d.cache && o.storage.maxSize == max
    && o.readerMap.Keys == d.readers && o.readerSize == d.size
  }

  ghost predicate Represents<T>(o: DispatcherObject<T>, s: Ring<T>, id: DispatcherId)
    reads o, o.storage, o.readerMap.Values
  {
    id in s.dispatchers && Holds(o, s.dispatchers[id], s.max) && AllMatch(o.readerMap, s.readers)
  }

  /** The actions that dispatcher `id` or one of its readers takes part in. */
  predicate Concerns<T>(s: Ring<T>, a: Action<T>, id: DispatcherId)
    requires Enabled(s, a)
  {
    match a
    case Write(_) => false
    case AttachBegin(_) => false
    case AttachEnd(p, _) => s.attaching[p] == id
    case SetReadCB(r) => s.readers[r].dispatcher == id
    case ClearReadCB(r) => s.readers[r].dispatcher == id
    case DropReader(r) => s.readers[r].dispatcher == id
    case Deliver(p) => Queue(s, p)[0].to == id
    case Dealloc(r) => s.readers[r].dispatcher == id
  }

  /** What the reports of a dispatcher do to the map, one after the other. */
  function Reported<D>(mapped: map<Poller, D>, p: Poller, changes: seq<Change>): map<Poller, D> {
    if changes == [] then mapped
    else SizeChanged(Reported(mapped, p, changes[..|changes| - 1]), p, changes[|changes| - 1].size)
  }

  /** While expired readers are erased only the last report can be of an empty dispatcher. */
  lemma {:induction false} CountdownReported<D>(mapped: map<Poller, D>, p: Poller, n: int, k: nat)
    requires k <= n
    ensures Reported(mapped, p, Countdown([], n, k)) == if k == 0 then mapped else SizeChanged(mapped, p, n - k)
  {
    if k > 0 {
      CountdownReported(mapped, p, n, k - 1);
      var c := Countdown([], n, k - 1);
      assert (c + [Change(n - k, false)])[..|c|] == c;
    }
  }

  lemma {:induction false} CountdownFrom(before: seq<Change>, n: int, k: nat)
    ensures Countdown(before, n, k) == before + Countdown([], n, k)
  {
    if k > 0 {
      CountdownFrom(before, n, k - 1);
    } else {
      assert before + [] == before;
    }
  }

  // Who belongs to whom, from the invariant.

  ghost predicate Linked<T>(s: Ring<T>) {
    && s.nextReader !in s.readers && s.nextDispatcher !in s.dispatchers
    && (forall id :: id in s.dispatchers ==> Owns(s, id))
    && (forall r :: r in s.readers && s.readers[r].live ==>
      s.readers[r].dispatcher in s.dispatchers && r in s.dispatchers[s.readers[r].dispatcher].readers)
    && (forall p :: p in s.attaching ==> s.attaching[p] in s.dispatchers && s.dispatchers[s.attaching[p]].poller == p)
  }

  ghost predicate Owns<T>(s: Ring<T>, id: DispatcherId)
    requires id in s.dispatchers
  {
    forall r :: r in s.dispatchers[id].readers ==> r in s.readers && s.readers[r].dispatcher == id
  }

  lemma DispatcherOwns<T>(s: Ring<T>, id: DispatcherId)
    requires id in s.dispatchers && DispatcherOk(s, id)
    ensures Owns(s, id)
  {
    hide PutAll, Pending;
  }

  lemma LiveIsOwned<T>(s: Ring<T>, r: ReaderId)
    requires r in s.readers && ReaderOk(s, r) && s.readers[r].live
    ensures s.readers[r].dispatcher in s.dispatchers && r in s.dispatchers[s.readers[r].dispatcher].readers
  {}

  lemma MappedPoller<T>(s: Ring<T>, p: Poller)
    requires p in s.mapped && MappedOk(s, p)
    ensures s.mapped[p] in s.dispatchers && s.dispatchers[s.mapped[p]].poller == p
  {
    hide Pending;
  }

  lemma InvLinks<T>(s: Ring<T>)
    requires Inv(s)
    ensures Linked(s)
  {
    hide DispatcherOk, MappedOk, QueueOk, ReaderOk, PutAll, Owns;
    UnusedIds(s);
    forall id | id in s.dispatchers ensures Owns(s, id) { DispatcherOwns(s, id); }
    forall r | r in s.readers && s.readers[r].live
      ensures s.readers[r].dispatcher in s.dispatchers && r in s.dispatchers[s.readers[r].dispatcher].readers
    {
      LiveIsOwned(s, r);
    }
    forall p | p in s.attaching ensures s.attaching[p] in s.dispatchers && s.dispatchers[s.attaching[p]].poller == p {
      MappedPoller(s, p);
    }
  }

  // The actions of one dispatcher.

  lemma ToldState<T>(r: Reader<T>, e: Entry<T>)
    ensures StateOf(Told(r, e)) == Next(StateOf(r), e) && Told(r, e).useCache == r.useCache
  {}

  lemma NotifiedMatch<T>(was: map<ReaderId, ReaderObject<T>>, expired: set<ReaderId>, s: Ring<T>, d: Dispatcher<T>, e: Entry<T>)
    requires was.Keys == d.readers
    requires forall r :: r in was ==> r in s.readers && Matches(was[r], Told(s.readers[r], e))
    ensures AllMatch(was - expired, Notified(s, d, e))
  {
    hide Told, Matches;
  }

  lemma SameExpired<T>(o: DispatcherObject<T>, s: Ring<T>, d: Dispatcher<T>)
    requires o.readerMap.Keys == d.readers && AllMatch(o.readerMap, s.readers)
    ensures o.Expired() == Expired(s, d)
  {}

  lemma DeliverParts<T>(s: Ring<T>, p: Poller, id: DispatcherId, e: Entry<T>, expired: set<ReaderId>)
    requires Enabled(s, Action.Deliver(p)) && Queue(s, p)[0] == Task(id, e) && expired == Expired(s, s.dispatchers[id])
    ensures var s' := Do(s, Action.Deliver(p)); var d := s.dispatchers[id];
      && s'.max == s.max && id in s'.dispatchers && s'.dispatchers[id] == Written(d, s.max, e, expired)
      && s'.mapped == (if |expired| == 0 then s.mapped else SizeChanged(s.mapped, d.poller, d.size - |expired|))
      && s'.readers == Notified(s, d, e)
  {
    hide Expired, Put;
  }

  method WriteObject<T>(o: DispatcherObject<T>, ghost d: Dispatcher<T>, ghost readers: map<ReaderId, Reader<T>>,
                        ghost max: nat, e: Entry<T>, ghost expired: set<ReaderId>)
    requires Holds(o, d, max) && AllMatch(o.readerMap, readers) && expired == o.Expired()
    modifies o, o.storage, o.readerMap.Values
    ensures Holds(o, Written(d, max, e, expired), max) && o.readerMap == old(o.readerMap) - expired
    ensures forall r :: r in old(o.readerMap) ==> r in readers && Matches(old(o.readerMap)[r], Told(readers[r], e))
    ensures o.reported == old(o.reported) + Countdown([], d.size, |expired|)
  {
    hide Put, Countdown, Told, Next;
    CountdownFrom(o.reported, o.readerSize, |expired|);
    ghost var was := o.readerMap;
    assert forall r :: r in was ==> r in readers && old(was[r].State()) == StateOf(readers[r]) && was[r].useCache == readers[r].useCache;
    hide AllMatch;
    o.Write(e.data, e.isKey);
    assert e == Entry(e.isKey, e.data);
    forall r | r in was ensures Matches(was[r], Told(readers[r], e)) {
      ToldState(readers[r], e);
      assert was[r].State() == Next(old(was[r].State()), e);
    }
  }

  method Deliver<T>(o: DispatcherObject<T>, ghost s: Ring<T>, ghost id: DispatcherId, ghost p: Poller, e: Entry<T>) returns (ghost changes: seq<Change>)
    requires Represents(o, s, id) && Enabled(s, Action.Deliver(p)) && Queue(s, p)[0] == Task(id, e)
    modifies o, o.storage, o.readerMap.Values
    ensures Represents(o, Do(s, Action.Deliver(p)), id) && fresh(o.readerMap.Values - old(o.readerMap.Values))
    ensures o.reported == old(o.reported) + changes
    ensures Do(s, Action.Deliver(p)).mapped == Reported(s.mapped, s.dispatchers[id].poller, changes)
  {
    hide Do, Enabled, Expired, Reported, Countdown, Written, Notified, Told;
    ghost var d := s.dispatchers[id];
    ghost var expired := Expired(s, d);
    ghost var was := o.readerMap;
    SameExpired(o, s, d);
    DeliverParts(s, p, id, e, expired);
    changes := Countdown([], d.size, |expired|);
    CountdownReported(s.mapped, d.poller, d.size, |expired|);
    WriteObject(o, d, s.readers, s.max, e, expired);
    hide Holds, AllMatch;
    NotifiedMatch(was, expired, s, d, e);
  }

  lemma AttachEndParts<T>(s: Ring<T>, p: Poller, useCache: bool, id: DispatcherId)
    requires Linked(s) && Enabled(s, Action.AttachEnd(p, useCache)) && s.attaching[p] == id
    ensures id in s.dispatchers && s.nextReader !in s.dispatchers[id].readers
    ensures var s' := Do(s, Action.AttachEnd(p, useCache)); var d := s.dispatchers[id]; var r := s.nextReader;
      && s'.max == s.max && id in s'.dispatchers && s'.dispatchers[id] == d.(readers := d.readers + {r}, size := d.size + 1)
      && s'.readers == s.readers[r := Reader(id, useCache, true, false, false, [], 0)]
      && s'.mapped == SizeChanged(s.mapped, d.poller, d.size + 1)
  {}

  lemma OneReport<D>(mapped: map<Poller, D>, p: Poller, c: Change)
    ensures Reported(mapped, p, [c]) == SizeChanged(mapped, p, c.size)
    ensures Reported(mapped, p, []) == mapped
  {
    assert [c][..0] == [];
    assert Reported(mapped, p, [c][..0]) == mapped;
  }

  method AttachEnd<T>(o: DispatcherObject<T>, ghost s: Ring<T>, ghost id: DispatcherId, ghost p: Poller, reader: ReaderId, useCache: bool) returns (ghost changes: seq<Change>)
    requires Represents(o, s, id) && Linked(s) && Enabled(s, Action.AttachEnd(p, useCache)) && s.attaching[p] == id
    requires reader == s.nextReader
    modifies o
    ensures Represents(o, Do(s, Action.AttachEnd(p, useCache)), id) && fresh(o.readerMap.Values - old(o.readerMap.Values))
    ensures o.reported == old(o.reported) + changes
    ensures Do(s, Action.AttachEnd(p, useCache)).mapped == Reported(s.mapped, s.dispatchers[id].poller, changes)
  {
    hide Do, Enabled, Holds, AllMatch, Linked, Reported, Matches, SizeChanged;
    AttachEndParts(s, p, useCache, id);
    ghost var d := s.dispatchers[id];
    changes := [Change(d.size + 1, true)];
    OneReport(s.mapped, d.poller, changes[0]);
    ghost var was := o.readerMap;
    var added := AttachObject(o, d, s.max, reader, useCache);
    OneMore(was, s.readers, reader, added, Reader(id, useCache, true, false, false, [], 0));
  }

  method AttachObject<T>(o: DispatcherObject<T>, ghost d: Dispatcher<T>, ghost max: nat, id: ReaderId, useCache: bool) returns (added: ReaderObject<T>)
    requires Holds(o, d, max) && id !in d.readers
    modifies o
    ensures Holds(o, d.(readers := d.readers + {id}, size := d.size + 1), max)
    ensures o.readerMap == old(o.readerMap)[id := added] && fresh(added)
    ensures o.reported == old(o.reported) + [Change(d.size + 1, true)]
    ensures added.useCache == useCache && added.State() == ReaderState(true, false, [])
  {
    added := o.Attach(id, useCache);
  }

  lemma OneMore<T>(objects: map<ReaderId, ReaderObject<T>>, readers: map<ReaderId, Reader<T>>,
                   id: ReaderId, o: ReaderObject<T>, r: Reader<T>)
    requires AllMatch(objects, readers) && o.useCache == r.useCache && o.State() == StateOf(r)
    ensures AllMatch(objects[id := o], readers[id := r])
  {}

  predicate IsClientAction<T>(a: Action<T>) {
    a.SetReadCB? || a.ClearReadCB? || a.DropReader?
  }

  /** The state a client's action leaves its reader in. */
  function Changed<T>(st: ReaderState<T>, a: Action<T>, cache: seq<Entry<T>>, useCache: bool): ReaderState<T>
    requires IsClientAction(a)
  {
    if a.SetReadCB? then st.(listening := true, received := Flushed(cache, useCache))
    else if a.ClearReadCB? then st.(listening := false, received := [])
    else st.(live := false)
  }

  lemma ClientParts<T>(s: Ring<T>, a: Action<T>, id: DispatcherId)
    requires Linked(s) && IsClientAction(a) && Enabled(s, a) && s.readers[a.reader].dispatcher == id
    ensures id in s.dispatchers && a.reader in s.dispatchers[id].readers
    ensures var s' := Do(s, a); var r := s.readers[a.reader];
      && s' == s.(readers := s'.readers) && s'.readers.Keys == s.readers.Keys
      && (forall q :: q in s.readers && q != a.reader ==> s'.readers[q] == s.readers[q])
      && s'.readers[a.reader].useCache == r.useCache
      && StateOf(s'.readers[a.reader]) == Changed(StateOf(r), a, s.dispatchers[id].cache, r.useCache)
  {}

  method Client<T>(o: DispatcherObject<T>, ghost s: Ring<T>, ghost id: DispatcherId, a: Action<T>)
    requires Represents(o, s, id) && Linked(s) && IsClientAction(a) && Enabled(s, a) && s.readers[a.reader].dispatcher == id
    modifies o.readerMap.Values
    ensures Represents(o, Do(s, a), id) && fresh(o.readerMap.Values - old(o.readerMap.Values)) && o.reported == old(o.reported)
    ensures Do(s, a).mapped == s.mapped
  {
    ClientParts(s, a, id);
    hide Do, Enabled, Linked, Changed;
    var reader := o.readerMap[a.reader];
    ghost var others := o.readerMap - {a.reader};
    OthersMatch(o.readerMap, s.readers, Do(s, a).readers, a.reader);
    OthersApart(o, a.reader);
    ChangeReader(reader, a);
    assert AllMatch(others, Do(s, a).readers);
    OthersAndOne(o.readerMap, Do(s, a).readers, a.reader);
  }

  lemma OthersApart<T>(o: DispatcherObject<T>, r: ReaderId)
    requires o.Valid() && r in o.readerMap
    ensures o.readerMap[r] !in (o.readerMap - {r}).Values
  {}

  method ChangeReader<T>(o: ReaderObject<T>, a: Action<T>)
    requires IsClientAction(a)
    modifies o
    ensures o.State() == Changed(old(o.State()), a, o.storage.dataCache, o.useCache)
  {
    if a.SetReadCB? {
      o.SetReadCB();
    } else if a.ClearReadCB? {
      o.ClearReadCB();
    } else {
      o.live := false;
    }
  }

  lemma OthersMatch<T>(objects: map<ReaderId, ReaderObject<T>>, readers: map<ReaderId, Reader<T>>, readers': map<ReaderId, Reader<T>>, r: ReaderId)
    requires AllMatch(objects, readers) && readers'.Keys == readers.Keys
    requires forall q :: q in readers && q != r ==> readers'[q] == readers[q]
    ensures AllMatch(objects - {r}, readers')
  {}

  lemma OthersAndOne<T>(objects: map<ReaderId, ReaderObject<T>>, readers: map<ReaderId, Reader<T>>, r: ReaderId)
    requires r in objects && r in readers && AllMatch(objects - {r}, readers) && Matches(objects[r], readers[r])
    ensures AllMatch(objects, readers)
  {
    hide Matches;
    assert forall q :: q in objects && q != r ==> q in objects - {r};
  }

  lemma DeallocParts<T>(s: Ring<T>, r: ReaderId, id: DispatcherId)
    requires Enabled(s, Action.Dealloc(r)) && s.readers[r].dispatcher == id
    ensures var s' := Do(s, Action.Dealloc(r)); var d := s.dispatchers[id];
      && s'.max == s.max && id in s'.dispatchers
      && s'.dispatchers[id] == (if r in d.readers then d.(readers := d.readers - {r}, size := d.size - 1) else d)
      && s'.mapped == (if r in d.readers then SizeChanged(s.mapped, d.poller, d.size - 1) else s.mapped)
      && s'.readers == s.readers[r := s.readers[r].(deleted := true)]
  {}

  method Dealloc<T>(o: DispatcherObject<T>, ghost s: Ring<T>, ghost id: DispatcherId, r: ReaderId) returns (ghost changes: seq<Change>)
    requires Represents(o, s, id) && Enabled(s, Action.Dealloc(r)) && s.readers[r].dispatcher == id
    modifies o
    ensures Represents(o, Do(s, Action.Dealloc(r)), id) && fresh(o.readerMap.Values - old(o.readerMap.Values))
    ensures o.reported == old(o.reported) + changes
    ensures Do(s, Action.Dealloc(r)).mapped == Reported(s.mapped, s.dispatchers[id].poller, changes)
  {
    DeallocParts(s, r, id);
    hide Do, Enabled, Reported;
    ghost var d := s.dispatchers[id];
    changes := if r in d.readers then [Change(d.size - 1, false)] else [];
    OneReport(s.mapped, d.poller, Change(d.size - 1, false));
    ghost var was := o.readerMap;
    OneDeleted(was, s.readers, r);
    o.Dealloc(r);
    assert AllMatch(was - {r}, s.readers[r := s.readers[r].(deleted := true)]);
    assert r !in was ==> was - {r} == was;
  }

  lemma OneDeleted<T>(objects: map<ReaderId, ReaderObject<T>>, readers: map<ReaderId, Reader<T>>, r: ReaderId)
    requires AllMatch(objects, readers) && r in readers
    ensures AllMatch(objects - {r}, readers[r := readers[r].(deleted := true)])
  {}

  // What others do, and whole runs.

  lemma OthersParts<T>(s: Ring<T>, a: Action<T>, id: DispatcherId)
    requires Linked(s) && Enabled(s, a) && id in s.dispatchers && !Concerns(s, a, id)
    ensures var s' := Do(s, a);
      && s'.max == s.max && id in s'.dispatchers && s'.dispatchers[id] == s.dispatchers[id]
      && (forall r :: r in s.dispatchers[id].readers ==>
        r in s.readers && r in s'.readers && StateOf(s'.readers[r]) == StateOf(s.readers[r]) && s'.readers[r].useCache == s.readers[r].useCache)
  {
    hide Put, Expired;
    assert Owns(s, id);
    match a
    case Write(_) =>
    case AttachBegin(_) =>
    case AttachEnd(_, _) =>
    case SetReadCB(_) =>
    case ClearReadCB(_) =>
    case DropReader(_) =>
    case Deliver(p) => assert Owns(s, Queue(s, p)[0].to);
    case Dealloc(_) =>
  }

  lemma Undisturbed<T>(o: DispatcherObject<T>, s: Ring<T>, id: DispatcherId, a: Action<T>)
    requires Represents(o, s, id) && Linked(s) && Enabled(s, a) && !Concerns(s, a, id)
    ensures Represents(o, Do(s, a), id)
  {
    OthersParts(s, a, id);
    hide Do, Enabled, Linked, Concerns;
  }

  lemma NothingReported<T>(o: DispatcherObject<T>, s: Ring<T>, id: DispatcherId)
    requires Represents(o, s, id)
    ensures id in s.dispatchers && Reported(s.mapped, s.dispatchers[id].poller, []) == s.mapped
  {}

  lemma HasTask<T>(s: Ring<T>, a: Action<T>)
    requires a.Deliver? && Enabled(s, a)
    ensures Queue(s, a.poller) != []
  {}

  /** The part of dispatcher `id` in an action, on the objects. Its reports change the map as the action does. */
  method Perform<T>(o: DispatcherObject<T>, s: Ring<T>, id: DispatcherId, a: Action<T>) returns (ghost changes: seq<Change>)
    requires Represents(o, s, id) && Inv(s) && Enabled(s, a)
    modifies o, o.storage, o.readerMap.Values
    ensures Represents(o, Do(s, a), id) && fresh(o.readerMap.Values - old(o.readerMap.Values))
    ensures o.reported == old(o.reported) + changes
    ensures Concerns(s, a, id) ==> Do(s, a).mapped == Reported(s.mapped, s.dispatchers[id].poller, changes)
    ensures !Concerns(s, a, id) ==> changes == []
  {
    hide Inv, Represents, Linked, Do, Enabled, Reported, SizeChanged;
    InvLinks(s);
    NothingReported(o, s, id);
    changes := [];
    if !Concerns(s, a, id) {
      Undisturbed(o, s, id, a);
    } else if a.Deliver? {
      HasTask(s, a);
      changes := Deliver(o, s, id, a.poller, Queue(s, a.poller)[0].entry);
    } else if a.AttachEnd? {
      changes := AttachEnd(o, s, id, a.poller, s.nextReader, a.useCache);
    } else if a.Dealloc? {
      changes := Dealloc(o, s, id, a.reader);
    } else {
      Client(o, s, id, a);
    }
  }

  /** Whatever run the threads make, the objects of a dispatcher are in the state that the state machine reaches. */
  method PerformAll<T>(o: DispatcherObject<T>, s: Ring<T>, id: DispatcherId, actions: seq<Action<T>>, ghost s': Ring<T>)
    requires Represents(o, s, id) && Inv(s) && Run(s, actions, s')
    modifies o, o.storage, o.readerMap.Values
    ensures Represents(o, s', id)
    decreases |actions|
  {
    hide Inv, Represents, Do, Enabled, Concerns, Reported;
    if |actions| > 0 {
      var _ := Perform(o, s, id, actions[0]);
      StepKeepsInv(s, actions[0]);
      PerformAll(o, Do(s, actions[0]), id, actions[1..], s');
    }
  }

  /** A dispatcher that has just been made represents itself. */
  lemma NewDispatcherIsRepresented<T>(o: DispatcherObject<T>, s: Ring<T>, p: Poller)
    requires Enabled(s, AttachBegin(p)) && p !in s.mapped
    requires o.Valid() && o.readerMap == map[] && o.storage.dataCache == s.master && o.storage.maxSize == s.max
    ensures Represents(o, Do(s, AttachBegin(p)), s.nextDispatcher)
  {}
}
