/** What every step of the provider's threads keeps, and what holds after any run. */
module ProviderThreadsSafety {
  import opened Common
  import opened DatasetIds
  import opened ProviderThreads

  // ----- Who holds which lock -----

  /** The one thread in a lock's region, if any, is the lock's holder. */
  ghost predicate Holds(holder: Option<Tid>, threads: map<Tid, Thread>, inside: Pc -> bool) {
    && (forall t :: t in threads && inside(threads[t].pc) ==> holder == Some(t))
    && (holder.Some? ==> holder.value in threads && inside(threads[holder.value].pc))
  }

  ghost predicate DatasetLocksHeld(owners: map<nat, Tid>, threads: map<Tid, Thread>) {
    && (forall t :: t in threads && InCriticalSection(threads[t].pc) ==>
          threads[t].pc.lock in owners && owners[threads[t].pc.lock] == t)
    && (forall l :: l in owners ==>
          owners[l] in threads && InCriticalSection(threads[owners[l]].pc) && threads[owners[l]].pc.lock == l)
  }

  /** Each lock is held exactly by the one thread whose program counter is in its region. */
  ghost predicate LocksHeld(held: Held, threads: map<Tid, Thread>) {
    && Holds(held.discovery, threads, HoldsDiscovery)
    && Holds(held.mutex, threads, HoldsMutex)
    && Holds(held.cacheMutex, threads, HoldsCacheMutex)
    && DatasetLocksHeld(held.owners, threads)
  }

  /** A lock's holder stays right when a thread moves, if it enters the region only when the lock is free. */
  lemma TakeKeepsHolder(holder: Option<Tid>, threads: map<Tid, Thread>, t: Tid, th: Thread, inside: Pc -> bool)
    requires Holds(holder, threads, inside) && t in threads
    requires !inside(threads[t].pc) && inside(th.pc) ==> holder.None?
    ensures Holds(Take(holder, t, inside(threads[t].pc), inside(th.pc)), threads[t := th], inside)
  {
  }

  lemma NewThreadHoldsNothing(holder: Option<Tid>, threads: map<Tid, Thread>, t: Tid, th: Thread, inside: Pc -> bool)
    requires Holds(holder, threads, inside) && t !in threads && !inside(th.pc)
    ensures Holds(holder, threads[t := th], inside)
  {
  }

  /** Regions are entered only through a wait for their lock, and a critical section keeps one lock object. */
  ghost predicate EntersFree(held: Held, from: Pc, to: Pc) {
    && (!HoldsDiscovery(from) && HoldsDiscovery(to) ==> held.discovery.None?)
    && (!HoldsMutex(from) && HoldsMutex(to) ==> held.mutex.None?)
    && (!HoldsCacheMutex(from) && HoldsCacheMutex(to) ==> held.cacheMutex.None?)
    && (!InCriticalSection(from) && InCriticalSection(to) ==> to.lock !in held.owners)
    && (InCriticalSection(from) && InCriticalSection(to) ==> from.lock == to.lock)
  }

  lemma RefreshEntersFree(s: State, th: Thread, c: Choice)
    requires CanRun(s, th, c) && Refreshing(th.pc)
    ensures EntersFree(s.held, th.pc, RefreshPc(s, th, c))
  {
  }

  lemma ServeEntersFree(s: State, th: Thread, c: Choice)
    requires CanRun(s, th, c) && Serving(th.pc)
    ensures EntersFree(s.held, th.pc, ServePc(s, th, c))
  {
  }

  lemma TransferKeepsDatasetLocks(owners: map<nat, Tid>, threads: map<Tid, Thread>, t: Tid, th: Thread,
                                  owners': map<nat, Tid>)
    requires DatasetLocksHeld(owners, threads) && t in threads
    requires !InCriticalSection(threads[t].pc) && InCriticalSection(th.pc) ==> th.pc.lock !in owners
    requires InCriticalSection(threads[t].pc) && InCriticalSection(th.pc) ==> threads[t].pc.lock == th.pc.lock
    requires owners' == if InCriticalSection(th.pc) then owners[th.pc.lock := t]
                        else if InCriticalSection(threads[t].pc) then owners - {threads[t].pc.lock}
                        else owners
    ensures DatasetLocksHeld(owners', threads[t := th])
  {
  }

  lemma TransferKeepsLocks(held: Held, threads: map<Tid, Thread>, t: Tid, pc: Pc)
    requires LocksHeld(held, threads) && t in threads && EntersFree(held, threads[t].pc, pc)
    ensures LocksHeld(Transfer(held, t, threads[t].pc, pc), threads[t := threads[t].(pc := pc)])
  {
    var th, held' := threads[t].(pc := pc), Transfer(held, t, threads[t].pc, pc);
    assert Holds(held'.discovery, threads[t := th], HoldsDiscovery) by {
      TakeKeepsHolder(held.discovery, threads, t, th, HoldsDiscovery);
    }
    assert Holds(held'.mutex, threads[t := th], HoldsMutex) by {
      TakeKeepsHolder(held.mutex, threads, t, th, HoldsMutex);
    }
    assert Holds(held'.cacheMutex, threads[t := th], HoldsCacheMutex) by {
      TakeKeepsHolder(held.cacheMutex, threads, t, th, HoldsCacheMutex);
    }
    assert DatasetLocksHeld(held'.owners, threads[t := th]) by {
      TransferKeepsDatasetLocks(held.owners, threads, t, th, held'.owners);
    }
  }

  lemma LocksHeldStep(s: State, a: Action)
    requires LocksHeld(s.held, s.threads) && Enabled(s, a)
    ensures LocksHeld(Step(s, a).held, Step(s, a).threads)
  {
    match a
    case Run(t, c) =>
      var th := s.threads[t];
      if Refreshing(th.pc) { RefreshEntersFree(s, th, c); } else { ServeEntersFree(s, th, c); }
      TransferKeepsLocks(s.held, s.threads, t, Step(s, a).threads[t].pc);
    case Spawn(t, request) =>
      var th := Thread(request, CheckFresh);
      NewThreadHoldsNothing(s.held.discovery, s.threads, t, th, HoldsDiscovery);
      NewThreadHoldsNothing(s.held.mutex, s.threads, t, th, HoldsMutex);
      NewThreadHoldsNothing(s.held.cacheMutex, s.threads, t, th, HoldsCacheMutex);
    case _ =>
  }

  // ----- What references refer to -----

  /** A tree is exactly what loading its snapshot for its id gives, and the snapshot was a tip of its repo. */
  ghost predicate TreeOk(w: World, tree: Tree) {
    tree.repo == Owner(tree.id) && tree.kind == KindOf(tree.id) && tree.snapshot in Tips(w, tree.repo)
  }

  ghost predicate EntryOk(w: World, e: Entry) {
    && TreeOk(w, e.tree) && e.tree.snapshot == e.snapshot
    && e.pos < |Tips(w, e.tree.repo)| && Tips(w, e.tree.repo)[e.pos] == e.snapshot
  }

  predicate EntryFor(d: Fields, e: nat, id: string) {
    e < |d.entries| && d.entries[e].tree.id == id
  }

  predicate LockFor(d: Fields, l: nat, id: string) {
    l < |d.lockObjects| && d.lockObjects[l].0 == id
  }

  ghost predicate OutcomeOk(w: World, th: Thread, outcome: Outcome) {
    outcome.Served? ==> TreeOk(w, outcome.tree) && th.request == Some(outcome.tree.id)
  }

  ghost predicate ThreadOk(d: Fields, w: World, th: Thread) {
    && RefersProperly(d, th)
    && (RefersToLock(th.pc) ==> LockFor(d, th.pc.lock, th.request.value))
    && (th.pc.FastCheck? ==> th.request.Some? && EntryFor(d, th.pc.hit, th.request.value))
    && (th.pc.Stamp? ==> EntryFor(d, th.pc.hit, th.request.value))
    && (HasEntry(th.pc) && th.pc.entry.Some? ==> EntryFor(d, th.pc.entry.value, th.request.value))
    && (th.pc.Store? ==> EntryFor(d, th.pc.made, th.request.value))
    && (th.pc.Load? ==> th.pc.pos < |Tips(w, Owner(th.request.value))|
                        && Tips(w, Owner(th.request.value))[th.pc.pos] == th.pc.tip)
    && (th.pc.Release? || th.pc.Done? ==> OutcomeOk(w, th, th.pc.outcome))
  }

  ghost predicate FieldsOk(d: Fields, w: World) {
    && (forall e :: 0 <= e < |d.entries| ==> EntryOk(w, d.entries[e]))
    && (forall id :: id in d.cache ==> EntryFor(d, d.cache[id], id))
    && (forall id :: id in d.locks ==> LockFor(d, d.locks[id], id))
  }

  /** Objects are never lost: entries keep all but their stamp, lock objects and past tips stay. */
  ghost predicate Grows(d: Fields, w: World, d': Fields, w': World) {
    && |d.entries| <= |d'.entries|
    && (forall e :: 0 <= e < |d.entries| ==> d'.entries[e] == d.entries[e].(checkedAt := d'.entries[e].checkedAt))
    && d.lockObjects <= d'.lockObjects
    && (forall repo :: Tips(w, repo) <= Tips(w', repo))
  }

  lemma GrowsKeepsThread(d: Fields, w: World, d': Fields, w': World, th: Thread)
    requires ThreadOk(d, w, th) && Grows(d, w, d', w')
    ensures ThreadOk(d', w', th)
  {
  }

  lemma RefreshGrows(s: State, pc: Pc, c: Choice)
    requires FieldsOk(s.data, s.world)
    ensures Grows(s.data, s.world, RefreshData(s, pc, c), s.world) && FieldsOk(RefreshData(s, pc, c), s.world)
  {
  }

  lemma ServeGrows(s: State, th: Thread, c: Choice)
    requires FieldsOk(s.data, s.world) && ThreadOk(s.data, s.world, th) && CanRun(s, th, c) && Serving(th.pc)
    ensures Grows(s.data, s.world, ServeData(s, th, c), s.world) && FieldsOk(ServeData(s, th, c), s.world)
  {
  }

  lemma RefreshKeepsThread(s: State, th: Thread, c: Choice)
    requires FieldsOk(s.data, s.world) && ThreadOk(s.data, s.world, th) && CanRun(s, th, c) && Refreshing(th.pc)
    ensures ThreadOk(s.data, s.world, th.(pc := RefreshPc(s, th, c)))
  {
  }

  lemma OpeningKeepsThread(s: State, th: Thread, c: Choice)
    requires FieldsOk(s.data, s.world) && ThreadOk(s.data, s.world, th) && CanRun(s, th, c)
    requires HasEntry(th.pc) && !th.pc.LookUp? && !th.pc.Load?
    ensures ThreadOk(ServeData(s, th, c), s.world, th.(pc := ServePc(s, th, c)))
  {
  }

  lemma LoadingKeepsThread(s: State, th: Thread, c: Choice)
    requires FieldsOk(s.data, s.world) && ThreadOk(s.data, s.world, th) && CanRun(s, th, c)
    requires th.pc.LookUp? || th.pc.Load? || th.pc.Stamp? || th.pc.Store? || th.pc.Release?
    ensures ThreadOk(ServeData(s, th, c), s.world, th.(pc := ServePc(s, th, c)))
  {
  }

  lemma ServeKeepsThread(s: State, th: Thread, c: Choice)
    requires FieldsOk(s.data, s.world) && ThreadOk(s.data, s.world, th) && CanRun(s, th, c) && Serving(th.pc)
    ensures ThreadOk(ServeData(s, th, c), s.world, th.(pc := ServePc(s, th, c)))
  {
    if th.pc.LookUp? || th.pc.Load? || th.pc.Stamp? || th.pc.Store? || th.pc.Release? {
      LoadingKeepsThread(s, th, c);
    } else if HasEntry(th.pc) {
      OpeningKeepsThread(s, th, c);
    }
  }

  /** Every reference in the state is in order. */
  ghost predicate RefsOk(s: State) {
    FieldsOk(s.data, s.world) && forall t :: t in s.threads ==> ThreadOk(s.data, s.world, s.threads[t])
  }

  lemma RefsOkStep(s: State, a: Action)
    requires RefsOk(s) && Enabled(s, a)
    ensures RefsOk(Step(s, a)) && Grows(s.data, s.world, Step(s, a).data, Step(s, a).world)
  {
    var s' := Step(s, a);
    match a
    case Run(t, c) =>
      var th := s.threads[t];
      assert ThreadOk(s.data, s.world, th);
      if Refreshing(th.pc) {
        RefreshGrows(s, th.pc, c);
        RefreshKeepsThread(s, th, c);
        GrowsKeepsThread(s.data, s.world, s'.data, s'.world, s'.threads[t]);
      } else {
        ServeGrows(s, th, c);
        ServeKeepsThread(s, th, c);
      }
      forall u | u in s'.threads ensures ThreadOk(s'.data, s'.world, s'.threads[u]) {
        if u != t { GrowsKeepsThread(s.data, s.world, s'.data, s'.world, s.threads[u]); }
      }
    case _ =>
      assert Grows(s.data, s.world, s'.data, s'.world);
      forall u | u in s'.threads ensures ThreadOk(s'.data, s'.world, s'.threads[u]) {
        if u in s.threads { GrowsKeepsThread(s.data, s.world, s'.data, s'.world, s.threads[u]); }
      }
  }

  // ----- Evictions and lock objects -----

  ghost predicate OfEvicted(h: History, ids: set<string>) {
    forall id :: id in ids ==> Owner(id) in h.evicted
  }

  /** Whatever a thread is about to pop belongs to a repo whose eviction has begun. */
  ghost predicate EvictionOk(h: History, th: Thread) {
    && (th.pc.ReplaceConfigs? ==> NamesOk(th.pc.names))
    && (th.pc.AwaitRepos? || th.pc.PopRepos? || th.pc.AwaitCache? ==> th.pc.removed <= h.evicted)
    && (th.pc.PopRepos? ==> th.pc.rest <= th.pc.removed)
    && (th.pc.PopEntry? || th.pc.PopLock? ==> OfEvicted(h, th.pc.ids))
    && (th.pc.PopLock? ==> Owner(th.pc.id) in h.evicted)
  }

  ghost predicate EvictionsOk(s: State) {
    && NamesOk(s.data.configs)
    && (forall n :: n in s.history.evicted ==> !EndsWith(n, DATA_SUFFIX))
    && OfEvicted(s.history, s.history.generation.Keys)
    && (forall t :: t in s.threads ==> EvictionOk(s.history, s.threads[t]))
  }

  lemma EvictionStep(s: State, th: Thread, c: Choice)
    requires EvictionsOk(s) && EvictionOk(s.history, th) && CanRun(s, th, c) && Refreshing(th.pc)
    ensures EvictionOk(NextHistory(s, th, c), th.(pc := RefreshPc(s, th, c)))
    ensures NamesOk(RefreshData(s, th.pc, c).configs)
    ensures OfEvicted(NextHistory(s, th, c), NextHistory(s, th, c).generation.Keys)
    ensures forall n :: n in NextHistory(s, th, c).evicted ==> !EndsWith(n, DATA_SUFFIX)
  {
  }

  lemma ServeDoesNotRefresh(s: State, th: Thread, c: Choice)
    requires CanRun(s, th, c) && Serving(th.pc)
    ensures !Refreshing(ServePc(s, th, c))
  {
  }

  /** Only `setdefault` registers a lock and only `_evict` drops one; only `_evict` and the new list touch the rest. */
  lemma WhoWritesWhat(s: State, th: Thread, c: Choice)
    requires CanRun(s, th, c)
    ensures Serving(th.pc) ==> ServeData(s, th, c).configs == s.data.configs
    ensures Serving(th.pc) && !th.pc.SetDefault? ==>
              ServeData(s, th, c).locks == s.data.locks && ServeData(s, th, c).lockObjects == s.data.lockObjects
    ensures RefreshData(s, th.pc, c).lockObjects == s.data.lockObjects
    ensures !th.pc.PopLock? ==> RefreshData(s, th.pc, c).locks == s.data.locks
  {
  }

  lemma WhoWritesHistory(s: State, th: Thread, c: Choice)
    requires CanRun(s, th, c)
    ensures !th.pc.ReplaceConfigs? ==> NextHistory(s, th, c).evicted == s.history.evicted
    ensures !th.pc.PopLock? ==> NextHistory(s, th, c).generation == s.history.generation
  {
  }

  lemma EvictionsOkStep(s: State, a: Action)
    requires EvictionsOk(s) && Enabled(s, a)
    ensures EvictionsOk(Step(s, a)) && s.history.evicted <= Step(s, a).history.evicted
  {
    match a
    case Run(t, c) =>
      assert EvictionOk(s.history, s.threads[t]);
      if Refreshing(s.threads[t].pc) {
        EvictionStep(s, s.threads[t], c);
      } else {
        ServeDoesNotRefresh(s, s.threads[t], c);
        WhoWritesWhat(s, s.threads[t], c);
        WhoWritesHistory(s, s.threads[t], c);
      }
    case _ =>
  }

  /** One lock object per id and generation; the registered one is of the current generation. */
  ghost predicate LockObjectsOk(d: Fields, h: History) {
    && (forall id :: id in d.locks ==>
          d.locks[id] < |d.lockObjects| && d.lockObjects[d.locks[id]] == (id, Generation(h, id)))
    && (forall l :: 0 <= l < |d.lockObjects| ==>
          && d.lockObjects[l].1 <= Generation(h, d.lockObjects[l].0)
          && (d.lockObjects[l].1 == Generation(h, d.lockObjects[l].0) ==>
                d.lockObjects[l].0 in d.locks && d.locks[d.lockObjects[l].0] == l))
    && Distinct(d.lockObjects)
  }

  lemma RegisteringKeepsLockObjects(d: Fields, h: History, id: string)
    requires LockObjectsOk(d, h) && id !in d.locks
    ensures LockObjectsOk(d.(locks := d.locks[id := |d.lockObjects|],
                             lockObjects := d.lockObjects + [(id, Generation(h, id))]), h)
  {
  }

  lemma PoppingKeepsLockObjects(d: Fields, h: History, id: string)
    requires LockObjectsOk(d, h)
    ensures LockObjectsOk(d.(locks := d.locks - {id}), h.(generation := h.generation[id := Generation(h, id) + 1]))
  {
  }

  lemma LockObjectsFrame(d: Fields, h: History, d': Fields, h': History)
    requires LockObjectsOk(d, h)
    requires d'.locks == d.locks && d'.lockObjects == d.lockObjects && h'.generation == h.generation
    ensures LockObjectsOk(d', h')
  {
  }

  lemma LockObjectsOkStep(s: State, a: Action)
    requires LockObjectsOk(s.data, s.history) && Enabled(s, a)
    ensures LockObjectsOk(Step(s, a).data, Step(s, a).history)
  {
    if a.Run? {
      var th, s' := s.threads[a.t], Step(s, a);
      if th.pc.PopLock? {
        PoppingKeepsLockObjects(s.data, s.history, th.pc.id);
      } else {
        WhoWritesWhat(s, th, a.choice);
        WhoWritesHistory(s, th, a.choice);
        if th.pc.SetDefault? && th.request.value !in s.data.locks {
          RegisteringKeepsLockObjects(s.data, s.history, th.request.value);
        } else {
          LockObjectsFrame(s.data, s.history, s'.data, s'.history);
        }
      }
    }
  }
}
