/** Loads only move forward, and what every run of the provider's threads keeps. */
module ProviderThreadsRuns {
  import opened Common
  import opened DatasetIds
  import opened ProviderThreads
  import opened ProviderThreadsSafety

  // ----- One thread at a time per dataset -----

  /** Locks, references, evictions and lock objects are all in order. */
  ghost predicate Sound(s: State) {
    LocksHeld(s.held, s.threads) && RefsOk(s) && EvictionsOk(s) && LockObjectsOk(s.data, s.history)
  }

  /** A thread is in the critical section of `id` under the lock object of the given generation. */
  ghost predicate Inside(s: State, t: Tid, id: string, generation: nat) {
    && t in s.threads && InCriticalSection(s.threads[t].pc) && s.threads[t].request == Some(id)
    && s.threads[t].pc.lock < |s.data.lockObjects|
    && s.data.lockObjects[s.threads[t].pc.lock] == (id, generation)
  }

  lemma OneThreadPerGeneration(s: State, t: Tid, u: Tid, id: string, generation: nat)
    requires Sound(s) && Inside(s, t, id, generation) && Inside(s, u, id, generation)
    ensures t == u
  {
    assert s.threads[t].pc.lock == s.threads[u].pc.lock;
  }

  /** Until its repo is evicted, a dataset has one lock object, held by whoever is inside. */
  lemma InsideHoldsTheLock(s: State, t: Tid, id: string)
    requires Sound(s) && Owner(id) !in s.history.evicted
    requires t in s.threads && InCriticalSection(s.threads[t].pc) && s.threads[t].request == Some(id)
    ensures Inside(s, t, id, 0)
    ensures id in s.data.locks && s.data.locks[id] == s.threads[t].pc.lock
    ensures s.data.locks[id] in s.held.owners && s.held.owners[s.data.locks[id]] == t
  {
  }

  // ----- Loads -----

  ghost predicate Increasing(ps: seq<nat>) {
    forall i, j :: 0 <= i < j < |ps| ==> ps[i] < ps[j]
  }

  /** The given entry is the one made by the latest load for the id. */
  ghost predicate Latest(d: Fields, h: History, id: string, e: Option<nat>) {
    if e.None? then Loads(h, id) == []
    else Loads(h, id) != [] && e.value < |d.entries| && d.entries[e.value].pos == Last(Loads(h, id))
  }

  /** Some thread has loaded the id and is about to cache the entry. */
  ghost predicate Storing(s: State, id: string) {
    && id in s.data.locks && s.data.locks[id] in s.held.owners
    && s.held.owners[s.data.locks[id]] in s.threads
    && s.threads[s.held.owners[s.data.locks[id]]].pc.Store?
    && s.threads[s.held.owners[s.data.locks[id]]].request == Some(id)
  }

  ghost predicate ForwardThread(d: Fields, h: History, th: Thread) {
    th.request.Some? && Owner(th.request.value) !in h.evicted ==>
      var cached := Cached(d, th.request.value);
      && (HasEntry(th.pc) ==> th.pc.entry == cached)
      && (th.pc.Load? && cached.Some? && cached.value < |d.entries| ==> d.entries[cached.value].pos < th.pc.pos)
      && (th.pc.Store? ==>
            && Latest(d, h, th.request.value, Some(th.pc.made))
            && (cached.Some? && cached.value < |d.entries| ==>
                  d.entries[cached.value].pos < d.entries[th.pc.made].pos))
  }

  ghost predicate ForwardId(s: State, id: string) {
    Owner(id) !in s.history.evicted ==>
      Increasing(Loads(s.history, id)) && (Latest(s.data, s.history, id, Cached(s.data, id)) || Storing(s, id))
  }

  /** Loads of a dataset never go back in its repo's tips, and the cache holds the latest of them. */
  ghost predicate Forward(s: State) {
    && (forall id :: ForwardId(s, id))
    && (forall t :: t in s.threads ==> ForwardThread(s.data, s.history, s.threads[t]))
  }

  lemma WhoWritesCache(s: State, th: Thread, c: Choice)
    requires CanRun(s, th, c)
    ensures Serving(th.pc) && !th.pc.Store? ==> ServeData(s, th, c).cache == s.data.cache
    ensures !th.pc.PopEntry? ==> RefreshData(s, th.pc, c).cache == s.data.cache
    ensures !th.pc.Load? ==> NextHistory(s, th, c).loads == s.history.loads
  {
  }

  /** A step changes the cached entry and the loads of no dataset but its own and evicted ones. */
  lemma OthersUntouched(s: State, a: Action, id: string)
    requires Sound(s) && Enabled(s, a) && a.Run? && Owner(id) !in Step(s, a).history.evicted
    requires s.threads[a.t].request == Some(id) ==> !s.threads[a.t].pc.Load? && !s.threads[a.t].pc.Store?
    ensures Cached(Step(s, a).data, id) == Cached(s.data, id)
    ensures Loads(Step(s, a).history, id) == Loads(s.history, id)
    ensures Owner(id) !in s.history.evicted
  {
    EvictionsOkStep(s, a);
    assert EvictionOk(s.history, s.threads[a.t]);
    WhoWritesCache(s, s.threads[a.t], a.choice);
  }

  /** A step takes no lock from another thread. */
  lemma OwnersStay(held: Held, threads: map<Tid, Thread>, t: Tid, pc: Pc, l: nat)
    requires LocksHeld(held, threads) && t in threads && EntersFree(held, threads[t].pc, pc)
    requires l in held.owners && held.owners[l] != t
    ensures l in Transfer(held, t, threads[t].pc, pc).owners
    ensures Transfer(held, t, threads[t].pc, pc).owners[l] == held.owners[l]
  {
  }

  lemma StepEntersFree(s: State, a: Action)
    requires Enabled(s, a) && a.Run?
    ensures EntersFree(s.held, s.threads[a.t].pc, Step(s, a).threads[a.t].pc)
    ensures Step(s, a).held == Transfer(s.held, a.t, s.threads[a.t].pc, Step(s, a).threads[a.t].pc)
  {
    var th := s.threads[a.t];
    if Refreshing(th.pc) { RefreshEntersFree(s, th, a.choice); } else { ServeEntersFree(s, th, a.choice); }
  }

  /** The lock object of a dataset that is not evicted stays registered. */
  lemma LockStays(s: State, a: Action, id: string)
    requires Sound(s) && Enabled(s, a) && a.Run? && Owner(id) !in s.history.evicted && id in s.data.locks
    ensures id in Step(s, a).data.locks && Step(s, a).data.locks[id] == s.data.locks[id]
  {
    assert EvictionOk(s.history, s.threads[a.t]);
    WhoWritesWhat(s, s.threads[a.t], a.choice);
  }

  /** A thread at its store stays the one that is storing while others step. */
  lemma StoringStays(s: State, a: Action, id: string)
    requires Sound(s) && Enabled(s, a) && a.Run? && Owner(id) !in s.history.evicted
    requires Storing(s, id) && s.held.owners[s.data.locks[id]] != a.t
    ensures Storing(Step(s, a), id)
  {
    var l := s.data.locks[id];
    var s' := Step(s, a);
    LockStays(s, a, id);
    StepEntersFree(s, a);
    OwnersStay(s.held, s.threads, a.t, s'.threads[a.t].pc, l);
    assert s'.threads[s.held.owners[l]] == s.threads[s.held.owners[l]];
  }

  // ----- How the one thread inside moves its dataset forward -----

  lemma ForwardFrame(d: Fields, w: World, h: History, d': Fields, w': World, h': History, th: Thread)
    requires FieldsOk(d, w) && Grows(d, w, d', w') && ForwardThread(d, h, th)
    requires th.request.Some? && Owner(th.request.value) !in h'.evicted ==>
               && Owner(th.request.value) !in h.evicted
               && Cached(d', th.request.value) == Cached(d, th.request.value)
               && Loads(h', th.request.value) == Loads(h, th.request.value)
    ensures ForwardThread(d', h', th)
  {
  }

  /** A lookup finds a tip at or after the cached entry's, and another snapshot only after it. */
  lemma LookUpIsForward(s: State, th: Thread, c: Choice)
    requires ThreadOk(s.data, s.world, th) && ForwardThread(s.data, s.history, th)
    requires CanRun(s, th, c) && th.pc.LookUp?
    requires th.pc.entry.Some? ==> EntryOk(s.world, s.data.entries[th.pc.entry.value])
    ensures ForwardThread(s.data, s.history, th.(pc := ServePc(s, th, c)))
  {
  }

  /** The other steps of a thread keep its local entry equal to the cached one. */
  lemma ServingIsForward(s: State, th: Thread, c: Choice)
    requires ForwardThread(s.data, s.history, th) && CanRun(s, th, c) && Serving(th.pc)
    requires !th.pc.LookUp? && !th.pc.Load?
    ensures ForwardThread(s.data, s.history, th.(pc := ServePc(s, th, c)))
  {
  }

  lemma RefreshingIsForward(s: State, th: Thread, c: Choice)
    requires CanRun(s, th, c) && Refreshing(th.pc)
    ensures ForwardThread(s.data, s.history, th.(pc := RefreshPc(s, th, c)))
  {
  }

  /** A successful load appends a later position, and its entry is the latest. */
  lemma LoadIsForward(s: State, th: Thread, c: Choice)
    requires CanRun(s, th, c) && th.pc.Load? && ForwardThread(s.data, s.history, th)
    requires Owner(th.request.value) !in s.history.evicted
    requires Increasing(Loads(s.history, th.request.value))
    requires Latest(s.data, s.history, th.request.value, Cached(s.data, th.request.value))
    ensures Increasing(Loads(NextHistory(s, th, c), th.request.value))
    ensures ForwardThread(ServeData(s, th, c), NextHistory(s, th, c), th.(pc := ServePc(s, th, c)))
    ensures !c.ok ==> NextHistory(s, th, c) == s.history && ServeData(s, th, c) == s.data
  {
  }

  /** Caching the entry of the latest load makes the cache hold the latest load. */
  lemma StoreIsForward(s: State, th: Thread, c: Choice)
    requires CanRun(s, th, c) && th.pc.Store? && ForwardThread(s.data, s.history, th)
    requires Owner(th.request.value) !in s.history.evicted
    ensures Latest(ServeData(s, th, c), NextHistory(s, th, c), th.request.value,
                   Cached(ServeData(s, th, c), th.request.value))
    ensures NextHistory(s, th, c) == s.history
  {
  }

  lemma SoundStep(s: State, a: Action)
    requires Sound(s) && Enabled(s, a)
    ensures Sound(Step(s, a)) && Grows(s.data, s.world, Step(s, a).data, Step(s, a).world)
    ensures s.history.evicted <= Step(s, a).history.evicted
  {
    LocksHeldStep(s, a);
    RefsOkStep(s, a);
    EvictionsOkStep(s, a);
    LockObjectsOkStep(s, a);
  }

  /** A thread inside its dataset finds the cache holding the latest load, unless it has just loaded. */
  lemma InsideSeesLatest(s: State, t: Tid, id: string)
    requires Sound(s) && Forward(s) && Owner(id) !in s.history.evicted
    requires t in s.threads && InCriticalSection(s.threads[t].pc) && s.threads[t].request == Some(id)
    requires !s.threads[t].pc.Store?
    ensures Increasing(Loads(s.history, id)) && Latest(s.data, s.history, id, Cached(s.data, id))
  {
    InsideHoldsTheLock(s, t, id);
    assert ForwardId(s, id);
  }

  lemma NextPcIsForward(s: State, th: Thread, c: Choice)
    requires FieldsOk(s.data, s.world) && ThreadOk(s.data, s.world, th) && ForwardThread(s.data, s.history, th)
    requires CanRun(s, th, c) && !th.pc.Load?
    ensures ForwardThread(s.data, s.history,
                          th.(pc := if Refreshing(th.pc) then RefreshPc(s, th, c) else ServePc(s, th, c)))
  {
    if Refreshing(th.pc) {
      RefreshingIsForward(s, th, c);
    } else if th.pc.LookUp? {
      LookUpIsForward(s, th, c);
    } else {
      ServingIsForward(s, th, c);
    }
  }

  /** A step that is neither a load nor a store changes no cached entry and no loads, save of evicted repos. */
  lemma QuietOwnStep(s: State, a: Action)
    requires Sound(s) && Forward(s) && Enabled(s, a) && a.Run? && !s.threads[a.t].pc.Load? && !s.threads[a.t].pc.Store?
    ensures ForwardThread(Step(s, a).data, Step(s, a).history, Step(s, a).threads[a.t])
  {
    var th, s' := s.threads[a.t], Step(s, a);
    NextPcIsForward(s, th, a.choice);
    SoundStep(s, a);
    if th.request.Some? && Owner(th.request.value) !in s'.history.evicted {
      OthersUntouched(s, a, th.request.value);
    }
    ForwardFrame(s.data, s.world, s.history, s'.data, s'.world, s'.history, s'.threads[a.t]);
  }

  lemma LoadingOwnStep(s: State, a: Action)
    requires Sound(s) && Forward(s) && Enabled(s, a) && a.Run?
    requires s.threads[a.t].pc.Load? && Owner(s.threads[a.t].request.value) !in s.history.evicted
    ensures ForwardThread(Step(s, a).data, Step(s, a).history, Step(s, a).threads[a.t])
    ensures ForwardId(Step(s, a), s.threads[a.t].request.value)
  {
    var th, id, s' := s.threads[a.t], s.threads[a.t].request.value, Step(s, a);
    InsideSeesLatest(s, a.t, id);
    LoadIsForward(s, th, a.choice);
    if a.choice.ok {
      SoundStep(s, a);
      InsideHoldsTheLock(s', a.t, id);
    }
  }

  lemma StoringOwnStep(s: State, a: Action)
    requires Forward(s) && Enabled(s, a) && a.Run? && s.threads[a.t].pc.Store?
    requires Owner(s.threads[a.t].request.value) !in s.history.evicted
    ensures ForwardThread(Step(s, a).data, Step(s, a).history, Step(s, a).threads[a.t])
    ensures ForwardId(Step(s, a), s.threads[a.t].request.value)
  {
    assert ForwardId(s, s.threads[a.t].request.value);
    StoreIsForward(s, s.threads[a.t], a.choice);
  }

  lemma ForwardOwnStep(s: State, a: Action)
    requires Sound(s) && Forward(s) && Enabled(s, a) && a.Run?
    ensures ForwardThread(Step(s, a).data, Step(s, a).history, Step(s, a).threads[a.t])
  {
    var th := s.threads[a.t];
    if th.pc.Load? || th.pc.Store? {
      SoundStep(s, a);
      if Owner(th.request.value) !in Step(s, a).history.evicted {
        if th.pc.Load? { LoadingOwnStep(s, a); } else { StoringOwnStep(s, a); }
      }
    } else {
      QuietOwnStep(s, a);
    }
  }

  /** Another thread in the same dataset is not inside it, so its local entry stays right. */
  lemma ForwardOtherThread(s: State, a: Action, u: Tid)
    requires Sound(s) && Forward(s) && Enabled(s, a) && a.Run? && u in s.threads && u != a.t
    ensures ForwardThread(Step(s, a).data, Step(s, a).history, s.threads[u])
  {
    var th, s' := s.threads[u], Step(s, a);
    SoundStep(s, a);
    if th.request.Some? && Owner(th.request.value) !in s'.history.evicted && InCriticalSection(th.pc) {
      InsideHoldsTheLock(s, u, th.request.value);
      if s.threads[a.t].request == th.request && InCriticalSection(s.threads[a.t].pc) {
        InsideHoldsTheLock(s, a.t, th.request.value);
      } else {
        OthersUntouched(s, a, th.request.value);
        ForwardFrame(s.data, s.world, s.history, s'.data, s'.world, s'.history, th);
      }
    }
  }

  lemma ForwardIdStep(s: State, a: Action, id: string)
    requires Sound(s) && Forward(s) && Enabled(s, a) && a.Run?
    ensures ForwardId(Step(s, a), id)
  {
    var th, s' := s.threads[a.t], Step(s, a);
    assert ForwardId(s, id);
    SoundStep(s, a);
    if Owner(id) !in s'.history.evicted {
      if th.request == Some(id) && th.pc.Load? {
        LoadingOwnStep(s, a);
      } else if th.request == Some(id) && th.pc.Store? {
        StoringOwnStep(s, a);
      } else {
        OthersUntouched(s, a, id);
        if !Latest(s.data, s.history, id, Cached(s.data, id)) { StoringStays(s, a, id); }
      }
    }
  }

  lemma ForwardStep(s: State, a: Action)
    requires Sound(s) && Forward(s) && Enabled(s, a)
    ensures Forward(Step(s, a))
  {
    var s' := Step(s, a);
    if a.Run? {
      forall id ensures ForwardId(s', id) { ForwardIdStep(s, a, id); }
      forall u | u in s'.threads ensures ForwardThread(s'.data, s'.history, s'.threads[u]) {
        if u == a.t { ForwardOwnStep(s, a); } else { ForwardOtherThread(s, a, u); }
      }
    } else {
      forall id ensures ForwardId(s', id) { assert ForwardId(s, id); }
    }
  }

  // ----- Repos are opened once -----

  /** Each repo has been opened once more than it was dropped if it is open, and drops come only from evictions. */
  ghost predicate OpenedOnce(s: State) {
    forall repo ::
      && s.history.openings[repo] == s.history.closings[repo] + (if repo in s.data.repos then 1 else 0)
      && (s.history.closings[repo] > 0 ==> repo in s.history.evicted)
  }

  lemma OpenedOnceStep(s: State, a: Action)
    requires OpenedOnce(s) && EvictionsOk(s) && Enabled(s, a)
    ensures OpenedOnce(Step(s, a))
  {
    if a.Run? {
      var th, s' := s.threads[a.t], Step(s, a);
      assert EvictionOk(s.history, th);
      EvictionsOkStep(s, a);
      if th.pc.PopRepos? || th.pc.OpenRecheck? {
      } else {
        WhoOpens(s, th, a.choice);
      }
    }
  }

  lemma WhoOpens(s: State, th: Thread, c: Choice)
    requires CanRun(s, th, c) && !th.pc.PopRepos? && !th.pc.OpenRecheck?
    ensures Serving(th.pc) ==> ServeData(s, th, c).repos == s.data.repos
    ensures RefreshData(s, th.pc, c).repos == s.data.repos
    ensures NextHistory(s, th, c).openings == s.history.openings
    ensures NextHistory(s, th, c).closings == s.history.closings
  {
  }

  // ----- Runs -----

  predicate Runs(s: State, run: seq<Action>)
    decreases |run|
  {
    run == [] || (Enabled(s, run[0]) && Runs(Step(s, run[0]), run[1..]))
  }

  function After(s: State, run: seq<Action>): State
    requires Runs(s, run)
    decreases |run|
  {
    if run == [] then s else After(Step(s, run[0]), run[1..])
  }

  ghost predicate Safe(s: State) {
    Sound(s) && Forward(s) && OpenedOnce(s)
  }

  lemma InitialIsSafe(cacheTtl: real, discoveryTtl: real)
    ensures Safe(Initial(cacheTtl, discoveryTtl))
  {
  }

  lemma SafeStep(s: State, a: Action)
    requires Safe(s) && Enabled(s, a)
    ensures Safe(Step(s, a)) && Grows(s.data, s.world, Step(s, a).data, Step(s, a).world)
    ensures s.history.evicted <= Step(s, a).history.evicted
  {
    SoundStep(s, a);
    ForwardStep(s, a);
    OpenedOnceStep(s, a);
  }

  /** Whatever the interleaving, the environment and the number of threads, a safe state stays safe. */
  lemma {:induction false} EveryRunIsSafe(s: State, run: seq<Action>)
    requires Safe(s) && Runs(s, run)
    ensures Safe(After(s, run))
    ensures Grows(s.data, s.world, After(s, run).data, After(s, run).world)
    ensures s.history.evicted <= After(s, run).history.evicted
    decreases |run|
  {
    if run != [] {
      SafeStep(s, run[0]);
      EveryRunIsSafe(Step(s, run[0]), run[1..]);
    }
  }

  /** At most one thread loads a dataset at a time, as long as its repo is not evicted. */
  lemma MutualExclusion(cacheTtl: real, discoveryTtl: real, run: seq<Action>, t: Tid, u: Tid, id: string)
    requires Runs(Initial(cacheTtl, discoveryTtl), run)
    requires var s := After(Initial(cacheTtl, discoveryTtl), run);
             && Owner(id) !in s.history.evicted
             && t in s.threads && InCriticalSection(s.threads[t].pc) && s.threads[t].request == Some(id)
             && u in s.threads && InCriticalSection(s.threads[u].pc) && s.threads[u].request == Some(id)
    ensures t == u
  {
    InitialIsSafe(cacheTtl, discoveryTtl);
    EveryRunIsSafe(Initial(cacheTtl, discoveryTtl), run);
    var s := After(Initial(cacheTtl, discoveryTtl), run);
    InsideHoldsTheLock(s, t, id);
    InsideHoldsTheLock(s, u, id);
  }

  /** With evictions, exclusion still holds among the threads that took their lock between two of them. */
  lemma MutualExclusionBetweenEvictions(cacheTtl: real, discoveryTtl: real, run: seq<Action>, t: Tid, u: Tid,
                                        id: string, generation: nat)
    requires Runs(Initial(cacheTtl, discoveryTtl), run)
    requires Inside(After(Initial(cacheTtl, discoveryTtl), run), t, id, generation)
    requires Inside(After(Initial(cacheTtl, discoveryTtl), run), u, id, generation)
    ensures t == u
  {
    InitialIsSafe(cacheTtl, discoveryTtl);
    EveryRunIsSafe(Initial(cacheTtl, discoveryTtl), run);
    OneThreadPerGeneration(After(Initial(cacheTtl, discoveryTtl), run), t, u, id, generation);
  }

  lemma HeldLocksExist(s: State)
    requires Sound(s)
    ensures forall l :: l in s.held.owners ==> l < |s.data.lockObjects|
  {
  }

  lemma AsksForNewLock(s: State, u: Tid, id: string, c: Choice)
    requires u in s.threads && s.threads[u] == Thread(Some(id), SetDefault) && id !in s.data.locks
    ensures Enabled(s, Run(u, c))
    ensures var s' := Step(s, Run(u, c));
            && s'.threads == s.threads[u := Thread(Some(id), AwaitDataset(|s.data.lockObjects|))]
            && s'.data.lockObjects == s.data.lockObjects + [(id, Generation(s.history, id))]
            && s'.held.owners == s.held.owners
  {
  }

  lemma EntersFreeLock(s: State, u: Tid, id: string, l: nat, c: Choice)
    requires u in s.threads && s.threads[u] == Thread(Some(id), AwaitDataset(l)) && l !in s.held.owners
    ensures Enabled(s, Run(u, c))
    ensures var s' := Step(s, Run(u, c));
            s'.threads == s.threads[u := Thread(Some(id), SlowGet(l))] && s'.data.lockObjects == s.data.lockObjects
  {
  }

  /**
   * Across an eviction exclusion fails: once the lock under which a thread is inside has been popped, the next
   * thread to ask for the dataset's lock makes a new one and gets in beside it.
   */
  lemma EvictionLetsASecondThreadIn(s: State, t: Tid, u: Tid, id: string, generation: nat, c: Choice)
    requires Sound(s) && Inside(s, t, id, generation) && id !in s.data.locks
    requires u in s.threads && s.threads[u] == Thread(Some(id), SetDefault)
    ensures t != u && Enabled(s, Run(u, c)) && Enabled(Step(s, Run(u, c)), Run(u, c))
    ensures var s' := Step(Step(s, Run(u, c)), Run(u, c));
            Inside(s', t, id, generation) && Inside(s', u, id, Generation(s.history, id))
  {
    var made := |s.data.lockObjects|;
    HeldLocksExist(s);
    AsksForNewLock(s, u, id, c);
    EntersFreeLock(Step(s, Run(u, c)), u, id, made, c);
  }

  lemma AsksForALock(s: State, u: Tid, id: string, c: Choice)
    requires u in s.threads && s.threads[u] == Thread(Some(id), SetDefault)
    ensures Enabled(s, Run(u, c)) && u in Step(s, Run(u, c)).threads
    ensures Step(s, Run(u, c)).threads[u].pc ==
            AwaitDataset(if id in s.data.locks then s.data.locks[id] else |s.data.lockObjects|)
    ensures Step(s, Run(u, c)).held.owners == s.held.owners
  {
  }

  lemma InsideOwnsItsLock(s: State, t: Tid, id: string, generation: nat)
    requires Sound(s) && Inside(s, t, id, generation)
    ensures var l := s.threads[t].pc.lock;
            && l in s.held.owners && s.held.owners[l] == t
            && (id in s.data.locks && s.data.locks[id] == l <==> generation == Generation(s.history, id))
  {
  }

  /**
   * In every reachable state, the next thread to ask for a dataset's lock waits for the thread that is inside exactly
   * when the lock has not been popped since that thread got it.
   */
  lemma NextAskerWaitsExactly(cacheTtl: real, discoveryTtl: real, run: seq<Action>, t: Tid, u: Tid, id: string,
                              generation: nat, c: Choice)
    requires Runs(Initial(cacheTtl, discoveryTtl), run)
    requires var s := After(Initial(cacheTtl, discoveryTtl), run);
             Inside(s, t, id, generation) && u in s.threads && s.threads[u] == Thread(Some(id), SetDefault)
    ensures var s := After(Initial(cacheTtl, discoveryTtl), run);
            Enabled(s, Run(u, c)) && u in Step(s, Run(u, c)).threads && Step(s, Run(u, c)).threads[u].pc.AwaitDataset?
    ensures var s := After(Initial(cacheTtl, discoveryTtl), run);
            var s' := Step(s, Run(u, c));
            var l := s'.threads[u].pc.lock;
            l in s'.held.owners && s'.held.owners[l] == t <==> generation == Generation(s.history, id)
  {
    var s := After(Initial(cacheTtl, discoveryTtl), run);
    InitialIsSafe(cacheTtl, discoveryTtl);
    EveryRunIsSafe(Initial(cacheTtl, discoveryTtl), run);
    InsideOwnsItsLock(s, t, id, generation);
    HeldLocksExist(s);
    AsksForALock(s, u, id, c);
    assert forall l :: l in s.held.owners && s.held.owners[l] == t ==> l == s.threads[t].pc.lock;
  }

  /**
   * Every tree a thread returns, and every cached one, is what loading its own snapshot for its own id gives,
   * and that snapshot was a tip of the id's repo; evictions included.
   */
  lemma TreesAreTheirSnapshots(cacheTtl: real, discoveryTtl: real, run: seq<Action>)
    requires Runs(Initial(cacheTtl, discoveryTtl), run)
    ensures var s := After(Initial(cacheTtl, discoveryTtl), run);
            forall id :: id in s.data.cache ==>
              s.data.cache[id] < |s.data.entries| &&
              var e := s.data.entries[s.data.cache[id]];
              e.tree == Tree(id, Owner(id), KindOf(id), e.snapshot) && e.snapshot in Tips(s.world, Owner(id))
    ensures var s := After(Initial(cacheTtl, discoveryTtl), run);
            forall t, id, tree :: t in s.threads && s.threads[t] == Thread(Some(id), Done(Served(tree))) ==>
              tree == Tree(id, Owner(id), KindOf(id), tree.snapshot) && tree.snapshot in Tips(s.world, Owner(id))
  {
    InitialIsSafe(cacheTtl, discoveryTtl);
    EveryRunIsSafe(Initial(cacheTtl, discoveryTtl), run);
    var s := After(Initial(cacheTtl, discoveryTtl), run);
    forall t | t in s.threads ensures ThreadOk(s.data, s.world, s.threads[t]) { }
  }

  /** Where in its repo's tips a cached dataset stands. */
  function Position(d: Fields, id: string): nat
    requires id in d.cache && d.cache[id] < |d.entries|
  {
    d.entries[d.cache[id]].pos
  }

  lemma StoreMovesForward(s: State, th: Thread, c: Choice)
    requires CanRun(s, th, c) && th.pc.Store? && ForwardThread(s.data, s.history, th)
    requires Owner(th.request.value) !in s.history.evicted
    requires th.request.value in s.data.cache && s.data.cache[th.request.value] < |s.data.entries|
    ensures var d, id := ServeData(s, th, c), th.request.value;
            id in d.cache && d.cache[id] < |d.entries| && Position(s.data, id) < Position(d, id)
  {
  }

  lemma LoadKeepsPosition(s: State, th: Thread, c: Choice, id: string)
    requires CanRun(s, th, c) && th.pc.Load? && id in s.data.cache && s.data.cache[id] < |s.data.entries|
    ensures var d := ServeData(s, th, c);
            id in d.cache && d.cache[id] < |d.entries| && Position(s.data, id) == Position(d, id)
  {
  }

  lemma StepMovesForward(s: State, a: Action, id: string)
    requires Safe(s) && Enabled(s, a) && Owner(id) !in Step(s, a).history.evicted
    requires id in s.data.cache && s.data.cache[id] < |s.data.entries|
    ensures var d := Step(s, a).data;
            id in d.cache && d.cache[id] < |d.entries| && Position(s.data, id) <= Position(d, id)
  {
    SoundStep(s, a);
    if a.Run? {
      var th := s.threads[a.t];
      assert ForwardThread(s.data, s.history, th);
      if th.request == Some(id) && th.pc.Load? {
        LoadKeepsPosition(s, th, a.choice, id);
      } else if th.request == Some(id) && th.pc.Store? {
        StoreMovesForward(s, th, a.choice);
      } else {
        OthersUntouched(s, a, id);
      }
    }
  }

  /** Until its repo is evicted, a dataset once cached stays cached, and its snapshot only moves forward. */
  lemma {:induction false} SnapshotsMoveForward(s: State, run: seq<Action>, id: string)
    requires Safe(s) && Runs(s, run) && Owner(id) !in After(s, run).history.evicted
    requires id in s.data.cache && s.data.cache[id] < |s.data.entries|
    ensures var d := After(s, run).data;
            id in d.cache && d.cache[id] < |d.entries| && Position(s.data, id) <= Position(d, id)
    decreases |run|
  {
    if run != [] {
      var s' := Step(s, run[0]);
      assert Safe(s') && Owner(id) !in s'.history.evicted by {
        SafeStep(s, run[0]);
        EveryRunIsSafe(s', run[1..]);
      }
      StepMovesForward(s, run[0], id);
      SnapshotsMoveForward(s', run[1..], id);
    }
  }

  lemma LatestEntryExists(s: State, id: string) returns (e: nat)
    requires Safe(s) && Owner(id) !in s.history.evicted && Loads(s.history, id) != []
    ensures e < |s.data.entries| && Latest(s.data, s.history, id, Some(e)) && s.data.entries[e].tree.id == id
  {
    assert ForwardId(s, id);
    if Latest(s.data, s.history, id, Cached(s.data, id)) {
      e := s.data.cache[id];
    } else {
      var t := s.held.owners[s.data.locks[id]];
      assert ForwardThread(s.data, s.history, s.threads[t]) && ThreadOk(s.data, s.world, s.threads[t]);
      e := s.threads[t].pc.made;
    }
  }

  lemma LoadsAreTips(s: State, id: string)
    requires Safe(s) && Owner(id) !in s.history.evicted
    ensures Increasing(Loads(s.history, id))
    ensures forall i :: 0 <= i < |Loads(s.history, id)| ==> Loads(s.history, id)[i] < |Tips(s.world, Owner(id))|
  {
    assert ForwardId(s, id);
    if Loads(s.history, id) != [] {
      var e := LatestEntryExists(s, id);
      assert EntryOk(s.world, s.data.entries[e]);
    }
  }

  /** If the tips of a repo that is not evicted never repeat, each of its snapshots is loaded at most once per dataset. */
  lemma LoadedAtMostOnce(cacheTtl: real, discoveryTtl: real, run: seq<Action>, id: string, i: nat, j: nat)
    requires Runs(Initial(cacheTtl, discoveryTtl), run)
    requires var s := After(Initial(cacheTtl, discoveryTtl), run);
             Owner(id) !in s.history.evicted && Distinct(Tips(s.world, Owner(id))) && i < j < |Loads(s.history, id)|
    ensures var s := After(Initial(cacheTtl, discoveryTtl), run);
            var tips, loads := Tips(s.world, Owner(id)), Loads(s.history, id);
            loads[i] < |tips| && loads[j] < |tips| && tips[loads[i]] != tips[loads[j]]
  {
    InitialIsSafe(cacheTtl, discoveryTtl);
    EveryRunIsSafe(Initial(cacheTtl, discoveryTtl), run);
    LoadsAreTips(After(Initial(cacheTtl, discoveryTtl), run), id);
  }

  /** A repo that is not evicted is opened at most once, however many threads race for it. */
  lemma ReposAreOpenedOnce(cacheTtl: real, discoveryTtl: real, run: seq<Action>, repo: string)
    requires Runs(Initial(cacheTtl, discoveryTtl), run)
    ensures var h := After(Initial(cacheTtl, discoveryTtl), run).history;
            h.openings[repo] <= 1 + h.closings[repo] && (repo !in h.evicted ==> h.openings[repo] <= 1)
  {
    InitialIsSafe(cacheTtl, discoveryTtl);
    EveryRunIsSafe(Initial(cacheTtl, discoveryTtl), run);
  }
}
