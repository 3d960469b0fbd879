/** A run of the provider's threads in which an eviction lets two of them into one dataset. */
module ProviderThreadsEviction {
  import opened Common
  import opened DatasetIds
  import opened ProviderThreads
  import opened ProviderThreadsRuns

  /** A property of states that every action keeps, such as being reached from a given state. */
  ghost predicate Kept(r: State -> bool) {
    forall s, a :: r(s) && Enabled(s, a) ==> r(Step(s, a))
  }

  /** The state with one thread's program counter and the locks changed. */
  function Put(s: State, t: Tid, request: Option<string>, pc: Pc, held: Held): State {
    s.(threads := s.threads[t := Thread(request, pc)], held := held)
  }

  const OK := Choice(true, [], "")

  // ----- Steps of one thread -----

  lemma Begins(r: State -> bool, s: State, t: Tid, q: Option<string>)
    requires Kept(r) && r(s) && t !in s.threads
    ensures r(Put(s, t, q, CheckFresh, s.held))
  {
    assert Step(s, Spawn(t, q)) == Put(s, t, q, CheckFresh, s.held);
  }

  lemma PutAgain(s: State, t: Tid, q: Option<string>, pc: Pc, h: Held, pc': Pc, h': Held)
    ensures Put(s, t, q, pc, h).threads[t := Thread(q, pc')] == Put(s, t, q, pc', h').threads
  {
  }

  lemma FindsStale(r: State -> bool, s: State, t: Tid, q: Option<string>, h: Held)
    requires Kept(r) && r(Put(s, t, q, CheckFresh, h)) && !ConfigsFresh(s.data, s.world)
    ensures r(Put(s, t, q, AwaitDiscovery, h))
  {
    PutAgain(s, t, q, CheckFresh, h, AwaitDiscovery, h);
    assert Step(Put(s, t, q, CheckFresh, h), Run(t, OK)) == Put(s, t, q, AwaitDiscovery, h);
  }

  lemma FindsFresh(r: State -> bool, s: State, t: Tid, q: Option<string>, h: Held)
    requires Kept(r) && r(Put(s, t, q, CheckFresh, h)) && ConfigsFresh(s.data, s.world)
    ensures r(Put(s, t, q, ReadConfigs, h))
  {
    PutAgain(s, t, q, CheckFresh, h, ReadConfigs, h);
    assert Step(Put(s, t, q, CheckFresh, h), Run(t, OK)) == Put(s, t, q, ReadConfigs, h);
  }

  lemma TakesDiscovery(r: State -> bool, s: State, t: Tid, q: Option<string>, h: Held)
    requires Kept(r) && r(Put(s, t, q, AwaitDiscovery, h)) && h.discovery.None?
    ensures r(Put(s, t, q, RecheckFresh, h.(discovery := Some(t))))
  {
    var h' := h.(discovery := Some(t));
    PutAgain(s, t, q, AwaitDiscovery, h, RecheckFresh, h');
    assert Step(Put(s, t, q, AwaitDiscovery, h), Run(t, OK)) == Put(s, t, q, RecheckFresh, h');
  }

  lemma StillStale(r: State -> bool, s: State, t: Tid, q: Option<string>, h: Held)
    requires Kept(r) && r(Put(s, t, q, RecheckFresh, h)) && h.discovery == Some(t) && !ConfigsFresh(s.data, s.world)
    ensures r(Put(s, t, q, ListRepos, h))
  {
    PutAgain(s, t, q, RecheckFresh, h, ListRepos, h);
    assert Step(Put(s, t, q, RecheckFresh, h), Run(t, OK)) == Put(s, t, q, ListRepos, h);
  }

  lemma Lists(r: State -> bool, s: State, t: Tid, q: Option<string>, h: Held, names: seq<string>)
    requires Kept(r) && r(Put(s, t, q, ListRepos, h)) && h.discovery == Some(t) && NamesOk(names)
    ensures var first := s.data.discoveredAt.None?;
            r(Put(s.(data := s.data.(discoveredAt := Some(s.world.now))), t, q, ReplaceConfigs(names, first), h))
  {
    var s' := s.(data := s.data.(discoveredAt := Some(s.world.now)));
    var pc := ReplaceConfigs(names, s.data.discoveredAt.None?);
    PutAgain(s, t, q, ListRepos, h, pc, h);
    assert Step(Put(s, t, q, ListRepos, h), Run(t, Choice(true, names, ""))) == Put(s', t, q, pc, h);
  }

  function Replaced(s: State, names: seq<string>): State {
    s.(data := s.data.(configs := names), history := s.history.(evicted := s.history.evicted + Removed(s.data, names)))
  }

  lemma ReplacesConfigs(r: State -> bool, s: State, t: Tid, q: Option<string>, h: Held, names: seq<string>, first: bool)
    requires Kept(r) && r(Put(s, t, q, ReplaceConfigs(names, first), h)) && h.discovery == Some(t)
    ensures r(Put(Replaced(s, names), t, q, AfterReplacing(s.data, names, first), h))
  {
    var s', pc := Replaced(s, names), AfterReplacing(s.data, names, first);
    PutAgain(s, t, q, ReplaceConfigs(names, first), h, pc, h);
    assert Step(Put(s, t, q, ReplaceConfigs(names, first), h), Run(t, OK)) == Put(s', t, q, pc, h);
  }

  /** The state after the callback has been called. */
  function Notified(s: State): State {
    s.(data := s.data.(callbacks := s.data.callbacks + [set n | n in s.data.configs]))
  }

  lemma Notifies(r: State -> bool, s: State, t: Tid, q: Option<string>, h: Held)
    requires Kept(r) && r(Put(s, t, q, Notify(true), h)) && h.discovery == Some(t)
    ensures r(Put(Notified(s), t, q, ReadConfigs, h.(discovery := None)))
  {
    var s', h' := Notified(s), h.(discovery := None);
    PutAgain(s, t, q, Notify(true), h, ReadConfigs, h');
    assert Step(Put(s, t, q, Notify(true), h), Run(t, OK)) == Put(s', t, q, ReadConfigs, h');
  }

  lemma FindsConfig(r: State -> bool, s: State, t: Tid, id: string, h: Held)
    requires Kept(r) && r(Put(s, t, Some(id), ReadConfigs, h))
    requires Resolve(s.data.configs, id).Some?
    ensures r(Put(s, t, Some(id), FastGet, h))
  {
    PutAgain(s, t, Some(id), ReadConfigs, h, FastGet, h);
    assert Step(Put(s, t, Some(id), ReadConfigs, h), Run(t, OK)) == Put(s, t, Some(id), FastGet, h);
  }

  lemma MissesCache(r: State -> bool, s: State, t: Tid, id: string, h: Held)
    requires Kept(r) && r(Put(s, t, Some(id), FastGet, h))
    requires id !in s.data.cache
    ensures r(Put(s, t, Some(id), AwaitCacheForLock, h))
  {
    PutAgain(s, t, Some(id), FastGet, h, AwaitCacheForLock, h);
    assert Step(Put(s, t, Some(id), FastGet, h), Run(t, OK)) == Put(s, t, Some(id), AwaitCacheForLock, h);
  }

  lemma TakesCacheMutex(r: State -> bool, s: State, t: Tid, id: string, h: Held)
    requires Kept(r) && r(Put(s, t, Some(id), AwaitCacheForLock, h))
    requires h.cacheMutex.None?
    ensures r(Put(s, t, Some(id), SetDefault, h.(cacheMutex := Some(t))))
  {
    var h' := h.(cacheMutex := Some(t));
    PutAgain(s, t, Some(id), AwaitCacheForLock, h, SetDefault, h');
    assert Step(Put(s, t, Some(id), AwaitCacheForLock, h), Run(t, OK)) == Put(s, t, Some(id), SetDefault, h');
  }

  /** The state with a new lock object for the id. */
  function NewLock(s: State, id: string): State {
    s.(data := s.data.(locks := s.data.locks[id := |s.data.lockObjects|],
                       lockObjects := s.data.lockObjects + [(id, Generation(s.history, id))]))
  }

  lemma SetDefaultSteps(s: State, t: Tid, id: string)
    requires t in s.threads && s.threads[t] == Thread(Some(id), SetDefault)
    requires id !in s.data.locks && s.held.cacheMutex == Some(t)
    ensures Enabled(s, Run(t, OK))
    ensures Step(s, Run(t, OK)).data == NewLock(s, id).data
    ensures Step(s, Run(t, OK)).held == s.held.(cacheMutex := None)
    ensures Step(s, Run(t, OK)).threads == s.threads[t := Thread(Some(id), AwaitDataset(|s.data.lockObjects|))]
    ensures Step(s, Run(t, OK)).world == s.world && Step(s, Run(t, OK)).history == s.history
  {
  }

  lemma MakesLock(r: State -> bool, s: State, t: Tid, id: string, h: Held)
    requires Kept(r) && r(Put(s, t, Some(id), SetDefault, h))
    requires id !in s.data.locks && h.cacheMutex == Some(t)
    ensures r(Put(NewLock(s, id), t, Some(id), AwaitDataset(|s.data.lockObjects|), h.(cacheMutex := None)))
  {
    var before, pc := Put(s, t, Some(id), SetDefault, h), AwaitDataset(|s.data.lockObjects|);
    SetDefaultSteps(before, t, id);
    PutAgain(s, t, Some(id), SetDefault, h, pc, h.(cacheMutex := None));
    assert Step(before, Run(t, OK)) == Put(NewLock(s, id), t, Some(id), pc, h.(cacheMutex := None));
  }

  lemma EntersDataset(r: State -> bool, s: State, t: Tid, id: string, h: Held, l: nat)
    requires Kept(r) && r(Put(s, t, Some(id), AwaitDataset(l), h))
    requires l !in h.owners
    ensures r(Put(s, t, Some(id), SlowGet(l), h.(owners := h.owners[l := t])))
  {
    var h' := h.(owners := h.owners[l := t]);
    PutAgain(s, t, Some(id), AwaitDataset(l), h, SlowGet(l), h');
    assert Step(Put(s, t, Some(id), AwaitDataset(l), h), Run(t, OK)) == Put(s, t, Some(id), SlowGet(l), h');
  }

  lemma TakesMutex(r: State -> bool, s: State, t: Tid, q: Option<string>, h: Held, removed: set<string>)
    requires Kept(r) && r(Put(s, t, q, AwaitRepos(removed), h))
    requires h.discovery == Some(t) && h.mutex.None?
    ensures r(Put(s, t, q, PopRepos(removed, removed), h.(mutex := Some(t))))
  {
    var h' := h.(mutex := Some(t));
    PutAgain(s, t, q, AwaitRepos(removed), h, PopRepos(removed, removed), h');
    assert Step(Put(s, t, q, AwaitRepos(removed), h), Run(t, OK)) == Put(s, t, q, PopRepos(removed, removed), h');
  }

  lemma PopsRepo(r: State -> bool, s: State, t: Tid, q: Option<string>, h: Held,
                 removed: set<string>, rest: set<string>, repo: string)
    requires Kept(r) && r(Put(s, t, q, PopRepos(removed, rest), h))
    requires h.discovery == Some(t) && h.mutex == Some(t) && repo in rest && repo !in s.data.repos
    ensures r(Put(s.(data := s.data.(repos := s.data.repos - {repo})), t, q, PopRepos(removed, rest - {repo}), h))
  {
    var s' := s.(data := s.data.(repos := s.data.repos - {repo}));
    PutAgain(s, t, q, PopRepos(removed, rest), h, PopRepos(removed, rest - {repo}), h);
    assert Step(Put(s, t, q, PopRepos(removed, rest), h), Run(t, Choice(true, [], repo))) ==
           Put(s', t, q, PopRepos(removed, rest - {repo}), h);
  }

  lemma DropsMutex(r: State -> bool, s: State, t: Tid, q: Option<string>, h: Held, removed: set<string>)
    requires Kept(r) && r(Put(s, t, q, PopRepos(removed, {}), h))
    requires h.discovery == Some(t) && h.mutex == Some(t)
    ensures r(Put(s, t, q, AwaitCache(removed), h.(mutex := None)))
  {
    var h' := h.(mutex := None);
    PutAgain(s, t, q, PopRepos(removed, {}), h, AwaitCache(removed), h');
    assert Step(Put(s, t, q, PopRepos(removed, {}), h), Run(t, OK)) == Put(s, t, q, AwaitCache(removed), h');
  }

  lemma TakesCache(r: State -> bool, s: State, t: Tid, q: Option<string>, h: Held, removed: set<string>)
    requires Kept(r) && r(Put(s, t, q, AwaitCache(removed), h))
    requires h.discovery == Some(t) && h.cacheMutex.None?
    ensures r(Put(s, t, q, PopEntry(IdsOf(removed)), h.(cacheMutex := Some(t))))
  {
    var h' := h.(cacheMutex := Some(t));
    PutAgain(s, t, q, AwaitCache(removed), h, PopEntry(IdsOf(removed)), h');
    assert Step(Put(s, t, q, AwaitCache(removed), h), Run(t, OK)) == Put(s, t, q, PopEntry(IdsOf(removed)), h');
  }

  lemma PopsEntry(r: State -> bool, s: State, t: Tid, q: Option<string>, h: Held, ids: set<string>, id: string)
    requires Kept(r) && r(Put(s, t, q, PopEntry(ids), h))
    requires h.discovery == Some(t) && h.cacheMutex == Some(t) && id in ids
    ensures r(Put(s.(data := s.data.(cache := s.data.cache - {id})), t, q, PopLock(id, ids - {id}), h))
  {
    var s' := s.(data := s.data.(cache := s.data.cache - {id}));
    PutAgain(s, t, q, PopEntry(ids), h, PopLock(id, ids - {id}), h);
    assert Step(Put(s, t, q, PopEntry(ids), h), Run(t, Choice(true, [], id))) == Put(s', t, q, PopLock(id, ids - {id}), h);
  }

  /** The state with the lock of an id popped. */
  function Unlocked(s: State, id: string): State {
    s.(data := s.data.(locks := s.data.locks - {id}),
       history := s.history.(generation := s.history.generation[id := Generation(s.history, id) + 1]))
  }

  lemma PopsLock(r: State -> bool, s: State, t: Tid, q: Option<string>, h: Held, id: string, ids: set<string>)
    requires Kept(r) && r(Put(s, t, q, PopLock(id, ids), h))
    requires h.discovery == Some(t) && h.cacheMutex == Some(t)
    ensures r(Put(Unlocked(s, id), t, q, PopEntry(ids), h))
  {
    var s' := Unlocked(s, id);
    PutAgain(s, t, q, PopLock(id, ids), h, PopEntry(ids), h);
    assert Step(Put(s, t, q, PopLock(id, ids), h), Run(t, OK)) == Put(s', t, q, PopEntry(ids), h);
  }

  lemma DropsCache(r: State -> bool, s: State, t: Tid, q: Option<string>, h: Held)
    requires Kept(r) && r(Put(s, t, q, PopEntry({}), h))
    requires h.discovery == Some(t) && h.cacheMutex == Some(t)
    ensures r(Put(s, t, q, Notify(true), h.(cacheMutex := None)))
  {
    var h' := h.(cacheMutex := None);
    PutAgain(s, t, q, PopEntry({}), h, Notify(true), h');
    assert Step(Put(s, t, q, PopEntry({}), h), Run(t, OK)) == Put(s, t, q, Notify(true), h');
  }

  lemma Waits(r: State -> bool, s: State, elapsed: real)
    requires Kept(r) && r(s) && elapsed >= 0.0
    ensures r(s.(world := s.world.(now := s.world.now + elapsed)))
  {
    assert Step(s, Tick(elapsed)) == s.(world := s.world.(now := s.world.now + elapsed));
  }

  // ----- Stretches of one thread -----

  /** A thread that finds the configs stale lists the repos. */
  lemma Relists(r: State -> bool, s: State, t: Tid, q: Option<string>, names: seq<string>)
    requires Kept(r) && r(s) && t !in s.threads && s.held.discovery.None?
    requires !ConfigsFresh(s.data, s.world) && NamesOk(names)
    ensures var s' := s.(data := s.data.(discoveredAt := Some(s.world.now)));
            r(Put(Replaced(s', names), t, q, AfterReplacing(s.data, names, s.data.discoveredAt.None?),
                  s.held.(discovery := Some(t))))
  {
    var h := s.held.(discovery := Some(t));
    Begins(r, s, t, q);
    FindsStale(r, s, t, q, s.held);
    TakesDiscovery(r, s, t, q, s.held);
    StillStale(r, s, t, q, h);
    Lists(r, s, t, q, h, names);
    ReplacesConfigs(r, s.(data := s.data.(discoveredAt := Some(s.world.now))), t, q, h, names, s.data.discoveredAt.None?);
  }

  /** A thread that has read the configs finds nothing cached, and waits for the lock of the dataset locks. */
  lemma AsksForLock(r: State -> bool, s: State, t: Tid, id: string, h: Held)
    requires Kept(r) && r(Put(s, t, Some(id), ReadConfigs, h))
    requires Resolve(s.data.configs, id).Some? && id !in s.data.cache
    ensures r(Put(s, t, Some(id), AwaitCacheForLock, h))
  {
    FindsConfig(r, s, t, id, h);
    MissesCache(r, s, t, id, h);
  }

  /** It makes the dataset's lock and enters the critical section. */
  lemma Enters(r: State -> bool, s: State, t: Tid, id: string, h: Held)
    requires Kept(r) && r(Put(s, t, Some(id), AwaitCacheForLock, h)) && h.cacheMutex.None?
    requires id !in s.data.locks && |s.data.lockObjects| !in h.owners
    ensures r(Put(NewLock(s, id), t, Some(id), SlowGet(|s.data.lockObjects|),
                  h.(owners := h.owners[|s.data.lockObjects| := t])))
  {
    var locked := h.(cacheMutex := Some(t));
    TakesCacheMutex(r, s, t, id, h);
    MakesLock(r, s, t, id, locked);
    assert locked.(cacheMutex := None) == h;
    EntersDataset(r, NewLock(s, id), t, id, h, |s.data.lockObjects|);
  }

  /** A thread that has to evict one repo, which is not open, pops the locks of both its ids. */
  lemma Evicts(r: State -> bool, s: State, t: Tid, q: Option<string>, h: Held, repo: string)
    requires Kept(r) && r(Put(s, t, q, AwaitRepos({repo}), h)) && h.discovery == Some(t)
    requires h.mutex.None? && h.cacheMutex.None? && repo !in s.data.repos && repo !in s.data.cache
    requires DataId(repo) !in s.data.cache
    ensures r(Put(Unlocked(Unlocked(s, repo), DataId(repo)), t, q, Notify(true), h))
  {
    var removed := {repo};
    var inRepos, inCache := h.(mutex := Some(t)), h.(cacheMutex := Some(t));
    TakesMutex(r, s, t, q, h, removed);
    PopsRepo(r, s, t, q, inRepos, removed, removed, repo);
    assert s.(data := s.data.(repos := s.data.repos - {repo})) == s && removed - {repo} == {};
    DropsMutex(r, s, t, q, inRepos, removed);
    assert inRepos.(mutex := None) == h;
    TakesCache(r, s, t, q, h, removed);
    assert IdsOf(removed) == {repo, DataId(repo)};
    PopsBoth(r, s, t, q, inCache, repo);
    DropsCache(r, Unlocked(Unlocked(s, repo), DataId(repo)), t, q, inCache);
    assert inCache.(cacheMutex := None) == h;
  }

  lemma PopsBoth(r: State -> bool, s: State, t: Tid, q: Option<string>, h: Held, repo: string)
    requires Kept(r) && r(Put(s, t, q, PopEntry({repo, DataId(repo)}), h))
    requires h.discovery == Some(t) && h.cacheMutex == Some(t) && repo !in s.data.cache && DataId(repo) !in s.data.cache
    ensures r(Put(Unlocked(Unlocked(s, repo), DataId(repo)), t, q, PopEntry({}), h))
  {
    var other := DataId(repo);
    var u := Unlocked(s, repo);
    PopsEntry(r, s, t, q, h, {repo, other}, repo);
    assert s.(data := s.data.(cache := s.data.cache - {repo})) == s && {repo, other} - {repo} == {other};
    PopsLock(r, s, t, q, h, repo, {other});
    PopsEntry(r, u, t, q, h, {other}, other);
    assert u.(data := u.data.(cache := u.data.cache - {other})) == u && {other} - {other} == {};
    PopsLock(r, u, t, q, h, other, {});
  }

  // ----- The run -----

  /** Thread 0 is inside the dataset of a repo and thread 1 waits to ask for its lock. */
  ghost predicate OneInside(s: State, repo: string) {
    && s.threads == map[0 := Thread(Some(repo), SlowGet(0)), 1 := Thread(Some(repo), AwaitCacheForLock)]
    && s.data == Fields([repo], Some(s.world.now), {}, map[], map[repo := 0], [{repo}], [], [(repo, 0)])
    && s.held == Held(None, None, None, map[0 := 0]) && s.history.generation == map[]
  }

  lemma FirstGetsInside(r: State -> bool, s: State, repo: string) returns (s': State)
    requires Kept(r) && r(s) && s == Initial(s.world.cacheTtl, s.world.discoveryTtl) && s.world.discoveryTtl > 0.0
    requires NamesOk([repo])
    ensures r(s') && OneInside(s', repo) && s'.world == s.world
  {
    var q, discovering := Some(repo), s.held.(discovery := Some(0));
    Relists(r, s, 0, q, [repo]);
    var listed := Replaced(s.(data := s.data.(discoveredAt := Some(s.world.now))), [repo]);
    assert Removed(s.data, [repo]) == {};
    Notifies(r, listed, 0, q, discovering);
    assert discovering.(discovery := None) == s.held;
    var told := Notified(listed);
    AsksForLock(r, told, 0, repo, s.held);
    Enters(r, told, 0, repo, s.held);
    assert (set n | n in [repo]) == {repo};
    var inside := Put(NewLock(told, repo), 0, q, SlowGet(0), s.held.(owners := s.held.owners[0 := 0]));
    Begins(r, inside, 1, q);
    FindsFresh(r, inside, 1, q, inside.held);
    AsksForLock(r, inside, 1, repo, inside.held);
    s' := Put(inside, 1, q, AwaitCacheForLock, inside.held);
  }

  /** The lock thread 0 is inside under has been popped; thread 1 still waits to ask for it. */
  ghost predicate LockPopped(s: State, repo: string) {
    && 0 in s.threads && s.threads[0] == Thread(Some(repo), SlowGet(0))
    && 1 in s.threads && s.threads[1] == Thread(Some(repo), AwaitCacheForLock)
    && s.data.lockObjects == [(repo, 0)] && repo !in s.data.locks
    && s.held.cacheMutex.None? && s.held.owners == map[0 := 0] && Generation(s.history, repo) == 1
  }

  /** Nothing is configured, opened or cached, and thread 2 is about to call the callback. */
  ghost predicate Emptied(s: State) {
    && s.data.configs == [] && s.data.repos == {} && s.data.cache == map[]
    && s.held.mutex.None? && 2 in s.threads && s.threads[2] == Thread(None, Notify(true))
  }

  lemma ThirdEvicts(r: State -> bool, s: State, repo: string) returns (s': State)
    requires Kept(r) && r(s) && OneInside(s, repo) && s.world.discoveryTtl > 0.0 && NamesOk([repo])
    ensures r(s') && LockPopped(s', repo) && Emptied(s')
  {
    Waits(r, s, s.world.discoveryTtl);
    var later := s.(world := s.world.(now := s.world.now + s.world.discoveryTtl));
    var discovering := later.held.(discovery := Some(2));
    assert Removed(later.data, []) == {repo};
    Relists(r, later, 2, None, []);
    var listed := Replaced(later.(data := later.data.(discoveredAt := Some(later.world.now))), []);
    Evicts(r, listed, 2, None, discovering, repo);
    assert DataId(repo) != repo;
    s' := Put(Unlocked(Unlocked(listed, repo), DataId(repo)), 2, None, Notify(true), discovering);
  }

  /** Thread 1 makes a new lock for the dataset, and both threads are inside. */
  lemma SecondGetsInside(r: State -> bool, s: State, repo: string) returns (asking: State, both: State)
    requires Kept(r) && r(s) && LockPopped(s, repo)
    ensures r(asking) && Inside(asking, 0, repo, 0) && repo !in asking.data.locks
    ensures 1 in asking.threads && asking.threads[1] == Thread(Some(repo), SetDefault)
    ensures r(both) && Inside(both, 0, repo, 0) && Inside(both, 1, repo, 1)
  {
    assert Put(s, 1, Some(repo), AwaitCacheForLock, s.held) == s by {
      assert s.threads[1 := s.threads[1]] == s.threads;
    }
    TakesCacheMutex(r, s, 1, repo, s.held);
    asking := Put(s, 1, Some(repo), SetDefault, s.held.(cacheMutex := Some(1)));
    Enters(r, s, 1, repo, s.held);
    both := Put(NewLock(s, repo), 1, Some(repo), SlowGet(1), s.held.(owners := s.held.owners[1 := 1]));
  }

  ghost predicate Reaches(s0: State, s: State) {
    exists run :: Runs(s0, run) && After(s0, run) == s
  }

  lemma {:induction false} RunsThen(s: State, run: seq<Action>, a: Action)
    requires Runs(s, run) && Enabled(After(s, run), a)
    ensures Runs(s, run + [a]) && After(s, run + [a]) == Step(After(s, run), a)
    decreases |run|
  {
    if run != [] {
      RunsThen(Step(s, run[0]), run[1..], a);
      assert (run + [a])[1..] == run[1..] + [a];
    } else {
      assert run + [a] == [a] && [a][1..] == [];
    }
  }

  lemma ReachesKept(s0: State)
    ensures Kept(s => Reaches(s0, s)) && Reaches(s0, s0)
  {
    forall s, a | Reaches(s0, s) && Enabled(s, a) ensures Reaches(s0, Step(s, a)) {
      var run :| Runs(s0, run) && After(s0, run) == s;
      RunsThen(s0, run, a);
    }
    assert Runs(s0, []) && After(s0, []) == s0;
  }

  /**
   * For every repo and every pair of TTLs there is a run from the start that gets to where `EvictionLetsASecondThreadIn`
   * begins, and on to two threads inside one dataset: one thread enters, a second reads the configs, a third finds them
   * stale, lists nothing and evicts the repo, and the second makes a new lock.
   */
  lemma EvictionBreaksExclusion(cacheTtl: real, discoveryTtl: real, repo: string) returns (asking: State, both: State)
    requires discoveryTtl > 0.0 && !EndsWith(repo, DATA_SUFFIX)
    ensures Reaches(Initial(cacheTtl, discoveryTtl), asking) && Inside(asking, 0, repo, 0)
    ensures repo !in asking.data.locks && 1 in asking.threads && asking.threads[1] == Thread(Some(repo), SetDefault)
    ensures Reaches(Initial(cacheTtl, discoveryTtl), both) && Inside(both, 0, repo, 0) && Inside(both, 1, repo, 1)
  {
    var s0 := Initial(cacheTtl, discoveryTtl);
    ReachesKept(s0);
    var entered := FirstGetsInside(s => Reaches(s0, s), s0, repo);
    var popped := ThirdEvicts(s => Reaches(s0, s), entered, repo);
    asking, both := SecondGetsInside(s => Reaches(s0, s), popped, repo);
  }
}
