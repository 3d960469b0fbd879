/** Exactly when the provider's threads leave something of a repo that is not configured. */
module ProviderThreadsLeftovers {
  import opened Common
  import opened DatasetIds
  import opened ProviderThreads
  import opened ProviderThreadsRuns
  import opened ProviderThreadsFreshness
  import opened ProviderThreadsEviction

  /** What an eviction drops: opened repos and cached datasets. */
  datatype Item = OpenedRepo(repo: string) | CachedDataset(id: string) {
    function Name(): string {
      match this
      case OpenedRepo(repo) => repo
      case CachedDataset(id) => Owner(id)
    }
  }

  predicate Present(d: Fields, item: Item) {
    match item
    case OpenedRepo(repo) => repo in d.repos
    case CachedDataset(id) => id in d.cache
  }

  /** The item is there although its repo is not configured. */
  predicate LeftOver(s: State, item: Item) {
    Present(s.data, item) && item.Name() !in s.data.configs
  }

  // ----- What actions do to an item -----

  /** A thread opens the repo or caches the dataset. */
  predicate Adds(s: State, a: Action, item: Item) {
    a.Run? && a.t in s.threads &&
    var th := s.threads[a.t];
    match item
    case OpenedRepo(repo) => th.pc.OpenRecheck? && a.choice.ok && th.request.Some? && Owner(th.request.value) == repo
    case CachedDataset(id) => th.pc.Store? && th.request == Some(id)
  }

  /** A thread that evicts pops the item. */
  predicate Drops(s: State, a: Action, item: Item) {
    a.Run? && a.t in s.threads &&
    match item
    case OpenedRepo(repo) => s.threads[a.t].pc.PopRepos? && s.threads[a.t].pc.rest != {} && a.choice.pick == repo
    case CachedDataset(id) => s.threads[a.t].pc.PopEntry? && s.threads[a.t].pc.ids != {} && a.choice.pick == id
  }

  /** A new list with the item's repo replaces the configs. */
  predicate Lists(s: State, a: Action, item: Item) {
    a.Run? && a.t in s.threads && s.threads[a.t].pc.ReplaceConfigs? && item.Name() in s.threads[a.t].pc.names
  }

  /** A thread at this point is yet to pop the item. */
  predicate ToPop(pc: Pc, item: Item) {
    match item
    case OpenedRepo(repo) => (pc.AwaitRepos? && repo in pc.removed) || (pc.PopRepos? && repo in pc.rest)
    case CachedDataset(id) =>
      || ((pc.AwaitRepos? || pc.PopRepos? || pc.AwaitCache?) && id in IdsOf(pc.removed))
      || ((pc.PopEntry? || pc.PopLock?) && id in pc.ids)
  }

  ghost predicate BeingEvicted(s: State, item: Item) {
    exists t :: t in s.threads && ToPop(s.threads[t].pc, item)
  }

  lemma OwnedIdIsEvicted(id: string, names: set<string>)
    requires Owner(id) in names
    ensures id in IdsOf(names)
  {
    if EndsWith(id, DATA_SUFFIX) { assert id == DataId(Owner(id)); }
  }

  lemma RefreshLeaves(s: State, a: Action, item: Item)
    requires Enabled(s, a) && a.Run? && Refreshing(s.threads[a.t].pc) && LeftOver(Step(s, a), item)
    ensures !Drops(s, a, item) && !Lists(s, a, item)
    ensures LeftOver(s, item) || ToPop(Step(s, a).threads[a.t].pc, item)
  {
    var pc := s.threads[a.t].pc;
    if pc.ReplaceConfigs? && item.Name() in s.data.configs {
      assert item.Name() in Removed(s.data, pc.names);
      if item.CachedDataset? { OwnedIdIsEvicted(item.id, Removed(s.data, pc.names)); }
    }
  }

  lemma ServeLeaves(s: State, a: Action, item: Item)
    requires Enabled(s, a) && a.Run? && Serving(s.threads[a.t].pc) && LeftOver(Step(s, a), item)
    ensures Adds(s, a, item) || LeftOver(s, item)
    ensures item.Name() !in s.data.configs
    ensures !Drops(s, a, item) && !Lists(s, a, item)
  {
  }

  /** What is left over was so before, or is added late, or is yet to be popped. */
  lemma LeftOverComesFrom(s: State, a: Action, item: Item)
    requires Enabled(s, a) && LeftOver(Step(s, a), item) && !BeingEvicted(Step(s, a), item)
    ensures (Adds(s, a, item) && item.Name() !in s.data.configs) ||
            (LeftOver(s, item) && !Drops(s, a, item) && !Lists(s, a, item))
  {
    if a.Run? {
      if Refreshing(s.threads[a.t].pc) { RefreshLeaves(s, a, item); } else { ServeLeaves(s, a, item); }
    }
  }

  lemma LeftOverStays(s: State, a: Action, item: Item)
    requires Enabled(s, a) && item.Name() !in s.data.configs && (LeftOver(s, item) || Adds(s, a, item))
    requires !Drops(s, a, item) && !Lists(s, a, item)
    ensures LeftOver(Step(s, a), item)
  {
  }

  lemma EvictionGoesOn(s: State, a: Action, item: Item)
    requires Enabled(s, a) && BeingEvicted(s, item) && !Drops(s, a, item)
    ensures BeingEvicted(Step(s, a), item)
  {
    var t :| t in s.threads && ToPop(s.threads[t].pc, item);
    assert t in Step(s, a).threads && ToPop(Step(s, a).threads[t].pc, item);
  }

  // ----- Runs -----

  /** From the n-th action on, the item is neither popped nor its repo listed. */
  ghost predicate LeftAlone(s: State, run: seq<Action>, n: nat, item: Item)
    requires Runs(s, run)
  {
    forall m :: n <= m < |run| ==>
      !Drops(StateAt(s, run, m), run[m], item) && !Lists(StateAt(s, run, m), run[m], item)
  }

  /** The n-th action adds the item while its repo is not configured, and nothing takes it away or lists it later. */
  ghost predicate AddedLate(s: State, run: seq<Action>, n: nat, item: Item)
    requires Runs(s, run) && n < |run|
  {
    && Adds(StateAt(s, run, n), run[n], item) && item.Name() !in StateAt(s, run, n).data.configs
    && LeftAlone(s, run, n + 1, item)
  }

  lemma LeftAloneLater(s: State, run: seq<Action>, n: nat, item: Item)
    requires Runs(s, run) && run != []
    ensures LeftAlone(s, run, n + 1, item) <==> LeftAlone(Step(s, run[0]), run[1..], n, item)
  {
    var s', rest := Step(s, run[0]), run[1..];
    assert forall m :: 0 <= m < |rest| ==> rest[m] == run[m + 1] && StateAt(s', rest, m) == StateAt(s, run, m + 1);
    if LeftAlone(s', rest, n, item) {
      forall m | n + 1 <= m < |run|
        ensures !Drops(StateAt(s, run, m), run[m], item) && !Lists(StateAt(s, run, m), run[m], item)
      {
        assert rest[m - 1] == run[m] && StateAt(s', rest, m - 1) == StateAt(s, run, m);
      }
    }
  }

  lemma LeftAloneNow(s: State, run: seq<Action>, item: Item)
    requires Runs(s, run) && run != []
    ensures LeftAlone(s, run, 0, item) <==>
            !Drops(s, run[0], item) && !Lists(s, run[0], item) && LeftAlone(s, run, 1, item)
  {
    assert StateAt(s, run, 0) == s;
  }

  lemma AddedLater(s: State, run: seq<Action>, n: nat, item: Item)
    requires Runs(s, run) && run != [] && n < |run| - 1
    ensures AddedLate(s, run, n + 1, item) <==> AddedLate(Step(s, run[0]), run[1..], n, item)
  {
    LeftAloneLater(s, run, n + 1, item);
  }

  lemma {:induction false} EvictionDrops(s: State, run: seq<Action>, item: Item)
    requires Runs(s, run) && BeingEvicted(s, item) && LeftAlone(s, run, 0, item)
    ensures BeingEvicted(After(s, run), item)
    decreases |run|
  {
    if run != [] {
      LeftAloneNow(s, run, item);
      LeftAloneLater(s, run, 0, item);
      EvictionGoesOn(s, run[0], item);
      EvictionDrops(Step(s, run[0]), run[1..], item);
    }
  }

  lemma FirstStepLeaves(s: State, run: seq<Action>, item: Item)
    requires Runs(s, run) && run != [] && !BeingEvicted(After(s, run), item)
    requires LeftOver(Step(s, run[0]), item) && LeftAlone(Step(s, run[0]), run[1..], 0, item)
    ensures (LeftOver(s, item) && LeftAlone(s, run, 0, item)) || AddedLate(s, run, 0, item)
  {
    if BeingEvicted(Step(s, run[0]), item) { EvictionDrops(Step(s, run[0]), run[1..], item); }
    LeftOverComesFrom(s, run[0], item);
    LeftAloneLater(s, run, 0, item);
    LeftAloneNow(s, run, item);
  }

  lemma {:induction false} LeftOverHasCause(s: State, run: seq<Action>, item: Item) returns (n: nat)
    requires Runs(s, run) && LeftOver(After(s, run), item) && !BeingEvicted(After(s, run), item)
    ensures (LeftOver(s, item) && LeftAlone(s, run, 0, item)) || (n < |run| && AddedLate(s, run, n, item))
    decreases |run|
  {
    n := 0;
    if run != [] {
      var s', rest := Step(s, run[0]), run[1..];
      var k := LeftOverHasCause(s', rest, item);
      if LeftOver(s', item) && LeftAlone(s', rest, 0, item) {
        FirstStepLeaves(s, run, item);
      } else {
        AddedLater(s, run, k, item);
        n := k + 1;
      }
    }
  }

  lemma {:induction false} LeftOverRemains(s: State, run: seq<Action>, item: Item)
    requires Runs(s, run) && LeftOver(s, item) && LeftAlone(s, run, 0, item)
    ensures LeftOver(After(s, run), item)
    decreases |run|
  {
    if run != [] {
      LeftAloneNow(s, run, item);
      LeftAloneLater(s, run, 0, item);
      LeftOverStays(s, run[0], item);
      LeftOverRemains(Step(s, run[0]), run[1..], item);
    }
  }

  lemma {:induction false} AddedLateRemains(s: State, run: seq<Action>, n: nat, item: Item)
    requires Runs(s, run) && n < |run| && AddedLate(s, run, n, item)
    ensures LeftOver(After(s, run), item)
    decreases |run|
  {
    if n == 0 {
      LeftAloneLater(s, run, 0, item);
      AddsNothingElse(s, run[0], item);
      LeftOverStays(s, run[0], item);
      LeftOverRemains(Step(s, run[0]), run[1..], item);
    } else {
      AddedLater(s, run, n - 1, item);
      AddedLateRemains(Step(s, run[0]), run[1..], n - 1, item);
    }
  }

  lemma AddsNothingElse(s: State, a: Action, item: Item)
    requires Adds(s, a, item)
    ensures !Drops(s, a, item) && !Lists(s, a, item)
  {
  }

  /**
   * Over every run, when an item is not being evicted, it is left over exactly when some thread opened the repo or
   * cached the dataset while the repo was not configured, and it has neither been popped nor its repo listed since.
   */
  lemma LeftOverExactly(cacheTtl: real, discoveryTtl: real, run: seq<Action>, item: Item)
    requires Runs(Initial(cacheTtl, discoveryTtl), run)
    requires !BeingEvicted(After(Initial(cacheTtl, discoveryTtl), run), item)
    ensures LeftOver(After(Initial(cacheTtl, discoveryTtl), run), item) <==>
            exists n :: 0 <= n < |run| && AddedLate(Initial(cacheTtl, discoveryTtl), run, n, item)
  {
    var s := Initial(cacheTtl, discoveryTtl);
    if LeftOver(After(s, run), item) {
      var n := LeftOverHasCause(s, run, item);
    } else if n :| 0 <= n < |run| && AddedLate(s, run, n, item) {
      AddedLateRemains(s, run, n, item);
    }
  }

  /** Nothing is being evicted while no thread holds the discovery lock. */
  lemma NoEvictionUnlocked(s: State, item: Item)
    requires Sound(s) && s.held.discovery.None?
    ensures !BeingEvicted(s, item)
  {
  }

  // ----- A run that leaves an opened repo and a cached dataset -----

  /** Thread 0 is at the given point of serving a repo that is not configured; nothing is being evicted. */
  ghost predicate Late(s: State, repo: string, pc: Pc) {
    && 0 in s.threads && s.threads[0] == Thread(Some(repo), pc)
    && s.data.configs == [] && s.held.mutex.None? && s.held.discovery.None? && Tips(s.world, repo) != []
  }

  lemma GoesOn(r: State -> bool, s: State, a: Action)
    requires Kept(r) && r(s) && Enabled(s, a)
    ensures r(Step(s, a))
  {
  }

  /** The tip moves and the callback is called, after which thread 0 is late. */
  lemma BecomesLate(r: State -> bool, s: State, repo: string, tip: string) returns (s': State)
    requires Kept(r) && r(s) && LockPopped(s, repo) && Emptied(s)
    ensures r(s') && Late(s', repo, SlowGet(0)) && s'.data.repos == {} && s'.data.cache == map[]
  {
    var moved := Step(s, MoveTip(repo, tip));
    GoesOn(r, s, MoveTip(repo, tip));
    s' := Step(moved, Run(2, OK));
    GoesOn(r, moved, Run(2, OK));
  }

  lemma FindsNothing(r: State -> bool, s: State, repo: string) returns (s': State)
    requires Kept(r) && r(s) && Late(s, repo, SlowGet(0)) && repo !in s.data.cache
    ensures r(s') && Late(s', repo, OpenCheck(0, None)) && s'.data.repos == s.data.repos
  {
    var s1 := Step(s, Run(0, OK));
    GoesOn(r, s, Run(0, OK));
    assert Late(s1, repo, SlowCheck(0, None));
    s' := Step(s1, Run(0, OK));
    GoesOn(r, s1, Run(0, OK));
  }

  lemma WaitsToOpen(r: State -> bool, s: State, repo: string) returns (s': State)
    requires Kept(r) && r(s) && Late(s, repo, OpenCheck(0, None)) && Owner(repo) == repo && repo !in s.data.repos
    ensures r(s') && Late(s', repo, AwaitOpen(0, None))
  {
    s' := Step(s, Run(0, OK));
    GoesOn(r, s, Run(0, OK));
  }

  /** Thread 0 holds `_lock` and is about to open the repo. */
  ghost predicate Opening(s: State, repo: string) {
    && 0 in s.threads && s.threads[0] == Thread(Some(repo), OpenRecheck(0, None))
    && s.data.configs == [] && s.held.discovery.None? && Tips(s.world, repo) != []
  }

  lemma TakesLockLate(r: State -> bool, s: State, repo: string) returns (s': State)
    requires Kept(r) && r(s) && Late(s, repo, AwaitOpen(0, None))
    ensures r(s') && Opening(s', repo)
  {
    s' := Step(s, Run(0, OK));
    GoesOn(r, s, Run(0, OK));
  }

  lemma OpensLate(r: State -> bool, s: State, repo: string) returns (s': State)
    requires Kept(r) && r(s) && Opening(s, repo) && Owner(repo) == repo
    ensures r(s') && Late(s', repo, GetRepo(0, None)) && repo in s'.data.repos
  {
    s' := Step(s, Run(0, OK));
    GoesOn(r, s, Run(0, OK));
  }

  lemma LooksUpLate(r: State -> bool, s: State, repo: string) returns (s': State)
    requires Kept(r) && r(s) && Late(s, repo, GetRepo(0, None)) && Owner(repo) == repo && repo in s.data.repos
    ensures r(s') && s'.data.repos == s.data.repos
    ensures var tips := Tips(s.world, repo); Late(s', repo, Load(0, None, Last(tips), |tips| - 1))
  {
    var s1 := Step(s, Run(0, OK));
    GoesOn(r, s, Run(0, OK));
    assert Late(s1, repo, LookUp(0, None));
    s' := Step(s1, Run(0, OK));
    GoesOn(r, s1, Run(0, OK));
  }

  lemma CachesLate(r: State -> bool, s: State, repo: string, tip: string, pos: nat) returns (s': State)
    requires Kept(r) && r(s) && Late(s, repo, Load(0, None, tip, pos))
    ensures r(s') && s'.data.repos == s.data.repos && repo in s'.data.cache
    ensures s'.data.configs == [] && s'.held.discovery.None?
  {
    var s1 := Step(s, Run(0, OK));
    GoesOn(r, s, Run(0, OK));
    assert Late(s1, repo, Store(0, |s.data.entries|));
    s' := Step(s1, Run(0, OK));
    GoesOn(r, s1, Run(0, OK));
  }

  lemma ServesLate(r: State -> bool, s: State, repo: string) returns (end: State)
    requires Kept(r) && r(s) && Late(s, repo, SlowGet(0)) && s.data.repos == {} && s.data.cache == map[]
    requires Owner(repo) == repo
    ensures r(end) && end.held.discovery.None? && end.data.configs == []
    ensures repo in end.data.repos && repo in end.data.cache
  {
    var missed := FindsNothing(r, s, repo);
    var waiting := WaitsToOpen(r, missed, repo);
    var opening := TakesLockLate(r, waiting, repo);
    var open := OpensLate(r, opening, repo);
    var loading := LooksUpLate(r, open, repo);
    var tips := Tips(open.world, repo);
    end := CachesLate(r, loading, repo, Last(tips), |tips| - 1);
  }

  /**
   * For every repo there is a run from the start that leaves it opened and cached: a thread gets inside, the repo is
   * evicted, and the thread then opens it and loads the dataset, with nothing configured and nothing being evicted.
   */
  lemma LateLoadIsLeftOver(cacheTtl: real, discoveryTtl: real, repo: string, tip: string) returns (end: State)
    requires discoveryTtl > 0.0 && !EndsWith(repo, DATA_SUFFIX)
    ensures Reaches(Initial(cacheTtl, discoveryTtl), end) && end.held.discovery.None?
    ensures LeftOver(end, OpenedRepo(repo)) && LeftOver(end, CachedDataset(repo))
  {
    var s0 := Initial(cacheTtl, discoveryTtl);
    ReachesKept(s0);
    var r := s => Reaches(s0, s);
    var entered := FirstGetsInside(r, s0, repo);
    var popped := ThirdEvicts(r, entered, repo);
    var late := BecomesLate(r, popped, repo, tip);
    end := ServesLate(r, late, repo);
  }
}
