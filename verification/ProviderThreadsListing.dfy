/** How often the provider's threads list the repos: at most once per discovery TTL, however many of them wait. */
module ProviderThreadsListing {
  import opened Common
  import opened ProviderThreads
  import opened ProviderThreadsSafety
  import opened ProviderThreadsRuns
  import opened ProviderThreadsFreshness

  /** Thread `t` asks the storage for its repos, whether or not it answers. */
  predicate Lists(s: State, a: Action, t: Tid) {
    a.Run? && a.t == t && t in s.threads && s.threads[t].pc.ListRepos?
  }

  /** Whoever is about to list has found the configs stale, and nobody has stamped them since. */
  ghost predicate ListersFoundStale(s: State) {
    forall t :: t in s.threads && s.threads[t].pc.ListRepos? ==> !ConfigsFresh(s.data, s.world)
  }

  lemma WhoStamps(s: State, th: Thread, c: Choice)
    requires CanRun(s, th, c)
    ensures Serving(th.pc) ==> ServeData(s, th, c).discoveredAt == s.data.discoveredAt
    ensures !th.pc.ListRepos? ==> RefreshData(s, th.pc, c).discoveredAt == s.data.discoveredAt
    ensures th.pc.ListRepos? ==> RefreshData(s, th.pc, c).discoveredAt == Some(s.world.now)
    ensures Refreshing(th.pc) && RefreshPc(s, th, c).ListRepos? ==> !ConfigsFresh(s.data, s.world) && HoldsDiscovery(th.pc)
    ensures Serving(th.pc) ==> !ServePc(s, th, c).ListRepos?
  {
  }

  lemma OneLister(s: State, t: Tid, u: Tid)
    requires LocksHeld(s.held, s.threads) && t in s.threads && u in s.threads
    requires HoldsDiscovery(s.threads[t].pc) && s.threads[u].pc.ListRepos?
    ensures t == u
  {
    assert HoldsDiscovery(s.threads[u].pc);
  }

  lemma ListersFoundStaleStep(s: State, a: Action)
    requires ListersFoundStale(s) && LocksHeld(s.held, s.threads) && Enabled(s, a)
    ensures ListersFoundStale(Step(s, a))
  {
    if a.Run? {
      var th, s' := s.threads[a.t], Step(s, a);
      WhoStamps(s, th, a.choice);
      forall u | u in s'.threads && s'.threads[u].pc.ListRepos? ensures !ConfigsFresh(s'.data, s'.world) {
        if u != a.t {
          if th.pc.ListRepos? { OneLister(s, a.t, u); }
          assert s.threads[u].pc.ListRepos?;
        }
      }
    }
  }

  /** The configs were stamped at the given time or later. */
  predicate StampedSince(s: State, at: real) {
    s.data.discoveredAt.Some? && at <= s.data.discoveredAt.value && at <= s.world.now
  }

  lemma StampedSinceStep(s: State, a: Action, at: real)
    requires StampedSince(s, at) && Enabled(s, a)
    ensures StampedSince(Step(s, a), at)
  {
    if a.Run? { WhoStamps(s, s.threads[a.t], a.choice); }
  }

  lemma ListingStamps(s: State, a: Action, t: Tid)
    requires Lists(s, a, t) && Enabled(s, a)
    ensures StampedSince(Step(s, a), s.world.now)
  {
    WhoStamps(s, s.threads[t], a.choice);
  }

  lemma {:induction false} NextListingIsLater(s: State, run: seq<Action>, m: nat, t: Tid, at: real)
    requires LocksHeld(s.held, s.threads) && ListersFoundStale(s) && StampedSince(s, at)
    requires Runs(s, run) && m < |run| && Lists(StateAt(s, run, m), run[m], t)
    ensures StateAt(s, run, m).world.now - at >= s.world.discoveryTtl
    decreases |run|
  {
    if m > 0 {
      LocksHeldStep(s, run[0]);
      ListersFoundStaleStep(s, run[0]);
      StampedSinceStep(s, run[0], at);
      assert Step(s, run[0]).world.discoveryTtl == s.world.discoveryTtl;
      NextListingIsLater(Step(s, run[0]), run[1..], m - 1, t, at);
    }
  }

  lemma {:induction false} ListingsApartFrom(s: State, run: seq<Action>, k: nat, m: nat, t: Tid, u: Tid)
    requires LocksHeld(s.held, s.threads) && ListersFoundStale(s) && Runs(s, run) && k < m < |run|
    requires Lists(StateAt(s, run, k), run[k], t) && Lists(StateAt(s, run, m), run[m], u)
    ensures StateAt(s, run, m).world.now - StateAt(s, run, k).world.now >= s.world.discoveryTtl
    decreases |run|
  {
    var s' := Step(s, run[0]);
    LocksHeldStep(s, run[0]);
    ListersFoundStaleStep(s, run[0]);
    assert s'.world.discoveryTtl == s.world.discoveryTtl;
    if k == 0 {
      ListingStamps(s, run[0], t);
      NextListingIsLater(s', run[1..], m - 1, u, s.world.now);
    } else {
      ListingsApartFrom(s', run[1..], k - 1, m - 1, t, u);
    }
  }

  /**
   * Over every run, any two listings, by whatever threads and whether they succeed or fail, are at least one discovery
   * TTL apart: a thread that waited for the lock while another listed finds the configs fresh and does not list again.
   */
  lemma ListingsAreApart(cacheTtl: real, discoveryTtl: real, run: seq<Action>, k: nat, m: nat, t: Tid, u: Tid)
    requires Runs(Initial(cacheTtl, discoveryTtl), run) && k < m < |run|
    requires Lists(StateAt(Initial(cacheTtl, discoveryTtl), run, k), run[k], t)
    requires Lists(StateAt(Initial(cacheTtl, discoveryTtl), run, m), run[m], u)
    ensures var s := Initial(cacheTtl, discoveryTtl);
            StateAt(s, run, m).world.now - StateAt(s, run, k).world.now >= discoveryTtl
  {
    ListingsApartFrom(Initial(cacheTtl, discoveryTtl), run, k, m, t, u);
  }

  /** Under the lock, fresh configs are returned as they are: nothing is written and the callback is not called. */
  lemma FreshRecheckReturns(s: State, t: Tid, c: Choice, d: Choice)
    requires t in s.threads && s.threads[t].pc.RecheckFresh? && ConfigsFresh(s.data, s.world)
    ensures Enabled(s, Run(t, c)) && Enabled(Step(s, Run(t, c)), Run(t, d))
    ensures var s' := Step(Step(s, Run(t, c)), Run(t, d));
            && s'.data == s.data && s'.history == s.history && s'.held.discovery.None?
            && s'.threads[t].pc == AfterConfigs(s.data, s.threads[t].request)
  {
  }
}
