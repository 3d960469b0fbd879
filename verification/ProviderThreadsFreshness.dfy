/** Why a thread may serve what it serves. */
module ProviderThreadsFreshness {
  import opened Common
  import opened DatasetIds
  import opened ProviderThreads
  import opened ProviderThreadsSafety
  import opened ProviderThreadsRuns

  /** The state of a run before its m-th action. */
  function StateAt(s: State, run: seq<Action>, m: nat): State
    requires Runs(s, run) && m <= |run|
    decreases |run|
  {
    if m == 0 then s else StateAt(Step(s, run[0]), run[1..], m - 1)
  }

  predicate HoldsTree(d: Fields, e: nat, tree: Tree) {
    e < |d.entries| && d.entries[e].tree == tree
  }

  /** The entry holds the tree and was stamped less than the cache TTL ago. */
  predicate FreshEntry(d: Fields, w: World, e: nat, tree: Tree) {
    HoldsTree(d, e, tree) && Checked(d.entries[e], w)
  }

  /**
   * The thread finds the tree fresh in the cache, or looks up the tip: the tree is of the tip found, or was cached
   * and the lookup failed.
   */
  predicate Vouches(s: State, t: Tid, ok: bool, id: string, tree: Tree) {
    t in s.threads &&
    match s.threads[t].pc
    case FastCheck(e) => FreshEntry(s.data, s.world, e, tree)
    case SlowCheck(_, e) => e.Some? && FreshEntry(s.data, s.world, e.value, tree)
    case LookUp(_, e) =>
      if ok then Tips(s.world, Owner(id)) != [] && tree.snapshot == Last(Tips(s.world, Owner(id)))
      else e.Some? && HoldsTree(s.data, e.value, tree)
    case _ => false
  }

  /** The thread serves the tree, or is past its own lookup and about to. */
  predicate Owes(d: Fields, th: Thread, tree: Tree) {
    match th.pc
    case Release(_, outcome) => outcome == Served(tree)
    case Done(outcome) => outcome == Served(tree)
    case Stamp(_, e) => HoldsTree(d, e, tree)
    case Load(_, _, tip, _) =>
      th.request.Some? && var id := th.request.value; tree == Tree(id, Owner(id), KindOf(id), tip)
    case Store(_, e) => HoldsTree(d, e, tree)
    case _ => false
  }

  predicate OwesIn(s: State, t: Tid, tree: Tree) {
    t in s.threads && Owes(s.data, s.threads[t], tree)
  }

  lemma OwnStepHasCause(s: State, th: Thread, c: Choice, tree: Tree)
    requires CanRun(s, th, c) && Serving(th.pc) && FieldsOk(s.data, s.world) && ThreadOk(s.data, s.world, th)
    requires Owes(ServeData(s, th, c), th.(pc := ServePc(s, th, c)), tree)
    ensures Owes(s.data, th, tree) ||
            (match th.pc
             case FastCheck(e) => FreshEntry(s.data, s.world, e, tree)
             case SlowCheck(_, e) => e.Some? && FreshEntry(s.data, s.world, e.value, tree)
             case LookUp(_, e) =>
               if c.ok then tree.snapshot == Last(Tips(s.world, Owner(th.request.value)))
               else e.Some? && HoldsTree(s.data, e.value, tree)
             case _ => false)
  {
  }

  lemma OthersStepsKeepDebts(s: State, a: Action, t: Tid, tree: Tree)
    requires RefsOk(s) && Enabled(s, a) && OwesIn(Step(s, a), t, tree) && !(a.Run? && a.t == t)
    ensures OwesIn(s, t, tree)
  {
    RefsOkStep(s, a);
    if t in s.threads { assert ThreadOk(s.data, s.world, s.threads[t]); }
  }

  lemma OwingHasCause(s: State, a: Action, t: Tid, id: string, tree: Tree)
    requires RefsOk(s) && Enabled(s, a) && OwesIn(Step(s, a), t, tree) && Step(s, a).threads[t].request == Some(id)
    ensures OwesIn(s, t, tree) || (a.Run? && a.t == t && Vouches(s, t, a.choice.ok, id, tree))
  {
    if a.Run? && a.t == t {
      var th := s.threads[t];
      assert ThreadOk(s.data, s.world, th);
      if Serving(th.pc) { OwnStepHasCause(s, th, a.choice, tree); }
    } else {
      OthersStepsKeepDebts(s, a, t, tree);
    }
  }

  predicate VouchesAt(s: State, run: seq<Action>, m: nat, t: Tid, id: string, tree: Tree)
    requires Runs(s, run) && m < |run|
  {
    run[m].Run? && run[m].t == t && Vouches(StateAt(s, run, m), t, run[m].choice.ok, id, tree)
  }

  lemma {:induction false} RequestStays(s: State, run: seq<Action>, t: Tid)
    requires Runs(s, run) && t in s.threads
    ensures t in After(s, run).threads && After(s, run).threads[t].request == s.threads[t].request
    decreases |run|
  {
    if run != [] { RequestStays(Step(s, run[0]), run[1..], t); }
  }

  lemma {:induction false} ServedHasCause(s: State, run: seq<Action>, t: Tid, id: string, tree: Tree)
    requires RefsOk(s) && Runs(s, run) && OwesIn(After(s, run), t, tree)
    requires After(s, run).threads[t].request == Some(id)
    ensures OwesIn(s, t, tree) || exists m :: 0 <= m < |run| && VouchesAt(s, run, m, t, id, tree)
    decreases |run|
  {
    if run != [] {
      var s', rest := Step(s, run[0]), run[1..];
      RefsOkStep(s, run[0]);
      ServedHasCause(s', rest, t, id, tree);
      if OwesIn(s', t, tree) {
        RequestStays(s', rest, t);
        OwingHasCause(s, run[0], t, id, tree);
        if !OwesIn(s, t, tree) { assert VouchesAt(s, run, 0, t, id, tree); }
      } else {
        var m :| 0 <= m < |rest| && VouchesAt(s', rest, m, t, id, tree);
        assert run[m + 1] == rest[m] && StateAt(s, run, m + 1) == StateAt(s', rest, m);
        assert VouchesAt(s, run, m + 1, t, id, tree);
      }
    }
  }

  /**
   * Over every run, a thread that serves a tree took a step at which it found the tree in the cache stamped less than
   * the TTL before, or looked up the tip and the tree is of that tip, or failed to and the tree was cached.
   */
  lemma ServedIsVouchedFor(cacheTtl: real, discoveryTtl: real, run: seq<Action>, t: Tid, id: string, tree: Tree)
    requires Runs(Initial(cacheTtl, discoveryTtl), run)
    requires t in After(Initial(cacheTtl, discoveryTtl), run).threads
    requires After(Initial(cacheTtl, discoveryTtl), run).threads[t] == Thread(Some(id), Done(Served(tree)))
    ensures exists m :: 0 <= m < |run| && VouchesAt(Initial(cacheTtl, discoveryTtl), run, m, t, id, tree)
  {
    InitialIsSafe(cacheTtl, discoveryTtl);
    ServedHasCause(Initial(cacheTtl, discoveryTtl), run, t, id, tree);
  }
}
