/** The fixed-window rate limiter, and the counters it stands for. */
module RateLimiter {
  import opened Common
  import opened Text
  import opened Decimals
  import opened ApiIdentities

  const MAX_KEYS := 50000

  datatype Limits = Limits(anonymousRpm: nat, authenticatedRpm: nat)

  type Counts = map<string, nat>

  // ----- Keys -----

  /** The part of a key that says whose minute it counts. */
  function Owner(identity: Identity, route: string): string {
    route + ":" + identity.authType + ":" + identity.subject
  }

  function BucketPrefix(bucket: nat): string {
    Print(bucket) + ":"
  }

  function Key(owner: string, bucket: nat): string {
    BucketPrefix(bucket) + owner
  }

  function LimitFor(limits: Limits, identity: Identity): Option<nat> {
    if "admin" in identity.roles then None
    else if identity.IsAuthenticated() then Some(limits.authenticatedRpm)
    else Some(limits.anonymousRpm)
  }

  // ----- Counting -----

  function CountOf(counts: Counts, key: string): nat {
    if key in counts then counts[key] else 0
  }

  function Increment(counts: Counts, key: string): Counts {
    counts[key := CountOf(counts, key) + 1]
  }

  function OnlyBucket(counts: Counts, bucket: nat): Counts {
    map k | k in counts && BucketPrefix(bucket) <= k :: counts[k]
  }

  /** The table after a counted call: cleaned up when it has grown too large. */
  function Counted(counts: Counts, owner: string, bucket: nat): Counts {
    var more := Increment(counts, Key(owner, bucket));
    if |more| > MAX_KEYS then OnlyBucket(more, bucket) else more
  }

  class InMemoryRateLimiter {
    var counts: Counts
    const limits: Limits

    constructor (limits: Limits)
      ensures counts == map[] && this.limits == limits
    {
      counts := map[];
      this.limits := limits;
    }

    /** False where the source raises 429. */
    method Enforce(owner: string, limit: nat, bucket: nat) returns (accepted: bool)
      modifies this
      ensures counts == Counted(old(counts), owner, bucket)
      ensures accepted <==> CountOf(old(counts), Key(owner, bucket)) + 1 <= limit
      ensures |counts| <= MAX_KEYS || forall k :: k in counts ==> BucketPrefix(bucket) <= k
    {
      var key := Key(owner, bucket);
      counts := counts[key := (if key in counts then counts[key] else 0) + 1];
      if |counts| > 50000 {
        var validPrefix := Print(bucket) + ":";
        counts := map k | k in counts && validPrefix <= k :: counts[k];
      }
      assert BucketPrefix(bucket) <= key;
      accepted := counts[key] <= limit;
    }

    method Check(identity: Identity, route: string, bucket: nat) returns (accepted: bool)
      modifies this
      ensures LimitFor(limits, identity).None? ==> accepted && counts == old(counts)
      ensures LimitFor(limits, identity).Some? ==>
                && counts == Counted(old(counts), Owner(identity, route), bucket)
                && (accepted <==> CountOf(old(counts), Key(Owner(identity, route), bucket)) + 1
                                  <= LimitFor(limits, identity).value)
    {
      var limit := LimitFor(limits, identity);
      if limit.None? {
        return true;
      }
      accepted := Enforce(Owner(identity, route), limit.value, bucket);
    }

    method CheckByKey(prefix: string, limit: nat, bucket: nat) returns (accepted: bool)
      modifies this
      ensures counts == Counted(old(counts), prefix, bucket)
      ensures accepted <==> CountOf(old(counts), Key(prefix, bucket)) + 1 <= limit
    {
      accepted := Enforce(prefix, limit, bucket);
    }
  }

  // ----- Runs -----

  datatype Event =
    | Checked(identity: Identity, route: string, bucket: nat)
    | CheckedByKey(prefix: string, limit: nat, bucket: nat)

  function OwnerOf(e: Event): string {
    match e
    case Checked(identity, route, _) => Owner(identity, route)
    case CheckedByKey(prefix, _, _) => prefix
  }

  function LimitOf(limits: Limits, e: Event): Option<nat> {
    match e
    case Checked(identity, _, _) => LimitFor(limits, identity)
    case CheckedByKey(_, limit, _) => Some(limit)
  }

  predicate IsCounted(limits: Limits, e: Event) {
    LimitOf(limits, e).Some?
  }

  /** The limiter's table after a run. */
  function TableAfter(limits: Limits, run: seq<Event>): Counts {
    if run == [] then map[]
    else
      var before, e := TableAfter(limits, run[..|run| - 1]), Last(run);
      if IsCounted(limits, e) then Counted(before, OwnerOf(e), e.bucket) else before
  }

  /** Whether the limiter accepts an event that comes after a run. */
  predicate Accepts(limits: Limits, run: seq<Event>, e: Event) {
    IsCounted(limits, e) ==>
      CountOf(TableAfter(limits, run), Key(OwnerOf(e), e.bucket)) + 1 <= LimitOf(limits, e).value
  }

  /** How many counted events of a run have the key: a counter that is never cleaned up. */
  function Seen(limits: Limits, run: seq<Event>, owner: string, bucket: nat): nat {
    if run == [] then 0
    else
      var e := Last(run);
      Seen(limits, run[..|run| - 1], owner, bucket)
      + if IsCounted(limits, e) && Key(OwnerOf(e), e.bucket) == Key(owner, bucket) then 1 else 0
  }

  /** Time does not go back. */
  ghost predicate Ordered(run: seq<Event>) {
    forall i, j :: 0 <= i < j < |run| ==> run[i].bucket <= run[j].bucket
  }

  // ----- Keys tell minutes apart -----

  lemma BeforeColon(a: string, b: string, rest: string)
    requires AllDigits(a) && AllDigits(b) && a + ":" <= b + ":" + rest
    ensures a == b
  {
    var text := b + ":" + rest;
    assert forall c :: c in a || c in b ==> Digit(c);
    assert text == a + [':'] + text[|a| + 1..] && text == b + [':'] + rest;
    IndexOfAppended(a, ':', text[|a| + 1..]);
    IndexOfAppended(b, ':', rest);
    assert a == text[..|a|] && b == text[..|b|];
  }

  lemma PrefixTellsBucket(owner: string, bucket: nat, other: nat)
    ensures BucketPrefix(other) <= Key(owner, bucket) <==> other == bucket
  {
    if BucketPrefix(other) <= Key(owner, bucket) {
      BeforeColon(Print(other), Print(bucket), owner);
      PrintInjective(other, bucket);
    }
  }

  lemma KeyTellsBucket(ownerA: string, a: nat, ownerB: string, b: nat)
    ensures Key(ownerA, a) == Key(ownerB, b) <==> ownerA == ownerB && a == b
  {
    if Key(ownerA, a) == Key(ownerB, b) {
      PrefixTellsBucket(ownerA, a, b);
      assert ownerA == Key(ownerA, a)[|BucketPrefix(a)|..];
      assert ownerB == Key(ownerB, b)[|BucketPrefix(b)|..];
    }
  }

  // ----- The table is the counters -----

  lemma {:induction false} SeenOnlyInItsMinute(limits: Limits, run: seq<Event>, owner: string, bucket: nat)
    requires forall i :: 0 <= i < |run| ==> run[i].bucket != bucket
    ensures Seen(limits, run, owner, bucket) == 0
  {
    if run != [] {
      SeenOnlyInItsMinute(limits, run[..|run| - 1], owner, bucket);
      KeyTellsBucket(OwnerOf(Last(run)), Last(run).bucket, owner, bucket);
    }
  }

  /** For the current minute and later ones the table holds exactly the counters. */
  lemma {:induction false} TableIsSeen(limits: Limits, run: seq<Event>, owner: string, bucket: nat)
    requires Ordered(run) && (run != [] ==> Last(run).bucket <= bucket)
    ensures CountOf(TableAfter(limits, run), Key(owner, bucket)) == Seen(limits, run, owner, bucket)
  {
    if run != [] {
      var before, e := run[..|run| - 1], Last(run);
      TableIsSeen(limits, before, owner, bucket);
      PrefixTellsBucket(owner, bucket, e.bucket);
      if e.bucket < bucket {
        SeenOnlyInItsMinute(limits, run, owner, bucket);
        SeenOnlyInItsMinute(limits, before, owner, bucket);
        KeyTellsBucket(OwnerOf(e), e.bucket, owner, bucket);
      }
    }
  }

  /** A counted call is accepted exactly when it is at most the limit-th with its key, cleaned up or not. */
  lemma AcceptedExactly(limits: Limits, run: seq<Event>, e: Event)
    requires Ordered(run + [e])
    ensures Accepts(limits, run, e) <==>
            (IsCounted(limits, e) ==> Seen(limits, run + [e], OwnerOf(e), e.bucket) <= LimitOf(limits, e).value)
  {
    assert (run + [e])[..|run|] == run && Last(run + [e]) == e;
    forall i, j | 0 <= i < j < |run| ensures run[i].bucket <= run[j].bucket {
      assert (run + [e])[i].bucket <= (run + [e])[j].bucket;
    }
    if run != [] { assert (run + [e])[|run| - 1].bucket <= (run + [e])[|run|].bucket; }
    TableIsSeen(limits, run, OwnerOf(e), e.bucket);
  }

  /** After a counted call the table is small, or it holds keys of the current minute only. */
  lemma TableStaysSmall(limits: Limits, run: seq<Event>)
    requires run != [] && IsCounted(limits, Last(run))
    ensures var table := TableAfter(limits, run);
            |table| <= 50000 || forall k :: k in table ==> BucketPrefix(Last(run).bucket) <= k
  {
  }

  /** Only a table of more than 50000 keys loses any, and then none of the current minute. */
  lemma CleansOnlyLargeTables(limits: Limits, run: seq<Event>, e: Event, key: string)
    ensures var before, after := TableAfter(limits, run), TableAfter(limits, run + [e]);
            key in before && key !in after ==>
              |before.Keys + {Key(OwnerOf(e), e.bucket)}| > 50000 && !(BucketPrefix(e.bucket) <= key)
  {
    assert (run + [e])[..|run|] == run && Last(run + [e]) == e;
    var before := TableAfter(limits, run);
    assert Increment(before, Key(OwnerOf(e), e.bucket)).Keys == before.Keys + {Key(OwnerOf(e), e.bucket)};
  }

  // ----- Keys tell callers apart -----

  /** What follows the last colon. */
  function LastPart(s: string): string {
    if ':' !in s then s else LastPart(s[1..])
  }

  lemma {:induction false} LastPartIs(a: string, x: string)
    requires ':' !in x
    ensures LastPart(a + ":" + x) == x
  {
    var s := a + ":" + x;
    assert s[|a|] == ':';
    if a == "" {
      assert s[1..] == x;
    } else {
      assert s[1..] == a[1..] + ":" + x;
      LastPartIs(a[1..], x);
    }
  }

  lemma SplitAtLastColon(a: string, x: string, b: string, y: string)
    requires a + ":" + x == b + ":" + y && ':' !in x && ':' !in y
    ensures a == b && x == y
  {
    LastPartIs(a, x);
    LastPartIs(b, y);
    assert a + (":" + x) == a + ":" + x && b + (":" + y) == b + ":" + y;
    SuffixInjective(a, b, ":" + x);
  }

  lemma {:induction false} LastPartSplits(s: string) returns (head: string)
    requires ':' in s
    ensures s == head + ":" + LastPart(s) && ':' !in LastPart(s)
  {
    if ':' in s[1..] {
      var rest := LastPartSplits(s[1..]);
      head := [s[0]] + rest;
      assert s == [s[0]] + s[1..];
    } else {
      head := "";
      assert s == [s[0]] + s[1..];
    }
  }

  /** The subject of `a` swallows the subject of `b`, and the route of `b` the rest of `a`: both write the same text. */
  ghost predicate Hides(a: Identity, routeA: string, b: Identity, routeB: string) {
    || (routeB == routeA + ":" + a.authType && a.subject == b.authType + ":" + b.subject)
    || exists head: string :: HidesBehind(a, routeA, b, routeB, head)
  }

  predicate HidesBehind(a: Identity, routeA: string, b: Identity, routeB: string, head: string) {
    && routeB == routeA + ":" + a.authType + ":" + head
    && a.subject == head + ":" + b.authType + ":" + b.subject
  }

  lemma HidingSharesCounter(a: Identity, routeA: string, b: Identity, routeB: string)
    requires Hides(a, routeA, b, routeB)
    ensures Owner(a, routeA) == Owner(b, routeB)
  {
    if routeB == routeA + ":" + a.authType && a.subject == b.authType + ":" + b.subject {
      assert Owner(a, routeA) == Owner(b, routeB);
    } else {
      var head :| HidesBehind(a, routeA, b, routeB, head);
      assert Owner(a, routeA) == Owner(b, routeB);
    }
  }

  lemma LongerSubjectHides(a: Identity, routeA: string, b: Identity, routeB: string)
    requires ':' !in a.authType && ':' !in b.authType && |a.subject| > |b.subject|
    requires Owner(a, routeA) == Owner(b, routeB)
    ensures Hides(a, routeA, b, routeB)
  {
    var front, before := routeA + ":" + a.authType, routeB + ":" + b.authType;
    var x := a.subject[..|a.subject| - |b.subject| - 1];
    SubjectSplits(front, a.subject, before, b.subject, x);
    if ':' in x {
      var head := LastPartSplits(x);
      assert front + ":" + x == front + ":" + head + ":" + LastPart(x);
      SplitAtLastColon(front + ":" + head, LastPart(x), routeB, b.authType);
      assert HidesBehind(a, routeA, b, routeB, head);
    } else {
      SplitAtLastColon(front, x, routeB, b.authType);
    }
  }

  lemma SubjectSplits(front: string, long: string, before: string, short: string, x: string)
    requires |long| > |short| && x == long[..|long| - |short| - 1]
    requires front + ":" + long == before + ":" + short
    ensures long == x + ":" + short && front + ":" + x == before
  {
    var text, n := front + ":" + long, |before|;
    assert text[..n] == before && text[n] == ':' && text[n + 1..] == short;
    assert text[..n] == front + ":" + x;
    assert long == x + [long[|x|]] + long[|x| + 1..];
    assert long[|x|] == text[n] && long[|x| + 1..] == text[n + 1..];
  }

  /** Two callers share a counter exactly when they are the same or the subject of one hides the other. */
  lemma OwnersAgreeExactly(a: Identity, routeA: string, b: Identity, routeB: string)
    requires ':' !in a.authType && ':' !in b.authType
    ensures Owner(a, routeA) == Owner(b, routeB) <==>
            || (routeA == routeB && a.authType == b.authType && a.subject == b.subject)
            || Hides(a, routeA, b, routeB) || Hides(b, routeB, a, routeA)
  {
    if Owner(a, routeA) == Owner(b, routeB) {
      if |a.subject| == |b.subject| {
        SameLengthEnds(routeA + ":" + a.authType, a.subject, routeB + ":" + b.authType, b.subject);
        SplitAtLastColon(routeA, a.authType, routeB, b.authType);
      } else if |a.subject| > |b.subject| {
        LongerSubjectHides(a, routeA, b, routeB);
      } else {
        LongerSubjectHides(b, routeB, a, routeA);
      }
    }
    if Hides(a, routeA, b, routeB) { HidingSharesCounter(a, routeA, b, routeB); }
    if Hides(b, routeB, a, routeA) { HidingSharesCounter(b, routeB, a, routeA); }
  }

  lemma SameLengthEnds(a: string, x: string, b: string, y: string)
    requires a + ":" + x == b + ":" + y && |x| == |y|
    ensures a == b && x == y
  {
    assert a == (a + ":" + x)[..|a|] && b == (b + ":" + y)[..|b|];
    assert x == (a + ":" + x)[|a| + 1..] && y == (b + ":" + y)[|b| + 1..];
  }

  /** The authentication types there are. */
  const AUTH_TYPES := {"jwt", "api_key", "anonymous"}

  /** The subject begins with an authentication type and a colon, or has one between colons. */
  predicate EmbedsType(subject: string) {
    exists t :: t in AUTH_TYPES && (t + ":" <= subject || exists i :: 0 <= i < |subject| && ":" + t + ":" <= subject[i..])
  }

  lemma AuthTypesAreColonFree()
    ensures forall t :: t in AUTH_TYPES ==> ':' !in t
  {
  }

  lemma HidingEmbeds(a: Identity, routeA: string, b: Identity, routeB: string)
    requires b.authType in AUTH_TYPES && Hides(a, routeA, b, routeB)
    ensures EmbedsType(a.subject) && |b.subject| < |a.subject|
  {
    var t, s := b.authType, a.subject;
    if head :| HidesBehind(a, routeA, b, routeB, head) {
      assert s[|head|..] == ":" + t + ":" + b.subject;
    } else {
      assert t + ":" <= s;
    }
  }

  lemma PrefixHides(a: Identity, routeA: string, t: string) returns (b: Identity, routeB: string)
    requires t + ":" <= a.subject
    ensures b.authType == t && Hides(a, routeA, b, routeB)
  {
    b, routeB := Identity(a.subject[|t| + 1..], t, {}), routeA + ":" + a.authType;
    assert a.subject == t + ":" + b.subject;
  }

  lemma InnerTypeHides(a: Identity, routeA: string, t: string, i: nat) returns (b: Identity, routeB: string)
    requires i < |a.subject| && ":" + t + ":" <= a.subject[i..]
    ensures b.authType == t && Hides(a, routeA, b, routeB)
  {
    var head, tail := a.subject[..i], a.subject[i..];
    b, routeB := Identity(tail[|t| + 2..], t, {}), routeA + ":" + a.authType + ":" + head;
    assert tail == ":" + t + ":" + b.subject;
    assert a.subject == head + tail;
    assert a.subject == head + ":" + t + ":" + b.subject;
    assert HidesBehind(a, routeA, b, routeB, head);
  }

  lemma EmbeddingHides(a: Identity, routeA: string) returns (b: Identity, routeB: string)
    requires EmbedsType(a.subject)
    ensures b.authType in AUTH_TYPES && Hides(a, routeA, b, routeB)
  {
    var s := a.subject;
    var t :| t in AUTH_TYPES && (t + ":" <= s || exists i :: 0 <= i < |s| && ":" + t + ":" <= s[i..]);
    if t + ":" <= s {
      b, routeB := PrefixHides(a, routeA, t);
    } else {
      var i :| 0 <= i < |s| && ":" + t + ":" <= s[i..];
      b, routeB := InnerTypeHides(a, routeA, t, i);
    }
  }

  /** On some routes a subject shares its counter with a shorter one exactly when it embeds an authentication type. */
  lemma ColonsShareCounters(a: Identity, routeA: string)
    requires a.authType in AUTH_TYPES
    ensures EmbedsType(a.subject) <==>
            exists b: Identity, routeB: string ::
              b.authType in AUTH_TYPES && |b.subject| < |a.subject| && Owner(a, routeA) == Owner(b, routeB)
  {
    AuthTypesAreColonFree();
    if EmbedsType(a.subject) {
      var b, routeB := EmbeddingHides(a, routeA);
      HidingEmbeds(a, routeA, b, routeB);
      HidingSharesCounter(a, routeA, b, routeB);
    }
    if b: Identity, routeB: string :|
      b.authType in AUTH_TYPES && |b.subject| < |a.subject| && Owner(a, routeA) == Owner(b, routeB)
    {
      LongerSubjectHides(a, routeA, b, routeB);
      HidingEmbeds(a, routeA, b, routeB);
    }
  }

  // ----- Limits per caller -----

  /** Routes are URL paths; the fixed prefixes are not; authentication types are free of colons. */
  predicate Tidy(e: Event) {
    match e
    case Checked(identity, route, _) => route != "" && route[0] == '/' && ':' !in identity.authType
    case CheckedByKey(prefix, _, _) => prefix == "" || prefix[0] != '/'
  }

  predicate SameCaller(a: Event, b: Event) {
    match (a, b)
    case (Checked(i, r, m), Checked(j, q, n)) => i.subject == j.subject && i.authType == j.authType && r == q && m == n
    case (CheckedByKey(p, _, m), CheckedByKey(q, _, n)) => p == q && m == n
    case _ => false
  }

  /** In the same minute, neither caller's subject hides the other caller. */
  ghost predicate Apart(a: Event, b: Event) {
    a.Checked? && b.Checked? && a.bucket == b.bucket ==>
      !Hides(a.identity, a.route, b.identity, b.route) && !Hides(b.identity, b.route, a.identity, a.route)
  }

  lemma ApartFromItself(e: Event)
    ensures Apart(e, e)
  {
  }

  /** Subjects that embed no authentication type, such as those of federated users, never hide anyone. */
  lemma PlainSubjectsAreApart(a: Event, b: Event)
    requires a.Checked? ==> a.identity.authType in AUTH_TYPES && !EmbedsType(a.identity.subject)
    requires b.Checked? ==> b.identity.authType in AUTH_TYPES && !EmbedsType(b.identity.subject)
    ensures Apart(a, b)
  {
    if a.Checked? && b.Checked? {
      if Hides(a.identity, a.route, b.identity, b.route) { HidingEmbeds(a.identity, a.route, b.identity, b.route); }
      if Hides(b.identity, b.route, a.identity, a.route) { HidingEmbeds(b.identity, b.route, a.identity, a.route); }
    }
  }

  /** How many counted calls of a run are by the caller, on the route and in the minute of `e`. */
  function Calls(limits: Limits, run: seq<Event>, e: Event): nat {
    if run == [] then 0
    else
      Calls(limits, run[..|run| - 1], e)
      + if IsCounted(limits, Last(run)) && SameCaller(Last(run), e) then 1 else 0
  }

  lemma SameCallerIsSameKey(a: Event, b: Event)
    requires Tidy(a) && Tidy(b) && Apart(a, b)
    ensures Key(OwnerOf(a), a.bucket) == Key(OwnerOf(b), b.bucket) <==> SameCaller(a, b)
  {
    KeyTellsBucket(OwnerOf(a), a.bucket, OwnerOf(b), b.bucket);
    if a.Checked? && b.Checked? {
      OwnersAgreeExactly(a.identity, a.route, b.identity, b.route);
    } else if a.Checked? {
      assert OwnerOf(a)[0] == '/';
    } else if b.Checked? {
      assert OwnerOf(b)[0] == '/';
    }
  }

  lemma {:induction false} SeenIsCalls(limits: Limits, run: seq<Event>, e: Event)
    requires Tidy(e) && forall i :: 0 <= i < |run| ==> Tidy(run[i]) && Apart(run[i], e)
    ensures Seen(limits, run, OwnerOf(e), e.bucket) == Calls(limits, run, e)
  {
    if run != [] {
      SeenIsCalls(limits, run[..|run| - 1], e);
      SameCallerIsSameKey(Last(run), e);
    }
  }

  /**
   * Over any run whose minutes do not go back, a call is accepted exactly when the caller is exempt or this is at
   * most its limit-th counted call on the route in the minute. Clean-ups never matter, nor do other routes and callers,
   * unless the subject of one hides the other.
   */
  lemma EveryCallerHasItsLimit(limits: Limits, run: seq<Event>, e: Event)
    requires Ordered(run + [e]) && Tidy(e) && forall i :: 0 <= i < |run| ==> Tidy(run[i]) && Apart(run[i], e)
    ensures Accepts(limits, run, e) <==>
            (IsCounted(limits, e) ==> Calls(limits, run + [e], e) <= LimitOf(limits, e).value)
  {
    ApartFromItself(e);
    AcceptedExactly(limits, run, e);
    SeenIsCalls(limits, run + [e], e);
  }

  /** What the limit is: none for administrators, one for logged-in users and API keys, and one for everybody else. */
  lemma LimitsByCaller(limits: Limits, run: seq<Event>, identity: Identity, route: string, bucket: nat)
    requires var e := Checked(identity, route, bucket);
             Ordered(run + [e]) && Tidy(e) && forall i :: 0 <= i < |run| ==> Tidy(run[i]) && Apart(run[i], e)
    ensures var e := Checked(identity, route, bucket);
            var calls := Calls(limits, run + [e], e);
            && ("admin" in identity.roles ==> Accepts(limits, run, e))
            && ("admin" !in identity.roles && identity.authType in {"jwt", "api_key"} ==>
                  (Accepts(limits, run, e) <==> calls <= limits.authenticatedRpm))
            && ("admin" !in identity.roles && identity.authType !in {"jwt", "api_key"} ==>
                  (Accepts(limits, run, e) <==> calls <= limits.anonymousRpm))
  {
    EveryCallerHasItsLimit(limits, run, Checked(identity, route, bucket));
  }

  /** A call limited by a key prefix of its own is accepted up to the limit it states. */
  lemma PrefixHasItsLimit(limits: Limits, run: seq<Event>, prefix: string, limit: nat, bucket: nat)
    requires var e := CheckedByKey(prefix, limit, bucket);
             Ordered(run + [e]) && Tidy(e) && forall i :: 0 <= i < |run| ==> Tidy(run[i]) && Apart(run[i], e)
    ensures var e := CheckedByKey(prefix, limit, bucket);
            Accepts(limits, run, e) <==> Calls(limits, run + [e], e) <= limit
  {
    EveryCallerHasItsLimit(limits, run, CheckedByKey(prefix, limit, bucket));
  }
}
