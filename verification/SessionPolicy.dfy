/**
 * The access rules compiled to an IAM session policy, and what IAM makes of it: an explicit deny wins,
 * and resources and `StringLike` values are patterns with `*` and `?`.
 */
module SessionPolicy {
  import opened Common
  import opened Text
  import opened Wildcards
  import opened AccessRules

  datatype Effect = Allow | Deny

  /** `s3:GetObject`, `s3:ListBucket`, or any other action a request may name. */
  datatype Action = GetObjectAction | ListBucketAction | OtherAction(name: string)

  /** One string or a list of them, as the policy document writes it. */
  datatype Resource = One(arn: string) | Many(arns: seq<string>)

  /** `prefixes` is the `StringLike` condition on `s3:prefix`, if there is one. */
  datatype Statement = Statement(effect: Effect, action: Action, resource: Resource, prefixes: Option<seq<string>>)

  const ARN := "arn:aws:s3:::"

  // ----- Building the policy -----

  function RepoPrefix(prefix: string, repo: string): string {
    prefix + "/" + repo + "/"
  }

  function ObjectArn(bucket: string, prefix: string, repo: string): string {
    ARN + bucket + "/" + RepoPrefix(prefix, repo) + "*"
  }

  function ObjectArns(bucket: string, prefix: string, repos: seq<string>): seq<string> {
    seq(|repos|, i requires 0 <= i < |repos| => ObjectArn(bucket, prefix, repos[i]))
  }

  function ListPrefixes(prefix: string, repos: seq<string>): seq<string> {
    if repos == [] then []
    else ListPrefixes(prefix, repos[..|repos| - 1]) + [RepoPrefix(prefix, Last(repos)), RepoPrefix(prefix, Last(repos)) + "*"]
  }

  function RepoStatements(effect: Effect, bucket: string, prefix: string, repos: seq<string>): seq<Statement> {
    [Statement(effect, GetObjectAction, Many(ObjectArns(bucket, prefix, repos)), None),
     Statement(effect, ListBucketAction, One(ARN + bucket), Some(ListPrefixes(prefix, repos)))]
  }

  function Policy(bucket: string, prefix: string, denyMode: bool, repos: seq<string>): seq<Statement> {
    if !denyMode then RepoStatements(Allow, bucket, prefix, repos)
    else
      [Statement(Allow, GetObjectAction, One(ARN + bucket + "/" + prefix + "/*"), None),
       Statement(Allow, ListBucketAction, One(ARN + bucket), Some([prefix + "/", prefix + "/*"]))] +
      if repos == [] then [] else RepoStatements(Deny, bucket, prefix, repos)
  }

  method BuildSessionPolicy(bucket: string, prefix: string, denyMode: bool, repos: seq<string>)
    returns (statements: seq<Statement>)
    ensures statements == Policy(bucket, prefix, denyMode, repos)
  {
    var bucketArn := ARN + bucket;
    var objectArns: seq<string>, listPrefixes: seq<string> := [], [];
    for i := 0 to |repos|
      invariant objectArns == ObjectArns(bucket, prefix, repos[..i])
      invariant listPrefixes == ListPrefixes(prefix, repos[..i])
    {
      assert repos[..i + 1][..i] == repos[..i];
      var repoPrefix := RepoPrefix(prefix, repos[i]);
      objectArns := objectArns + [bucketArn + "/" + repoPrefix + "*"];
      listPrefixes := listPrefixes + [repoPrefix, repoPrefix + "*"];
    }
    assert repos[..|repos|] == repos;
    if denyMode {
      statements := [Statement(Allow, GetObjectAction, One(bucketArn + "/" + prefix + "/*"), None),
                     Statement(Allow, ListBucketAction, One(bucketArn), Some([prefix + "/", prefix + "/*"]))];
      if repos != [] {
        statements := statements + [Statement(Deny, GetObjectAction, Many(objectArns), None),
                                    Statement(Deny, ListBucketAction, One(bucketArn), Some(listPrefixes))];
      }
    } else {
      statements := [Statement(Allow, GetObjectAction, Many(objectArns), None),
                     Statement(Allow, ListBucketAction, One(bucketArn), Some(listPrefixes))];
    }
  }

  // ----- IAM -----

  /** A request as IAM sees it; `prefix` is the `s3:prefix` key, absent when a listing gives none. */
  datatype Request = Request(action: Action, arn: string, prefix: Option<string>)

  function GetObject(bucket: string, key: string): Request {
    Request(GetObjectAction, "arn:aws:s3:::" + bucket + "/" + key, None)
  }

  function ListBucket(bucket: string, prefix: Option<string>): Request {
    Request(ListBucketAction, "arn:aws:s3:::" + bucket, prefix)
  }

  predicate AnyMatches(patterns: seq<string>, s: string) {
    exists i :: 0 <= i < |patterns| && Matches(GLOB, patterns[i], s)
  }

  predicate Applies(st: Statement, r: Request) {
    && st.action == r.action
    && (match st.resource case One(arn) => Matches(GLOB, arn, r.arn) case Many(arns) => AnyMatches(arns, r.arn))
    && (st.prefixes.Some? ==> r.prefix.Some? && AnyMatches(st.prefixes.value, r.prefix.value))
  }

  predicate SomeApplies(policy: seq<Statement>, effect: Effect, r: Request) {
    exists i :: 0 <= i < |policy| && policy[i].effect == effect && Applies(policy[i], r)
  }

  predicate Allows(policy: seq<Statement>, r: Request) {
    SomeApplies(policy, Allow, r) && !SomeApplies(policy, Deny, r)
  }

  // ----- What the patterns match -----

  /** The first path segment of a listed name, which may be any text. */
  function Head(name: string): (head: string)
    ensures '/' !in head && ('/' !in name ==> head == name)
    ensures '/' in name ==> head + "/" <= name
  {
    name[..IndexOf(name, '/')]
  }

  /** Each listed name begins with a segment that is free of wildcards and is itself listed. */
  ghost predicate SelfContained(repos: seq<string>) {
    forall i :: 0 <= i < |repos| ==> Plain(GLOB, Head(repos[i])) && Head(repos[i]) in repos
  }

  /** A key or listed prefix lies in the given repo. */
  predicate InRepo(prefix: string, repo: string, path: string) {
    RepoPrefix(prefix, repo) <= path
  }

  predicate InSomeRepo(prefix: string, repos: seq<string>, path: string) {
    exists i :: 0 <= i < |repos| && InRepo(prefix, repos[i], path)
  }

  lemma PrefixOfPrefixed(common: string, a: string, b: string)
    ensures common + a <= common + b <==> a <= b
  {
    if common + a <= common + b {
      forall i | 0 <= i < |a| ensures a[i] == b[i] {
        assert a[i] == (common + a)[|common| + i] == (common + b)[|common| + i];
      }
    }
  }

  lemma InHead(prefix: string, name: string, path: string)
    requires InRepo(prefix, name, path)
    ensures InRepo(prefix, Head(name), path)
  {
    if '/' in name {
      assert RepoPrefix(prefix, name) == RepoPrefix(prefix, Head(name)) + (name[|Head(name)| + 1..] + "/");
    }
  }

  /** A pattern of a listed name only reaches into the repo of the name's first segment. */
  lemma PatternStaysInHead(prefix: string, name: string, tail: string, path: string)
    requires Plain(GLOB, prefix) && Plain(GLOB, Head(name))
    requires Matches(GLOB, RepoPrefix(prefix, name) + tail, path)
    ensures InRepo(prefix, Head(name), path)
  {
    var literal, pattern := RepoPrefix(prefix, Head(name)), RepoPrefix(prefix, name) + tail;
    InHead(prefix, name, pattern);
    PlainPrefix(GLOB, literal, pattern[|literal|..], path);
    assert literal + pattern[|literal|..] == pattern;
  }

  lemma PatternCoversRepo(prefix: string, repo: string, path: string)
    requires Plain(GLOB, prefix) && Plain(GLOB, repo)
    ensures Matches(GLOB, RepoPrefix(prefix, repo) + "*", path) <==> InRepo(prefix, repo, path)
  {
    PlainMatches(GLOB, RepoPrefix(prefix, repo), path);
  }

  lemma ArnIsPathPattern(bucket: string, pattern: string, key: string)
    requires Plain(GLOB, bucket)
    ensures Matches(GLOB, ARN + bucket + "/" + pattern, ARN + bucket + "/" + key) <==> Matches(GLOB, pattern, key)
  {
    PlainPrefix(GLOB, ARN + bucket + "/", pattern, ARN + bucket + "/" + key);
  }

  lemma ObjectArnMatches(bucket: string, prefix: string, repo: string, key: string)
    requires Plain(GLOB, bucket)
    ensures Matches(GLOB, ObjectArn(bucket, prefix, repo), ARN + bucket + "/" + key) <==>
            Matches(GLOB, RepoPrefix(prefix, repo) + "*", key)
  {
    ArnIsPathPattern(bucket, RepoPrefix(prefix, repo) + "*", key);
    assert ARN + bucket + "/" + (RepoPrefix(prefix, repo) + "*") == ObjectArn(bucket, prefix, repo);
  }

  lemma WholeArnMatches(bucket: string, prefix: string, key: string)
    requires Plain(GLOB, bucket) && Plain(GLOB, prefix)
    ensures Matches(GLOB, ARN + bucket + "/" + prefix + "/*", ARN + bucket + "/" + key) <==> prefix + "/" <= key
  {
    ArnIsPathPattern(bucket, prefix + "/*", key);
    assert ARN + bucket + "/" + (prefix + "/*") == ARN + bucket + "/" + prefix + "/*";
    PlainMatches(GLOB, prefix + "/", key);
    assert prefix + "/*" == prefix + "/" + "*";
  }

  /** A path in the repo of a listed name is in the repo of its head, which has a pattern of its own. */
  lemma OwnPattern(prefix: string, repos: seq<string>, path: string) returns (i: nat)
    requires Plain(GLOB, prefix) && SelfContained(repos) && InSomeRepo(prefix, repos, path)
    ensures i < |repos| && Matches(GLOB, RepoPrefix(prefix, repos[i]) + "*", path)
  {
    var k :| 0 <= k < |repos| && InRepo(prefix, repos[k], path);
    var head := Head(repos[k]);
    i :| 0 <= i < |repos| && repos[i] == head;
    InHead(prefix, repos[k], path);
    PatternCoversRepo(prefix, head, path);
  }

  lemma HeadIsListed(prefix: string, repos: seq<string>, name: string, tail: string, path: string)
    requires Plain(GLOB, prefix) && SelfContained(repos) && name in repos
    requires Matches(GLOB, RepoPrefix(prefix, name) + tail, path)
    ensures InSomeRepo(prefix, repos, path)
  {
    PatternStaysInHead(prefix, name, tail, path);
    var i :| 0 <= i < |repos| && repos[i] == Head(name);
    assert InRepo(prefix, repos[i], path);
  }

  lemma ObjectArnsMatch(bucket: string, prefix: string, repos: seq<string>, key: string)
    requires Plain(GLOB, bucket) && Plain(GLOB, prefix) && SelfContained(repos)
    ensures AnyMatches(ObjectArns(bucket, prefix, repos), ARN + bucket + "/" + key) <==> InSomeRepo(prefix, repos, key)
  {
    var arns := ObjectArns(bucket, prefix, repos);
    if i :| 0 <= i < |arns| && Matches(GLOB, arns[i], ARN + bucket + "/" + key) {
      ObjectArnMatches(bucket, prefix, repos[i], key);
      HeadIsListed(prefix, repos, repos[i], "*", key);
    }
    if InSomeRepo(prefix, repos, key) {
      var i := OwnPattern(prefix, repos, key);
      ObjectArnMatches(bucket, prefix, repos[i], key);
      assert Matches(GLOB, arns[i], ARN + bucket + "/" + key);
    }
  }

  lemma {:induction false} ListPrefixesAt(prefix: string, repos: seq<string>)
    ensures |ListPrefixes(prefix, repos)| == 2 * |repos|
    ensures forall i :: 0 <= i < |repos| ==> ListPrefixes(prefix, repos)[2 * i] == RepoPrefix(prefix, repos[i])
    ensures forall i :: 0 <= i < |repos| ==> ListPrefixes(prefix, repos)[2 * i + 1] == RepoPrefix(prefix, repos[i]) + "*"
  {
    if repos != [] { ListPrefixesAt(prefix, repos[..|repos| - 1]); }
  }

  /** Each of the patterns is a listed name's folder, as it is or with the any-run wildcard. */
  lemma ListPrefixFrom(prefix: string, repos: seq<string>, k: nat) returns (i: nat, tail: string)
    requires k < |ListPrefixes(prefix, repos)|
    ensures i < |repos| && ListPrefixes(prefix, repos)[k] == RepoPrefix(prefix, repos[i]) + tail
  {
    ListPrefixesAt(prefix, repos);
    i := k / 2;
    if k % 2 == 0 {
      tail := "";
      assert ListPrefixes(prefix, repos)[2 * i] == RepoPrefix(prefix, repos[i]) + "";
    } else {
      tail := "*";
      assert ListPrefixes(prefix, repos)[2 * i + 1] == RepoPrefix(prefix, repos[i]) + tail;
    }
  }

  lemma ListPrefixesMatch(prefix: string, repos: seq<string>, path: string)
    requires Plain(GLOB, prefix) && SelfContained(repos)
    ensures AnyMatches(ListPrefixes(prefix, repos), path) <==> InSomeRepo(prefix, repos, path)
  {
    var patterns := ListPrefixes(prefix, repos);
    if k :| 0 <= k < |patterns| && Matches(GLOB, patterns[k], path) {
      var i, tail := ListPrefixFrom(prefix, repos, k);
      HeadIsListed(prefix, repos, repos[i], tail, path);
    }
    if InSomeRepo(prefix, repos, path) {
      var i := OwnPattern(prefix, repos, path);
      ListPrefixesAt(prefix, repos);
      assert Matches(GLOB, patterns[2 * i + 1], path);
    }
  }

  lemma WholePrefixMatches(prefix: string, path: string)
    requires Plain(GLOB, prefix)
    ensures AnyMatches([prefix + "/", prefix + "/*"], path) <==> prefix + "/" <= path
  {
    PlainMatches(GLOB, prefix + "/", path);
    assert prefix + "/*" == prefix + "/" + "*";
    var patterns := [prefix + "/", prefix + "/*"];
    if prefix + "/" <= path {
      assert Matches(GLOB, patterns[1], path);
    }
  }

  // ----- The policy means the rules -----

  /** The repo a path under the prefix lies in: its first segment, if a slash ends it. */
  function RepoOf(prefix: string, path: string): Option<string>
    requires prefix + "/" <= path
  {
    var rest := path[|prefix| + 1..];
    if '/' in rest then Some(rest[..IndexOf(rest, '/')]) else None
  }

  lemma FirstSegment(rest: string, repo: string)
    requires '/' !in repo
    ensures repo + "/" <= rest <==> '/' in rest && rest[..IndexOf(rest, '/')] == repo
  {
    if repo + "/" <= rest {
      assert rest[|repo|] == '/' && rest[..|repo|] == repo;
      IndexOfIs(rest, '/', |repo|);
    }
    if '/' in rest && rest[..IndexOf(rest, '/')] == repo {
      assert rest[..|repo| + 1] == repo + "/";
    }
  }

  lemma InRepoIsRepoOf(prefix: string, repo: string, path: string)
    requires '/' !in repo
    ensures InRepo(prefix, repo, path) <==> prefix + "/" <= path && RepoOf(prefix, path) == Some(repo)
  {
    assert RepoPrefix(prefix, repo) == (prefix + "/") + (repo + "/");
    if prefix + "/" <= path {
      var rest := path[|prefix| + 1..];
      assert path == (prefix + "/") + rest;
      PrefixOfPrefixed(prefix + "/", repo + "/", rest);
      FirstSegment(rest, repo);
    }
  }

  /** What the rules say about an object key, or about the prefix given to a listing. */
  predicate PathPermitted(rules: Rules, identity: Identity, prefix: string, path: string) {
    && prefix + "/" <= path
    && match RepoOf(prefix, path)
       case Some(repo) => IsPermitted(rules, identity, Repos, repo)
       case None => HasDefault(rules, identity)
  }

  function PolicyOf(rules: Rules, identity: Identity, bucket: string, prefix: string): seq<Statement> {
    var (denyMode, repos) := PolicyFor(rules, identity);
    Policy(bucket, prefix, denyMode, repos)
  }

  /** The translation needs a wildcard-free bucket and prefix, and listed names that stay among the listed repos. */
  ghost predicate Sane(rules: Rules, identity: Identity, bucket: string, prefix: string) {
    Plain(GLOB, bucket) && Plain(GLOB, prefix) && SelfContained(PolicyFor(rules, identity).1)
  }

  /** A path lies under some listed name exactly when the repo it lies in is listed. */
  lemma InSomeRepoIsListed(prefix: string, repos: seq<string>, path: string)
    requires SelfContained(repos)
    ensures InSomeRepo(prefix, repos, path) <==>
            prefix + "/" <= path && RepoOf(prefix, path).Some? && RepoOf(prefix, path).value in repos
  {
    if i :| 0 <= i < |repos| && InRepo(prefix, repos[i], path) {
      InHead(prefix, repos[i], path);
      InRepoIsRepoOf(prefix, Head(repos[i]), path);
    }
    if prefix + "/" <= path && RepoOf(prefix, path).Some? && RepoOf(prefix, path).value in repos {
      var i :| 0 <= i < |repos| && repos[i] == RepoOf(prefix, path).value;
      InRepoIsRepoOf(prefix, repos[i], path);
    }
  }

  /** What the listed repos of a policy say about a path. */
  lemma ListedReposDecide(rules: Rules, identity: Identity, prefix: string, path: string)
    requires identity.IsAuthenticated() && SelfContained(PolicyFor(rules, identity).1)
    ensures var (deny, repos) := PolicyFor(rules, identity);
            PathPermitted(rules, identity, prefix, path) <==>
              if deny then prefix + "/" <= path && !InSomeRepo(prefix, repos, path) else InSomeRepo(prefix, repos, path)
  {
    InSomeRepoIsListed(prefix, PolicyFor(rules, identity).1, path);
    if prefix + "/" <= path && RepoOf(prefix, path).Some? {
      PolicyForIsIsPermitted(rules, identity, RepoOf(prefix, path).value);
    }
  }

  /** Which statements apply to getting an object. */
  lemma ObjectStatements(bucket: string, prefix: string, deny: bool, repos: seq<string>, key: string)
    requires Plain(GLOB, bucket) && Plain(GLOB, prefix) && SelfContained(repos)
    ensures var policy, r := Policy(bucket, prefix, deny, repos), GetObject(bucket, key);
            && (SomeApplies(policy, Allow, r) <==> if deny then prefix + "/" <= key else InSomeRepo(prefix, repos, key))
            && (SomeApplies(policy, Deny, r) <==> deny && InSomeRepo(prefix, repos, key))
  {
    var policy, r := Policy(bucket, prefix, deny, repos), GetObject(bucket, key);
    ObjectArnsMatch(bucket, prefix, repos, key);
    if deny {
      WholeArnMatches(bucket, prefix, key);
      assert Applies(policy[0], r) <==> prefix + "/" <= key;
      if repos != [] {
        assert Applies(policy[2], r) <==> InSomeRepo(prefix, repos, key);
      }
    } else {
      assert Applies(policy[0], r) <==> InSomeRepo(prefix, repos, key);
    }
  }

  lemma RepoListingApplies(effect: Effect, bucket: string, prefix: string, repos: seq<string>, listed: Option<string>)
    requires Plain(GLOB, bucket) && Plain(GLOB, prefix) && SelfContained(repos)
    ensures Applies(RepoStatements(effect, bucket, prefix, repos)[1], ListBucket(bucket, listed)) <==>
            listed.Some? && InSomeRepo(prefix, repos, listed.value)
  {
    PlainMatches(GLOB, ARN + bucket, ARN + bucket);
    if listed.Some? { ListPrefixesMatch(prefix, repos, listed.value); }
  }

  lemma WholeListingApplies(bucket: string, prefix: string, listed: Option<string>)
    requires Plain(GLOB, bucket) && Plain(GLOB, prefix)
    ensures Applies(Policy(bucket, prefix, true, [])[1], ListBucket(bucket, listed)) <==>
            listed.Some? && prefix + "/" <= listed.value
  {
    PlainMatches(GLOB, ARN + bucket, ARN + bucket);
    if listed.Some? { WholePrefixMatches(prefix, listed.value); }
  }

  /** Which statements apply to listing a prefix; a listing without one satisfies no condition. */
  lemma ListingStatements(bucket: string, prefix: string, deny: bool, repos: seq<string>, listed: Option<string>)
    requires Plain(GLOB, bucket) && Plain(GLOB, prefix) && SelfContained(repos)
    ensures var policy, r := Policy(bucket, prefix, deny, repos), ListBucket(bucket, listed);
            && (SomeApplies(policy, Allow, r) <==>
                  listed.Some? && if deny then prefix + "/" <= listed.value else InSomeRepo(prefix, repos, listed.value))
            && (SomeApplies(policy, Deny, r) <==> listed.Some? && deny && InSomeRepo(prefix, repos, listed.value))
  {
    var policy, r := Policy(bucket, prefix, deny, repos), ListBucket(bucket, listed);
    if deny {
      WholeListingApplies(bucket, prefix, listed);
      assert policy[1] == Policy(bucket, prefix, true, [])[1];
      if repos != [] {
        RepoListingApplies(Deny, bucket, prefix, repos, listed);
        assert policy[3] == RepoStatements(Deny, bucket, prefix, repos)[1];
      }
    } else {
      RepoListingApplies(Allow, bucket, prefix, repos, listed);
    }
  }

  /** IAM lets a user's policy get an object exactly when the rules let the user read the repo it lies in. */
  lemma PolicyMeansRulesForObjects(rules: Rules, identity: Identity, bucket: string, prefix: string, key: string)
    requires identity.IsAuthenticated() && Sane(rules, identity, bucket, prefix)
    ensures Allows(PolicyOf(rules, identity, bucket, prefix), GetObject(bucket, key)) <==>
            PathPermitted(rules, identity, prefix, key)
  {
    var (deny, repos) := PolicyFor(rules, identity);
    ListedReposDecide(rules, identity, prefix, key);
    ObjectStatements(bucket, prefix, deny, repos, key);
  }

  /** IAM lets a user's policy list a prefix exactly when the rules let the user read what lies under it. */
  lemma PolicyMeansRulesForListings(rules: Rules, identity: Identity, bucket: string, prefix: string, listed: Option<string>)
    requires identity.IsAuthenticated() && Sane(rules, identity, bucket, prefix)
    ensures Allows(PolicyOf(rules, identity, bucket, prefix), ListBucket(bucket, listed)) <==>
            listed.Some? && PathPermitted(rules, identity, prefix, listed.value)
  {
    var (deny, repos) := PolicyFor(rules, identity);
    ListedReposDecide(rules, identity, prefix, if listed.Some? then listed.value else "");
    ListingStatements(bucket, prefix, deny, repos, listed);
  }

  /** The two modes agree with the rules repo by repo: for any suffix, get and list in a repo iff it may be read. */
  lemma PolicyMeansRules(rules: Rules, identity: Identity, bucket: string, prefix: string, repo: string, suffix: string)
    requires identity.IsAuthenticated() && Sane(rules, identity, bucket, prefix) && '/' !in repo
    ensures var path := RepoPrefix(prefix, repo) + suffix;
            && (Allows(PolicyOf(rules, identity, bucket, prefix), GetObject(bucket, path)) <==>
                  IsPermitted(rules, identity, Repos, repo))
            && (Allows(PolicyOf(rules, identity, bucket, prefix), ListBucket(bucket, Some(path))) <==>
                  IsPermitted(rules, identity, Repos, repo))
    ensures repo in rules.repos ==>
              (Allows(PolicyOf(rules, identity, bucket, prefix), GetObject(bucket, RepoPrefix(prefix, repo) + suffix)) <==>
                 exists i, j :: 0 <= i < |rules.repos[repo]| && 0 <= j < |identity.roles| &&
                                rules.repos[repo][i] == identity.roles[j])
  {
    PermittedExactly(rules, identity, Repos, repo);
    var path := RepoPrefix(prefix, repo) + suffix;
    InRepoIsRepoOf(prefix, repo, path);
    PolicyMeansRulesForObjects(rules, identity, bucket, prefix, path);
    PolicyMeansRulesForListings(rules, identity, bucket, prefix, Some(path));
  }

  /** No policy of either mode allows any other action, such as a write. */
  lemma PolicyIsReadOnly(bucket: string, prefix: string, denyMode: bool, repos: seq<string>, r: Request)
    requires r.action.OtherAction?
    ensures !Allows(Policy(bucket, prefix, denyMode, repos), r)
  {
  }

  /** A pattern inside one bucket matches nothing in another. */
  lemma OtherBucketsKey(bucket: string, pattern: string, other: string, key: string)
    requires Plain(GLOB, bucket) && '/' !in bucket && '/' !in other && other != bucket
    ensures !Matches(GLOB, ARN + bucket + "/" + pattern, ARN + other + "/" + key)
  {
    PlainPrefix(GLOB, ARN + bucket + "/", pattern, ARN + other + "/" + key);
    assert ARN + bucket + "/" == ARN + (bucket + "/") && ARN + other + "/" + key == ARN + (other + "/" + key);
    PrefixOfPrefixed(ARN, bucket + "/", other + "/" + key);
    FirstSegment(other + "/" + key, bucket);
    FirstSegment(other + "/" + key, other);
    assert other + "/" <= other + "/" + key;
  }

  lemma OtherBucketsObjects(bucket: string, prefix: string, denyMode: bool, repos: seq<string>, other: string, key: string)
    requires Plain(GLOB, bucket) && '/' !in bucket && '/' !in other && other != bucket
    ensures !Allows(Policy(bucket, prefix, denyMode, repos), GetObject(other, key))
  {
    OtherBucketsKey(bucket, prefix + "/*", other, key);
    assert ARN + bucket + "/" + (prefix + "/*") == ARN + bucket + "/" + prefix + "/*";
    forall i | 0 <= i < |repos| ensures !Matches(GLOB, ObjectArn(bucket, prefix, repos[i]), ARN + other + "/" + key) {
      OtherBucketsKey(bucket, RepoPrefix(prefix, repos[i]) + "*", other, key);
      assert ARN + bucket + "/" + (RepoPrefix(prefix, repos[i]) + "*") == ObjectArn(bucket, prefix, repos[i]);
    }
    assert !Applies(Policy(bucket, prefix, denyMode, repos)[0], GetObject(other, key));
  }

  lemma OtherBucketsListing(bucket: string, prefix: string, denyMode: bool, repos: seq<string>,
                            other: string, listed: Option<string>)
    requires Plain(GLOB, bucket) && other != bucket
    ensures !Allows(Policy(bucket, prefix, denyMode, repos), ListBucket(other, listed))
  {
    PlainMatches(GLOB, ARN + bucket, ARN + other);
    PrefixOfPrefixed(ARN, bucket, other);
    PrefixOfPrefixed(ARN, other, bucket);
    assert !Applies(Policy(bucket, prefix, denyMode, repos)[1], ListBucket(other, listed));
  }

  /** Policies do not reach other buckets, whatever the prefix and the listed names. */
  lemma PolicyStaysInItsBucket(bucket: string, prefix: string, denyMode: bool, repos: seq<string>,
                               other: string, key: string, listed: Option<string>)
    requires Plain(GLOB, bucket) && '/' !in bucket && '/' !in other && other != bucket
    ensures !Allows(Policy(bucket, prefix, denyMode, repos), GetObject(other, key))
    ensures !Allows(Policy(bucket, prefix, denyMode, repos), ListBucket(other, listed))
  {
    OtherBucketsObjects(bucket, prefix, denyMode, repos, other, key);
    OtherBucketsListing(bucket, prefix, denyMode, repos, other, listed);
  }

  /** A listed name's pattern means the repo of that name exactly when the name is free of wildcards. */
  lemma NamePatternIsExact(bucket: string, prefix: string, repo: string)
    requires Plain(GLOB, bucket) && Plain(GLOB, prefix)
    ensures (forall key :: Matches(GLOB, ObjectArn(bucket, prefix, repo), ARN + bucket + "/" + key) <==>
                           InRepo(prefix, repo, key))
            <==> Plain(GLOB, repo)
  {
    if Plain(GLOB, repo) {
      forall key
        ensures Matches(GLOB, ObjectArn(bucket, prefix, repo), ARN + bucket + "/" + key) <==> InRepo(prefix, repo, key)
      {
        ObjectArnMatches(bucket, prefix, repo, key);
        PatternCoversRepo(prefix, repo, key);
      }
    } else {
      var key, i := WildcardOverreaches(GLOB, RepoPrefix(prefix, repo));
      ObjectArnMatches(bucket, prefix, repo, key);
      assert !InRepo(prefix, repo, key);
    }
  }
}
