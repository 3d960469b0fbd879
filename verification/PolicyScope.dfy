/** Which rules a session policy can express: the exact condition on the listed names for it to mean the rules. */
module PolicyScope {
  import opened Common
  import opened Wildcards
  import opened AccessRules
  import opened SessionPolicy
  import opened PolicyJson

  /** Inside a repo, whatever the suffix, getting and listing are allowed exactly when the repo may be read. */
  ghost predicate MeansRules(rules: Rules, identity: Identity, bucket: string, prefix: string, repo: string) {
    forall suffix ::
      RepoDecided(PolicyOf(rules, identity, bucket, prefix), bucket, RepoPrefix(prefix, repo) + suffix,
                  IsPermitted(rules, identity, Repos, repo))
  }

  ghost predicate RepoDecided(policy: seq<Statement>, bucket: string, path: string, permitted: bool) {
    && (Allows(policy, GetObject(bucket, path)) <==> permitted)
    && (Allows(policy, ListBucket(bucket, Some(path))) <==> permitted)
  }

  // ----- A policy that passes the size check lists few repos -----

  lemma {:induction false} ReposWidthAtLeast(bucket: string, prefix: string, repos: seq<string>)
    ensures ReposWidth(bucket, prefix, repos) >= 31 * |repos|
  {
    if repos != [] { ReposWidthAtLeast(bucket, prefix, repos[..|repos| - 1]); }
  }

  lemma FewRepos(bucket: string, prefix: string, denyMode: bool, repos: seq<string>)
    requires CheckedPolicy(Policy(bucket, prefix, denyMode, repos)).Ok?
    ensures |repos| <= 66
  {
    AcceptedExactly(bucket, prefix, denyMode, repos);
    ReposWidthAtLeast(bucket, prefix, repos);
  }

  /** One of the texts that differ from `text` in one place only is not in a short list. */
  lemma {:induction false} UnlistedVariant(text: string, at: nat, listed: seq<string>) returns (k: nat)
    requires at < |text| && |listed| <= 66
    ensures k <= |listed| && text[at := VariantChar(k)] !in listed
  {
    k := |listed|;
    if text[at := VariantChar(k)] in listed {
      var i :| 0 <= i < |listed| && listed[i] == text[at := VariantChar(k)];
      k := UnlistedVariant(text, at, listed[..i] + listed[i + 1..]);
      assert text[at := VariantChar(k)][at] != listed[i][at];
    }
  }

  /** Distinct characters other than the slash. */
  function VariantChar(k: nat): char
    requires k <= 66
  {
    ('0' as int + k) as char
  }

  // ----- A name whose head is not listed, or has a wildcard, reaches into an unlisted repo -----

  lemma UnlistedRepo(head: string, repos: seq<string>) returns (repo: string)
    requires '/' !in head && |repos| <= 66
    requires !(Plain(GLOB, head) && head in repos)
    ensures '/' !in repo && repo !in repos && |repo| == |head| && Covers(GLOB, head, repo)
  {
    if Plain(GLOB, head) {
      repo := head;
    } else {
      var at :| 0 <= at < |head| && (head[at] == '*' || head[at] == '?');
      var k := UnlistedVariant(head, at, repos);
      repo := head[at := VariantChar(k)];
    }
  }

  lemma CoversInside(w: Syntax, before: string, literal: string, s: string, after: string)
    requires |literal| == |s| && Covers(w, literal, s)
    ensures Covers(w, before + literal + after, before + s + after)
  {
  }

  lemma NameReaches(prefix: string, name: string, repo: string) returns (suffix: string)
    requires |repo| == |Head(name)| && Covers(GLOB, Head(name), repo)
    ensures Matches(GLOB, RepoPrefix(prefix, name) + "*", RepoPrefix(prefix, repo) + suffix)
  {
    var head := Head(name);
    var rest := (name + "/")[|head|..];
    suffix := rest[1..];
    assert name + "/" == head + rest && rest == "/" + suffix;
    CoversInside(GLOB, prefix + "/", head, repo, rest);
    assert RepoPrefix(prefix, name) == prefix + "/" + head + rest;
    assert RepoPrefix(prefix, repo) + suffix == prefix + "/" + repo + rest;
    CoveredMatches(GLOB, RepoPrefix(prefix, name), RepoPrefix(prefix, repo) + suffix);
  }

  /** A key that a listed name's pattern matches is got in allow mode and refused in deny mode. */
  lemma MatchedKeyIsDecided(bucket: string, prefix: string, denyMode: bool, repos: seq<string>, name: string, key: string)
    requires Plain(GLOB, bucket) && name in repos && Matches(GLOB, RepoPrefix(prefix, name) + "*", key)
    ensures Allows(Policy(bucket, prefix, denyMode, repos), GetObject(bucket, key)) <==> !denyMode
  {
    var policy, r := Policy(bucket, prefix, denyMode, repos), GetObject(bucket, key);
    var i :| 0 <= i < |repos| && repos[i] == name;
    ObjectArnMatches(bucket, prefix, name, key);
    assert Matches(GLOB, ObjectArns(bucket, prefix, repos)[i], r.arn);
    assert Applies(policy[if denyMode then 2 else 0], r);
  }

  lemma StrayNameMisleads(rules: Rules, identity: Identity, bucket: string, prefix: string, name: string)
    returns (repo: string)
    requires identity.IsAuthenticated() && Plain(GLOB, bucket)
    requires CheckedPolicy(PolicyOf(rules, identity, bucket, prefix)).Ok?
    requires var repos := PolicyFor(rules, identity).1;
             name in repos && !(Plain(GLOB, Head(name)) && Head(name) in repos)
    ensures '/' !in repo && !MeansRules(rules, identity, bucket, prefix, repo)
  {
    var (deny, repos) := PolicyFor(rules, identity);
    FewRepos(bucket, prefix, deny, repos);
    repo := UnlistedRepo(Head(name), repos);
    var suffix := NameReaches(prefix, name, repo);
    MatchedKeyIsDecided(bucket, prefix, deny, repos, name, RepoPrefix(prefix, repo) + suffix);
    PolicyForIsIsPermitted(rules, identity, repo);
    assert !RepoDecided(PolicyOf(rules, identity, bucket, prefix), bucket, RepoPrefix(prefix, repo) + suffix,
                        IsPermitted(rules, identity, Repos, repo));
  }

  /**
   * A policy that passes the size check means the rules in every repo exactly when each name it lists begins with
   * a wildcard-free segment that it lists as well, so in particular when all names are wildcard-free segments.
   */
  lemma PolicyMeansRulesExactly(rules: Rules, identity: Identity, bucket: string, prefix: string)
    requires identity.IsAuthenticated() && Plain(GLOB, bucket) && Plain(GLOB, prefix)
    requires CheckedPolicy(PolicyOf(rules, identity, bucket, prefix)).Ok?
    ensures (forall repo :: '/' !in repo ==> MeansRules(rules, identity, bucket, prefix, repo)) <==>
            SelfContained(PolicyFor(rules, identity).1)
  {
    var (deny, repos) := PolicyFor(rules, identity);
    if SelfContained(repos) {
      forall repo, suffix | '/' !in repo
        ensures RepoDecided(PolicyOf(rules, identity, bucket, prefix), bucket, RepoPrefix(prefix, repo) + suffix,
                            IsPermitted(rules, identity, Repos, repo))
      {
        PolicyMeansRules(rules, identity, bucket, prefix, repo, suffix);
      }
    } else {
      var i :| 0 <= i < |repos| && !(Plain(GLOB, Head(repos[i])) && Head(repos[i]) in repos);
      var repo := StrayNameMisleads(rules, identity, bucket, prefix, repos[i]);
    }
  }
}
