/** The session policy as compact JSON, its exact length, and which rules fit AWS's limit. */
module PolicyJson {
  import opened Common
  import opened SessionPolicy

  const MAX_SESSION_POLICY_CHARS := 2048

  // ----- json.dumps(policy, separators=(",", ":")) -----

  function HexDigit(d: nat): char
    requires d < 16
  {
    "0123456789abcdef"[d]
  }

  /** Four hexadecimal digits. */
  function Hex4(n: nat): string {
    [HexDigit(n / 4096 % 16), HexDigit(n / 256 % 16), HexDigit(n / 16 % 16), HexDigit(n % 16)]
  }

  function UnicodeEscape(n: nat): string {
    "\\u" + Hex4(n)
  }

  predicate IsPlain(c: char) {
    ' ' <= c <= '~' && c != '"' && c != '\\'
  }

  function EscapeChar(c: char): string {
    if IsPlain(c) then [c] else EscapeSpecial(c)
  }

  function EscapeSpecial(c: char): string {
    if c == '"' then "\\\""
    else if c == '\\' then "\\\\"
    else if c == '\n' then "\\n"
    else if c == '\r' then "\\r"
    else if c == '\t' then "\\t"
    else if c == '\U{8}' then "\\b"
    else if c == '\U{C}' then "\\f"
    else if (c as int) < 0x1_0000 then UnicodeEscape(c as int)
    else UnicodeEscape(0xD800 + (c as int - 0x1_0000) / 0x400) + UnicodeEscape(0xDC00 + (c as int - 0x1_0000) % 0x400)
  }

  function Escape(s: string): string {
    if s == "" then "" else EscapeChar(s[0]) + Escape(s[1..])
  }

  function Quote(s: string): string {
    "\"" + Escape(s) + "\""
  }

  function JoinQuoted(items: seq<string>): string {
    if items == [] then ""
    else if |items| == 1 then Quote(items[0])
    else Quote(items[0]) + "," + JoinQuoted(items[1..])
  }

  function ListJson(items: seq<string>): string {
    "[" + JoinQuoted(items) + "]"
  }

  function EffectName(effect: Effect): string {
    match effect
    case Allow => "Allow"
    case Deny => "Deny"
  }

  function ActionName(action: Action): string {
    match action
    case GetObjectAction => "s3:GetObject"
    case ListBucketAction => "s3:ListBucket"
    case OtherAction(name) => name
  }

  function ResourceJson(resource: Resource): string {
    match resource
    case One(arn) => Quote(arn)
    case Many(arns) => ListJson(arns)
  }

  function ConditionJson(prefixes: Option<seq<string>>): string {
    match prefixes
    case None => ""
    case Some(patterns) => ",\"Condition\":{\"StringLike\":{\"s3:prefix\":" + ListJson(patterns) + "}}"
  }

  function StatementText(effect: string, action: string, resource: string, condition: string): string {
    "{\"Effect\":" + effect + ",\"Action\":" + action + ",\"Resource\":" + resource + condition + "}"
  }

  function StatementJson(st: Statement): string {
    StatementText(Quote(EffectName(st.effect)), Quote(ActionName(st.action)), ResourceJson(st.resource),
                  ConditionJson(st.prefixes))
  }

  function JoinStatements(statements: seq<Statement>): string {
    if statements == [] then ""
    else if |statements| == 1 then StatementJson(statements[0])
    else StatementJson(statements[0]) + "," + JoinStatements(statements[1..])
  }

  function PolicyToJson(statements: seq<Statement>): string {
    "{\"Version\":\"2012-10-17\",\"Statement\":[" + JoinStatements(statements) + "]}"
  }

  /** Before calling STS: the serialized policy, or its length when it is too large. */
  function CheckedPolicy(statements: seq<Statement>): Result<string, nat> {
    var json := PolicyToJson(statements);
    if |json| > MAX_SESSION_POLICY_CHARS then Err(|json|) else Ok(json)
  }

  // ----- Lengths -----

  /** The length of a string once escaped; its own length for printable ASCII without quotes and backslashes. */
  function Width(s: string): nat {
    |Escape(s)|
  }

  predicate EscapeFree(s: string) {
    forall c :: c in s ==> IsPlain(c)
  }

  lemma {:induction false} EscapeFreeWidth(s: string)
    requires EscapeFree(s)
    ensures Escape(s) == s
  {
    if s != "" {
      assert s[0] in s && s == [s[0]] + s[1..];
      assert EscapeFree(s[1..]) by {
        forall c | c in s[1..] ensures c in s { }
      }
      EscapeFreeWidth(s[1..]);
    }
  }

  /** Printable ASCII stands for itself but for quote and backslash; other characters take 2, 6 or 12. */
  lemma CharWidths(c: char)
    ensures ' ' <= c <= '~' && c != '"' && c != '\\' ==> EscapeChar(c) == [c]
    ensures !(' ' <= c <= '~') || c == '"' || c == '\\' ==>
              |EscapeChar(c)| == if c == '"' || c == '\\' || '\U{8}' <= c <= '\U{A}' || c == '\U{C}' || c == '\U{D}' then 2
                                 else if (c as int) < 0x1_0000 then 6 else 12
  {
  }

  lemma {:induction false} WidthAdds(a: string, b: string)
    ensures Width(a + b) == Width(a) + Width(b)
  {
    if a == "" {
      assert a + b == b;
    } else {
      assert (a + b)[1..] == a[1..] + b;
      WidthAdds(a[1..], b);
    }
  }

  /** What the quoted items add to a list, one separator each. */
  function ItemsWidth(items: seq<string>): nat {
    if items == [] then 0 else 3 + Width(items[0]) + ItemsWidth(items[1..])
  }

  lemma {:induction false} JoinQuotedLength(items: seq<string>)
    ensures items != [] ==> |JoinQuoted(items)| == ItemsWidth(items) - 1
  {
    if |items| > 1 { JoinQuotedLength(items[1..]); }
  }

  lemma {:induction false} ItemsWidthAdds(a: seq<string>, b: seq<string>)
    ensures ItemsWidth(a + b) == ItemsWidth(a) + ItemsWidth(b)
  {
    if a == [] {
      assert a + b == b;
    } else {
      assert (a + b)[1..] == a[1..] + b;
      ItemsWidthAdds(a[1..], b);
    }
  }

  /** What one repo adds to the policy, in either mode: three patterns, quotes and separators. */
  function RepoWidth(bucket: string, prefix: string, repo: string): nat {
    31 + Width(bucket) + 3 * Width(prefix) + 3 * Width(repo)
  }

  function ReposWidth(bucket: string, prefix: string, repos: seq<string>): nat {
    if repos == [] then 0
    else ReposWidth(bucket, prefix, repos[..|repos| - 1]) + RepoWidth(bucket, prefix, Last(repos))
  }

  lemma WidthAdds5(a: string, b: string, c: string, d: string, e: string)
    ensures Width(a + b + c + d + e) == Width(a) + Width(b) + Width(c) + Width(d) + Width(e)
  {
    WidthAdds(a, b);
    WidthAdds(a + b, c);
    WidthAdds(a + b + c, d);
    WidthAdds(a + b + c + d, e);
  }

  lemma SlashWidth()
    ensures Width("/") == 1
  {
  }

  lemma StarWidth()
    ensures Width("*") == 1
  {
  }

  lemma RepoPrefixWidth(prefix: string, repo: string)
    ensures Width(RepoPrefix(prefix, repo)) == 2 + Width(prefix) + Width(repo)
  {
    SlashWidth();
    WidthAdds(prefix, "/");
    WidthAdds(prefix + "/", repo);
    WidthAdds(prefix + "/" + repo, "/");
  }

  lemma ObjectArnWidth(bucket: string, prefix: string, repo: string)
    ensures Width(ObjectArn(bucket, prefix, repo)) == 17 + Width(bucket) + Width(prefix) + Width(repo)
  {
    var arn := ARN;
    assert EscapeFree(arn);
    EscapeFreeWidth(arn);
    SlashWidth();
    StarWidth();
    RepoPrefixWidth(prefix, repo);
    WidthAdds5(arn, bucket, "/", RepoPrefix(prefix, repo), "*");
  }

  lemma TwoItemsWidth(a: string, star: string)
    requires Width(star) == 1
    ensures ItemsWidth([a, a + star]) == 7 + 2 * Width(a)
  {
    WidthAdds(a, star);
    assert [a, a + star][1..] == [a + star] && [a + star][1..] == [];
    assert ItemsWidth([a + star]) == 3 + Width(a + star);
  }

  lemma ObjectArnsAppend(bucket: string, prefix: string, init: seq<string>, repo: string)
    ensures ItemsWidth(ObjectArns(bucket, prefix, init + [repo])) ==
            ItemsWidth(ObjectArns(bucket, prefix, init)) + 20 + Width(bucket) + Width(prefix) + Width(repo)
  {
    var arn := ObjectArn(bucket, prefix, repo);
    assert ObjectArns(bucket, prefix, init + [repo]) == ObjectArns(bucket, prefix, init) + [arn];
    ItemsWidthAdds(ObjectArns(bucket, prefix, init), [arn]);
    ObjectArnWidth(bucket, prefix, repo);
    assert [arn][1..] == [];
  }

  lemma ListPrefixesAppend(prefix: string, init: seq<string>, repo: string)
    ensures ItemsWidth(ListPrefixes(prefix, init + [repo])) ==
            ItemsWidth(ListPrefixes(prefix, init)) + 7 + 2 * Width(RepoPrefix(prefix, repo))
  {
    var repos, star := init + [repo], "*";
    assert repos[..|repos| - 1] == init && Last(repos) == repo;
    StarWidth();
    TwoItemsWidth(RepoPrefix(prefix, repo), star);
    ItemsWidthAdds(ListPrefixes(prefix, init), [RepoPrefix(prefix, repo), RepoPrefix(prefix, repo) + star]);
  }

  lemma {:induction false} ObjectArnsWidth(bucket: string, prefix: string, repos: seq<string>)
    ensures ItemsWidth(ObjectArns(bucket, prefix, repos)) + ItemsWidth(ListPrefixes(prefix, repos)) ==
            ReposWidth(bucket, prefix, repos)
  {
    if repos != [] {
      var init, repo := repos[..|repos| - 1], Last(repos);
      assert repos == init + [repo];
      ObjectArnsWidth(bucket, prefix, init);
      ObjectArnsAppend(bucket, prefix, init, repo);
      ListPrefixesAppend(prefix, init, repo);
      RepoPrefixWidth(prefix, repo);
    }
  }

  // ----- Statements -----

  lemma PlainTextWidth(text: string, n: nat)
    requires EscapeFree(text) && |text| == n
    ensures |Quote(text)| == n + 2
  {
    EscapeFreeWidth(text);
  }

  lemma EffectWidth(effect: Effect)
    ensures |Quote(EffectName(effect))| == if effect == Allow then 7 else 6
  {
    var name := EffectName(effect);
    assert EscapeFree(name);
    PlainTextWidth(name, if effect == Allow then 5 else 4);
  }

  lemma ActionWidth(action: Action)
    requires !action.OtherAction?
    ensures |Quote(ActionName(action))| == if action == GetObjectAction then 14 else 15
  {
    var name := ActionName(action);
    assert EscapeFree(name);
    PlainTextWidth(name, if action == GetObjectAction then 12 else 13);
  }

  function ListLength(items: seq<string>): nat {
    2 + if items == [] then 0 else ItemsWidth(items) - 1
  }

  function ResourceLength(resource: Resource): nat {
    match resource
    case One(arn) => 2 + Width(arn)
    case Many(arns) => ListLength(arns)
  }

  function StatementLength(st: Statement): nat {
    33 + (if st.effect == Allow then 7 else 6) + (if st.action == GetObjectAction then 14 else 15) +
    ResourceLength(st.resource) + ConditionLength(st.prefixes)
  }

  lemma StatementTextLength(effect: string, action: string, resource: string, condition: string)
    ensures |StatementText(effect, action, resource, condition)| ==
            33 + |effect| + |action| + |resource| + |condition|
  {
  }

  lemma ResourceJsonLength(resource: Resource)
    ensures |ResourceJson(resource)| == ResourceLength(resource)
  {
    if resource.Many? { JoinQuotedLength(resource.arns); }
  }

  function ConditionLength(prefixes: Option<seq<string>>): nat {
    if prefixes.None? then 0 else 42 + ListLength(prefixes.value)
  }

  lemma ConditionJsonLength(prefixes: Option<seq<string>>)
    ensures |ConditionJson(prefixes)| == ConditionLength(prefixes)
  {
    if prefixes.Some? { JoinQuotedLength(prefixes.value); }
  }

  lemma StatementJsonLength(st: Statement)
    requires !st.action.OtherAction?
    ensures |StatementJson(st)| == StatementLength(st)
  {
    EffectWidth(st.effect);
    ActionWidth(st.action);
    ResourceJsonLength(st.resource);
    ConditionJsonLength(st.prefixes);
    StatementTextLength(Quote(EffectName(st.effect)), Quote(ActionName(st.action)), ResourceJson(st.resource),
                        ConditionJson(st.prefixes));
  }

  function StatementsLength(statements: seq<Statement>): nat {
    if statements == [] then 0 else StatementLength(statements[0]) + 1 + StatementsLength(statements[1..])
  }

  lemma {:induction false} JoinStatementsLength(statements: seq<Statement>)
    requires statements != [] && forall i :: 0 <= i < |statements| ==> !statements[i].action.OtherAction?
    ensures |JoinStatements(statements)| == StatementsLength(statements) - 1
  {
    StatementJsonLength(statements[0]);
    if |statements| > 1 { JoinStatementsLength(statements[1..]); }
  }

  // ----- The size of a policy -----

  /** What a policy of each mode costs before its repos: for deny mode, the whole-prefix statements as well. */
  function FixedLength(bucket: string, prefix: string, denyMode: bool, someRepos: bool): nat {
    if denyMode then
      if someRepos then 402 + 3 * Width(bucket) + 3 * Width(prefix) else 234 + 2 * Width(bucket) + 3 * Width(prefix)
    else if someRepos then 208 + Width(bucket) else 210 + Width(bucket)
  }

  lemma BucketArnWidth(bucket: string)
    ensures Width(ARN + bucket) == 13 + Width(bucket)
  {
    var arn := ARN;
    assert EscapeFree(arn);
    EscapeFreeWidth(arn);
    WidthAdds(arn, bucket);
  }

  lemma TwoStatementsLength(a: Statement, b: Statement)
    ensures StatementsLength([a, b]) == StatementLength(a) + StatementLength(b) + 2
  {
    assert [a, b][1..] == [b] && [b][1..] == [];
    assert StatementsLength([b]) == StatementLength(b) + 1;
  }

  lemma {:induction false} StatementsLengthAdds(a: seq<Statement>, b: seq<Statement>)
    ensures StatementsLength(a + b) == StatementsLength(a) + StatementsLength(b)
  {
    if a == [] {
      assert a + b == b;
    } else {
      assert (a + b)[1..] == a[1..] + b;
      StatementsLengthAdds(a[1..], b);
    }
  }

  lemma ListsAreBothEmptyOrNot(bucket: string, prefix: string, repos: seq<string>)
    ensures ObjectArns(bucket, prefix, repos) == [] <==> repos == []
    ensures ListPrefixes(prefix, repos) == [] <==> repos == []
  {
  }

  lemma RepoStatementsLength(effect: Effect, bucket: string, prefix: string, repos: seq<string>)
    ensures StatementsLength(RepoStatements(effect, bucket, prefix, repos)) ==
            (if effect == Allow then 172 else 170) + Width(bucket) + ReposWidth(bucket, prefix, repos) -
            if repos == [] then 0 else 2
  {
    var arns, prefixes, bucketArn := ObjectArns(bucket, prefix, repos), ListPrefixes(prefix, repos), ARN + bucket;
    BucketArnWidth(bucket);
    ObjectArnsWidth(bucket, prefix, repos);
    ListsAreBothEmptyOrNot(bucket, prefix, repos);
    TwoStatementsLength(Statement(effect, GetObjectAction, Many(arns), None),
                        Statement(effect, ListBucketAction, One(bucketArn), Some(prefixes)));
  }

  lemma WholePrefixLength(bucket: string, prefix: string, arn: string, key: string, slash: string, star: string)
    requires Width(arn) == 13 + Width(bucket) && Width(slash) == 1 && Width(star) == 1
    requires key == arn + slash + prefix + slash + star
    ensures StatementsLength([Statement(Allow, GetObjectAction, One(key), None),
                              Statement(Allow, ListBucketAction, One(arn), Some([prefix + slash, prefix + slash + star]))])
            == 196 + 2 * Width(bucket) + 3 * Width(prefix)
  {
    WidthAdds5(arn, slash, prefix, slash, star);
    WidthAdds(prefix, slash);
    TwoItemsWidth(prefix + slash, star);
    TwoStatementsLength(Statement(Allow, GetObjectAction, One(key), None),
                        Statement(Allow, ListBucketAction, One(arn), Some([prefix + slash, prefix + slash + star])));
  }

  lemma PolicyStatementsLength(bucket: string, prefix: string, denyMode: bool, repos: seq<string>)
    ensures StatementsLength(Policy(bucket, prefix, denyMode, repos)) + 38 ==
            FixedLength(bucket, prefix, denyMode, repos != []) + ReposWidth(bucket, prefix, repos)
  {
    RepoStatementsLength(Allow, bucket, prefix, repos);
    RepoStatementsLength(Deny, bucket, prefix, repos);
    if denyMode {
      BucketArnWidth(bucket);
      SlashWidth();
      StarWidth();
      var arn, slash, star := ARN + bucket, "/", "*";
      var key := arn + slash + prefix + slash + star;
      WholePrefixLength(bucket, prefix, arn, key, slash, star);
      var whole := [Statement(Allow, GetObjectAction, One(key), None),
                    Statement(Allow, ListBucketAction, One(arn), Some([prefix + slash, prefix + slash + star]))];
      assert key == ARN + bucket + "/" + prefix + "/*" && prefix + slash + star == prefix + "/*";
      StatementsLengthAdds(whole, RepoStatements(Deny, bucket, prefix, repos));
      assert whole + [] == whole;
    }
  }

  lemma PolicyActions(bucket: string, prefix: string, denyMode: bool, repos: seq<string>)
    ensures var statements := Policy(bucket, prefix, denyMode, repos);
            statements != [] && forall i :: 0 <= i < |statements| ==> !statements[i].action.OtherAction?
  {
  }

  /** The compact policy's length: a constant of the mode plus a sum over the listed repos, and nothing else. */
  lemma PolicyLength(bucket: string, prefix: string, denyMode: bool, repos: seq<string>)
    ensures |PolicyToJson(Policy(bucket, prefix, denyMode, repos))| ==
            FixedLength(bucket, prefix, denyMode, repos != []) + ReposWidth(bucket, prefix, repos)
  {
    PolicyStatementsLength(bucket, prefix, denyMode, repos);
    var statements := Policy(bucket, prefix, denyMode, repos);
    assert statements != [] && forall i :: 0 <= i < |statements| ==> !statements[i].action.OtherAction? by {
      PolicyActions(bucket, prefix, denyMode, repos);
    }
    JoinStatementsLength(statements);
  }

  /** The check before STS accepts exactly the policies whose mode constant and repos stay within the limit. */
  lemma AcceptedExactly(bucket: string, prefix: string, denyMode: bool, repos: seq<string>)
    ensures CheckedPolicy(Policy(bucket, prefix, denyMode, repos)).Ok? <==>
            FixedLength(bucket, prefix, denyMode, repos != []) + ReposWidth(bucket, prefix, repos) <= MAX_SESSION_POLICY_CHARS
  {
    PolicyLength(bucket, prefix, denyMode, repos);
  }

  lemma {:induction false} ReposWidthBound(bucket: string, prefix: string, repos: seq<string>, longest: nat, each: nat)
    requires each == 31 + Width(bucket) + 3 * Width(prefix) + 3 * longest
    requires forall i :: 0 <= i < |repos| ==> Width(repos[i]) <= longest
    ensures ReposWidth(bucket, prefix, repos) <= |repos| * each
    ensures (forall i :: 0 <= i < |repos| ==> Width(repos[i]) == longest) ==>
              ReposWidth(bucket, prefix, repos) == |repos| * each
  {
    if repos != [] {
      ReposWidthBound(bucket, prefix, repos[..|repos| - 1], longest, each);
      assert |repos| * each == (|repos| - 1) * each + each;
    }
  }

  /** How many repo rules always fit, given the longest repo name; that many more of that length do not. */
  lemma RulesThatFit(bucket: string, prefix: string, denyMode: bool, repos: seq<string>, longest: nat, count: nat)
    requires forall i :: 0 <= i < |repos| ==> Width(repos[i]) <= longest
    requires repos != [] && count > 0
    requires var each := 31 + Width(bucket) + 3 * Width(prefix) + 3 * longest;
             var fixed := FixedLength(bucket, prefix, denyMode, true);
             fixed + count * each <= MAX_SESSION_POLICY_CHARS < fixed + (count + 1) * each
    ensures |repos| <= count ==> CheckedPolicy(Policy(bucket, prefix, denyMode, repos)).Ok?
    ensures |repos| > count && (forall i :: 0 <= i < |repos| ==> Width(repos[i]) == longest) ==>
              CheckedPolicy(Policy(bucket, prefix, denyMode, repos)).Err?
  {
    var each := 31 + Width(bucket) + 3 * Width(prefix) + 3 * longest;
    ReposWidthBound(bucket, prefix, repos, longest, each);
    var size := FixedLength(bucket, prefix, denyMode, true) + ReposWidth(bucket, prefix, repos);
    if |repos| <= count {
      MultiplyKeepsOrder(|repos|, count, each);
      assert size <= MAX_SESSION_POLICY_CHARS;
    } else {
      MultiplyKeepsOrder(count + 1, |repos|, each);
      assert ReposWidth(bucket, prefix, repos) == |repos| * each ==> size > MAX_SESSION_POLICY_CHARS;
    }
    AcceptedExactly(bucket, prefix, denyMode, repos);
  }

  lemma MultiplyKeepsOrder(m: nat, n: nat, each: nat)
    requires m <= n
    ensures m * each <= n * each
  {
  }

  /** With a 36-character bucket, a 16-character prefix and 18-character names: eight rules in deny mode, ten in allow mode. */
  lemma RulesThatFitDeployed(bucket: string, prefix: string, denyMode: bool, repos: seq<string>)
    requires Width(bucket) == 36 && Width(prefix) == 16 && repos != []
    requires forall i :: 0 <= i < |repos| ==> Width(repos[i]) == 18
    ensures CheckedPolicy(Policy(bucket, prefix, denyMode, repos)).Ok? <==> |repos| <= if denyMode then 8 else 10
  {
    RulesThatFit(bucket, prefix, denyMode, repos, 18, if denyMode then 8 else 10);
  }
}
