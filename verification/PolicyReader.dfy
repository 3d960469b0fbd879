/** What IAM reads in the policy that is sent: a reader of compact JSON policies, and the results restated for it. */
module PolicyReader {
  import opened Common
  import opened AccessRules
  import opened SessionPolicy
  import opened PolicyJson

  // ----- Reading -----

  /** The text after a given beginning. */
  function Expect(text: string, beginning: string): (rest: Option<string>)
    ensures rest.Some? <==> beginning <= text
    ensures rest.Some? ==> text == beginning + rest.value
  {
    if beginning <= text then Some(text[|beginning|..]) else None
  }

  /** The value of a hexadecimal digit. */
  function HexValue(c: char): Option<nat> {
    if '0' <= c <= '9' then Some((c - '0') as nat)
    else if 'a' <= c <= 'f' then Some((c - 'a') as nat + 10)
    else None
  }

  /** The number that four hexadecimal digits write. */
  function ReadHex4(text: string): Option<nat> {
    if |text| < 4 then None
    else
      var a, b, c, d := HexValue(text[0]), HexValue(text[1]), HexValue(text[2]), HexValue(text[3]);
      if a.Some? && b.Some? && c.Some? && d.Some?
      then Some(4096 * a.value + 256 * b.value + 16 * c.value + d.value) else None
  }

  /** A code point that is not a surrogate. */
  function CharOf(n: nat): Option<char> {
    if n < 0xD800 || 0xE000 <= n < 0x11_0000 then Some(n as char) else None
  }

  /** `\uXXXX` after its backslash and `u`, or a pair of them for a character beyond the first 65536. */
  function ReadUnicode(text: string): Option<(char, string)> {
    var n := ReadHex4(text);
    if n.None? then None
    else if 0xD800 <= n.value < 0xDC00 then
      if |text| < 10 || text[4] != '\\' || text[5] != 'u' then None
      else
        var low := ReadHex4(text[6..]);
        if low.None? || !(0xDC00 <= low.value < 0xE000) then None
        else
          var c := CharOf(0x1_0000 + (n.value - 0xD800) * 0x400 + (low.value - 0xDC00));
          if c.None? then None else Some((c.value, text[10..]))
    else
      var c := CharOf(n.value);
      if c.None? then None else Some((c.value, text[4..]))
  }

  /** One character of a JSON string, and the text after it. */
  function ReadChar(text: string): (r: Option<(char, string)>)
    ensures r.Some? ==> |r.value.1| < |text|
  {
    if text == "" || text[0] == '"' then None
    else if text[0] != '\\' then Some((text[0], text[1..]))
    else if |text| == 1 then None
    else
      match text[1]
      case '"' => Some(('"', text[2..]))
      case '\\' => Some(('\\', text[2..]))
      case 'n' => Some(('\n', text[2..]))
      case 'r' => Some(('\r', text[2..]))
      case 't' => Some(('\t', text[2..]))
      case 'b' => Some(('\U{8}', text[2..]))
      case 'f' => Some(('\U{C}', text[2..]))
      case 'u' => ReadUnicode(text[2..])
      case _ => None
  }

  /** The rest of a JSON string after its opening quote, and the text after its closing quote. */
  function ReadChars(text: string): (r: Option<(string, string)>)
    ensures r.Some? ==> |r.value.1| < |text|
    decreases |text|
  {
    if text != "" && text[0] == '"' then Some(("", text[1..]))
    else
      var c := ReadChar(text);
      if c.None? then None
      else
        var rest := ReadChars(c.value.1);
        if rest.None? then None else Some(([c.value.0] + rest.value.0, rest.value.1))
  }

  function ReadString(text: string): (r: Option<(string, string)>)
    ensures r.Some? ==> |r.value.1| < |text|
  {
    var inner := Expect(text, "\"");
    if inner.None? then None else ReadChars(inner.value)
  }

  /** The strings of a list that is not empty, up to and with its closing bracket. */
  function ReadItems(text: string): (r: Option<(seq<string>, string)>)
    ensures r.Some? ==> |r.value.1| < |text|
    decreases |text|
  {
    var item := ReadString(text);
    if item.None? then None
    else if item.value.1 != "" && item.value.1[0] == ']' then Some(([item.value.0], item.value.1[1..]))
    else if item.value.1 != "" && item.value.1[0] == ',' then
      var rest := ReadItems(item.value.1[1..]);
      if rest.None? then None else Some(([item.value.0] + rest.value.0, rest.value.1))
    else None
  }

  function ReadList(text: string): (r: Option<(seq<string>, string)>)
    ensures r.Some? ==> |r.value.1| < |text|
  {
    var inner := Expect(text, "[");
    if inner.None? then None
    else if inner.value != "" && inner.value[0] == ']' then Some(([], inner.value[1..]))
    else ReadItems(inner.value)
  }

  function ReadResource(text: string): (r: Option<(Resource, string)>)
    ensures r.Some? ==> |r.value.1| < |text|
  {
    if text != "" && text[0] == '[' then
      var arns := ReadList(text);
      if arns.None? then None else Some((Many(arns.value.0), arns.value.1))
    else
      var arn := ReadString(text);
      if arn.None? then None else Some((One(arn.value.0), arn.value.1))
  }

  function ReadEffect(name: string): Option<Effect> {
    if name == "Allow" then Some(Allow) else if name == "Deny" then Some(Deny) else None
  }

  /** IAM's names of the two actions the model knows. */
  function ReadAction(name: string): Action {
    if name == "s3:GetObject" then GetObjectAction
    else if name == "s3:ListBucket" then ListBucketAction
    else OtherAction(name)
  }

  /** A statement's condition, if it has one, and its closing brace. */
  function ReadCondition(text: string): (r: Option<(Option<seq<string>>, string)>)
    ensures r.Some? ==> |r.value.1| < |text|
  {
    if text != "" && text[0] == '}' then Some((None, text[1..]))
    else
      var inner := Expect(text, ",\"Condition\":{\"StringLike\":{\"s3:prefix\":");
      if inner.None? then None
      else
        var prefixes := ReadList(inner.value);
        if prefixes.None? then None
        else
          var rest := Expect(prefixes.value.1, "}}}");
          if rest.None? then None else Some((Some(prefixes.value.0), rest.value))
  }

  /** A key with its colon, and the string that is its value. */
  function ReadMember(text: string, key: string): (r: Option<(string, string)>)
    ensures r.Some? ==> |r.value.1| < |text|
  {
    var value := Expect(text, key);
    if value.None? then None else ReadString(value.value)
  }

  function ReadStatement(text: string): (r: Option<(Statement, string)>)
    ensures r.Some? ==> |r.value.1| < |text|
  {
    var effect := ReadMember(text, "{\"Effect\":");
    if effect.None? || ReadEffect(effect.value.0).None? then None
    else
      var action := ReadMember(effect.value.1, ",\"Action\":");
      if action.None? then None
      else
        var resourceText := Expect(action.value.1, ",\"Resource\":");
        if resourceText.None? then None
        else
          var resource := ReadResource(resourceText.value);
          if resource.None? then None
          else
            var condition := ReadCondition(resource.value.1);
            if condition.None? then None
            else
              Some((Statement(ReadEffect(effect.value.0).value, ReadAction(action.value.0), resource.value.0,
                              condition.value.0),
                    condition.value.1))
  }

  /** The statements up to and with the end of the document. */
  function ReadStatements(text: string): Option<seq<Statement>>
    decreases |text|
  {
    var first := ReadStatement(text);
    if first.None? then None
    else if first.value.1 == "]}" then Some([first.value.0])
    else if first.value.1 != "" && first.value.1[0] == ',' then
      var rest := ReadStatements(first.value.1[1..]);
      if rest.None? then None else Some([first.value.0] + rest.value)
    else None
  }

  /** The statements a policy document stands for. */
  function ReadPolicy(text: string): Option<seq<Statement>> {
    var statements := Expect(text, "{\"Version\":\"2012-10-17\",\"Statement\":[");
    if statements.None? then None else ReadStatements(statements.value)
  }

  // ----- What was written reads back -----

  lemma ExpectSplits(beginning: string, rest: string)
    ensures Expect(beginning + rest, beginning) == Some(rest)
  {
  }

  lemma HexValueOf(d: nat)
    requires d < 16
    ensures HexValue(HexDigit(d)) == Some(d)
  {
  }

  lemma Digits(n: nat)
    requires n < 0x1_0000
    ensures n == 4096 * (n / 4096 % 16) + 256 * (n / 256 % 16) + 16 * (n / 16 % 16) + n % 16
  {
  }

  lemma Hex4Reads(n: nat, rest: string)
    requires n < 0x1_0000
    ensures ReadHex4(Hex4(n) + rest) == Some(n)
  {
    HexValueOf(n / 4096 % 16);
    HexValueOf(n / 256 % 16);
    HexValueOf(n / 16 % 16);
    HexValueOf(n % 16);
    Digits(n);
  }

  lemma UnicodeReads(n: nat, rest: string)
    requires n < 0xD800 || 0xE000 <= n < 0x1_0000
    ensures ReadUnicode(Hex4(n) + rest) == Some((n as char, rest))
  {
    Hex4Reads(n, rest);
    assert (Hex4(n) + rest)[4..] == rest;
  }

  lemma PairJoins(first: string, second: string, high: nat, low: nat, rest: string)
    requires |first| == 4 && |second| == 4 && 0xD800 <= high < 0xDC00 <= low < 0xE000
    requires ReadHex4(first + ("\\u" + second + rest)) == Some(high) && ReadHex4(second + rest) == Some(low)
    ensures ReadUnicode(first + ("\\u" + second + rest)) ==
            Some(((0x1_0000 + (high - 0xD800) * 0x400 + (low - 0xDC00)) as char, rest))
  {
    var text := first + ("\\u" + second + rest);
    assert text[4] == '\\' && text[5] == 'u' && text[6..] == second + rest && text[10..] == rest;
  }

  lemma PairReads(high: nat, low: nat, rest: string)
    requires high < 0x400 && low < 0x400
    ensures ReadUnicode(Hex4(0xD800 + high) + (UnicodeEscape(0xDC00 + low) + rest)) ==
            Some(((0x1_0000 + high * 0x400 + low) as char, rest))
  {
    var first, second := Hex4(0xD800 + high), Hex4(0xDC00 + low);
    Hex4Reads(0xD800 + high, "\\u" + second + rest);
    Hex4Reads(0xDC00 + low, rest);
    PairJoins(first, second, 0xD800 + high, 0xDC00 + low, rest);
  }

  lemma ReadEscape(escaped: string, rest: string, c: char)
    requires ReadUnicode(escaped + rest) == Some((c, rest))
    ensures ReadChar("\\u" + escaped + rest) == Some((c, rest))
  {
    assert ("\\u" + escaped + rest)[2..] == escaped + rest;
  }

  predicate Short(c: char) {
    c == '"' || c == '\\' || c == '\n' || c == '\r' || c == '\t' || c == '\U{8}' || c == '\U{C}'
  }

  lemma ShortReads(c: char, rest: string)
    requires Short(c)
    ensures |EscapeSpecial(c)| == 2 && EscapeSpecial(c)[0] == '\\' && ReadChar(EscapeSpecial(c) + rest) == Some((c, rest))
  {
    assert (EscapeSpecial(c) + rest)[2..] == rest;
  }

  lemma SpecialReads(c: char, rest: string)
    requires !IsPlain(c) && (c as int) < 0x1_0000
    ensures ReadChar(EscapeSpecial(c) + rest) == Some((c, rest)) && EscapeSpecial(c)[0] == '\\'
  {
    if Short(c) {
      ShortReads(c, rest);
    } else {
      UnicodeReads(c as int, rest);
      ReadEscape(Hex4(c as int), rest, c);
      assert EscapeSpecial(c) == "\\u" + Hex4(c as int);
    }
  }

  lemma SurrogatesJoin(n: nat, high: nat, low: nat)
    requires n < 0x10_0000 && high == n / 0x400 && low == n % 0x400
    ensures high < 0x400 && low < 0x400 && high * 0x400 + low == n
  {
  }

  lemma BeyondEscape(c: char, high: nat, low: nat)
    requires (c as int) >= 0x1_0000 && high == (c as int - 0x1_0000) / 0x400 && low == (c as int - 0x1_0000) % 0x400
    ensures EscapeSpecial(c) == UnicodeEscape(0xD800 + high) + UnicodeEscape(0xDC00 + low)
  {
  }

  lemma EscapedFirst(first: string, second: string, rest: string)
    ensures "\\u" + first + second + rest == "\\u" + (first + second) + rest
    ensures first + second + rest == first + (second + rest)
  {
  }

  lemma BeyondReads(c: char, rest: string)
    requires (c as int) >= 0x1_0000
    ensures ReadChar(EscapeSpecial(c) + rest) == Some((c, rest)) && EscapeSpecial(c)[0] == '\\'
  {
    var high, low := (c as int - 0x1_0000) / 0x400, (c as int - 0x1_0000) % 0x400;
    SurrogatesJoin(c as int - 0x1_0000, high, low);
    BeyondEscape(c, high, low);
    PairReads(high, low, rest);
    var first, second := Hex4(0xD800 + high), UnicodeEscape(0xDC00 + low);
    EscapedFirst(first, second, rest);
    ReadEscape(first + second, rest, c);
  }

  /** Every character reads back from its escape. */
  lemma CharReads(c: char, rest: string)
    ensures ReadChar(EscapeChar(c) + rest) == Some((c, rest)) && EscapeChar(c) != "" && EscapeChar(c)[0] != '"'
  {
    if IsPlain(c) {
      assert EscapeChar(c) + rest == [c] + rest && ([c] + rest)[1..] == rest;
    } else if (c as int) < 0x1_0000 {
      SpecialReads(c, rest);
    } else {
      BeyondReads(c, rest);
    }
  }

  lemma {:induction false} CharsRead(s: string, rest: string)
    ensures ReadChars(Escape(s) + "\"" + rest) == Some((s, rest))
  {
    var text := Escape(s) + "\"" + rest;
    if s == "" {
      assert text[1..] == rest;
    } else {
      var after := Escape(s[1..]) + "\"" + rest;
      assert text == EscapeChar(s[0]) + after;
      CharReads(s[0], after);
      assert text[0] == EscapeChar(s[0])[0];
      CharsRead(s[1..], rest);
      assert [s[0]] + s[1..] == s;
    }
  }

  lemma Regroup(a: string, b: string, c: string, d: string)
    ensures a + b + c + d == a + (b + c + d) && a + b + c + d == a + (b + (c + d))
    ensures a + b + c == a + (b + c)
  {
  }

  lemma StringReads(s: string, rest: string)
    ensures ReadString(Quote(s) + rest) == Some((s, rest)) && Quote(s)[0] == '"'
  {
    var quote := "\"";
    Regroup(quote, Escape(s), quote, rest);
    ExpectSplits(quote, Escape(s) + quote + rest);
    CharsRead(s, rest);
  }

  lemma LastItemReads(item: string, rest: string)
    ensures ReadItems(Quote(item) + ("]" + rest)) == Some(([item], rest))
  {
    StringReads(item, "]" + rest);
    assert ("]" + rest)[1..] == rest;
  }

  lemma ItemReads(item: string, more: seq<string>, after: string, rest: string)
    requires ReadItems(after) == Some((more, rest))
    ensures ReadItems(Quote(item) + ("," + after)) == Some(([item] + more, rest))
  {
    StringReads(item, "," + after);
    assert ("," + after)[1..] == after;
  }

  lemma {:induction false} ItemsRead(items: seq<string>, rest: string)
    requires items != []
    ensures ReadItems(JoinQuoted(items) + ("]" + rest)) == Some((items, rest))
    ensures JoinQuoted(items) != "" && JoinQuoted(items)[0] == '"'
  {
    StringReads(items[0], "");
    if |items| == 1 {
      LastItemReads(items[0], rest);
      assert [items[0]] == items;
    } else {
      var more := items[1..];
      ItemsRead(more, rest);
      ItemReads(items[0], more, JoinQuoted(more) + ("]" + rest), rest);
      Regrouped(Quote(items[0]), JoinQuoted(more), "]" + rest);
      assert [items[0]] + more == items;
    }
  }

  lemma Regrouped(a: string, b: string, c: string)
    ensures a + ("," + (b + c)) == a + "," + b + c
  {
  }

  lemma SomeListReads(joined: string, items: seq<string>, rest: string)
    requires joined != "" && joined[0] == '"' && ReadItems(joined + ("]" + rest)) == Some((items, rest))
    ensures ReadList("[" + joined + "]" + rest) == Some((items, rest))
  {
    var open, close := "[", "]";
    Regroup(open, joined, close, rest);
    ExpectSplits(open, joined + (close + rest));
  }

  lemma NoListReads(rest: string)
    ensures ReadList("[" + "]" + rest) == Some(([], rest))
  {
    assert "[" + "]" + rest == "[" + ("]" + rest) && ("]" + rest)[1..] == rest;
    ExpectSplits("[", "]" + rest);
  }

  lemma ListReads(items: seq<string>, rest: string)
    ensures ReadList(ListJson(items) + rest) == Some((items, rest)) && ListJson(items)[0] == '['
  {
    if items == [] {
      NoListReads(rest);
      assert ListJson(items) == "[" + "]";
    } else {
      ItemsRead(items, rest);
      SomeListReads(JoinQuoted(items), items, rest);
    }
  }

  lemma ResourceReads(resource: Resource, rest: string)
    ensures ReadResource(ResourceJson(resource) + rest) == Some((resource, rest))
  {
    match resource
    case One(arn) => StringReads(arn, rest);
    case Many(arns) => ListReads(arns, rest);
  }

  lemma ConditionReads(prefixes: Option<seq<string>>, rest: string)
    ensures ReadCondition(ConditionJson(prefixes) + "}" + rest) == Some((prefixes, rest))
  {
    var text := ConditionJson(prefixes) + "}" + rest;
    match prefixes
    case None => assert text == "}" + rest && text[1..] == rest;
    case Some(patterns) =>
      var key := ",\"Condition\":{\"StringLike\":{\"s3:prefix\":";
      assert text == key + (ListJson(patterns) + ("}}}" + rest));
      ExpectSplits(key, ListJson(patterns) + ("}}}" + rest));
      ListReads(patterns, "}}}" + rest);
      ExpectSplits("}}}", rest);
      assert text[0] == ',';
  }

  lemma MemberReads(key: string, value: string, rest: string)
    ensures ReadMember(key + Quote(value) + rest, key) == Some((value, rest))
  {
    assert key + Quote(value) + rest == key + (Quote(value) + rest);
    ExpectSplits(key, Quote(value) + rest);
    StringReads(value, rest);
  }

  lemma EffectAndActionRead(effect: Effect, action: Action)
    requires !action.OtherAction?
    ensures ReadEffect(EffectName(effect)) == Some(effect) && ReadAction(ActionName(action)) == action
  {
  }

  lemma StatementTextSplits(effect: string, action: string, resource: string, condition: string, rest: string)
    ensures StatementText(effect, action, resource, condition) + rest ==
            "{\"Effect\":" + effect + (",\"Action\":" + action + (",\"Resource\":" + (resource + (condition + "}" + rest))))
  {
  }

  /** Every statement of the two actions reads back. */
  lemma StatementReads(st: Statement, rest: string)
    requires !st.action.OtherAction?
    ensures ReadStatement(StatementJson(st) + rest) == Some((st, rest))
  {
    var effect, action := EffectName(st.effect), ActionName(st.action);
    var resource, condition := ResourceJson(st.resource), ConditionJson(st.prefixes);
    var afterResource := condition + "}" + rest;
    var afterAction := ",\"Resource\":" + (resource + afterResource);
    var afterEffect := ",\"Action\":" + Quote(action) + afterAction;
    StatementTextSplits(Quote(effect), Quote(action), resource, condition, rest);
    MemberReads("{\"Effect\":", effect, afterEffect);
    MemberReads(",\"Action\":", action, afterAction);
    ExpectSplits(",\"Resource\":", resource + afterResource);
    ResourceReads(st.resource, afterResource);
    ConditionReads(st.prefixes, rest);
    EffectAndActionRead(st.effect, st.action);
  }

  predicate Readable(statements: seq<Statement>) {
    statements != [] && forall i :: 0 <= i < |statements| ==> !statements[i].action.OtherAction?
  }

  lemma LastStatementReads(json: string, st: Statement)
    requires ReadStatement(json + "]}") == Some((st, "]}"))
    ensures ReadStatements(json + "]}") == Some([st])
  {
  }

  lemma NextStatementReads(json: string, st: Statement, joined: string, more: seq<Statement>, end: string)
    requires ReadStatement(json + ("," + (joined + end))) == Some((st, "," + (joined + end)))
    requires ReadStatements(joined + end) == Some(more)
    ensures ReadStatements(json + "," + joined + end) == Some([st] + more)
  {
    var comma := ",";
    Regroup(json, comma, joined, end);
    var text := comma + (joined + end);
    assert text[1..] == joined + end && text[0] == ',';
  }

  lemma OneStatementReads(st: Statement)
    requires !st.action.OtherAction?
    ensures ReadStatements(StatementJson(st) + "]}") == Some([st])
  {
    StatementReads(st, "]}");
    LastStatementReads(StatementJson(st), st);
  }

  lemma FirstStatementReads(st: Statement, joined: string, more: seq<Statement>, all: string)
    requires !st.action.OtherAction? && ReadStatements(joined + "]}") == Some(more)
    requires all == StatementJson(st) + "," + joined
    ensures ReadStatements(all + "]}") == Some([st] + more)
  {
    StatementReads(st, "," + (joined + "]}"));
    NextStatementReads(StatementJson(st), st, joined, more, "]}");
  }

  lemma OneRead(statements: seq<Statement>)
    requires |statements| == 1 && !statements[0].action.OtherAction?
    ensures ReadStatements(JoinStatements(statements) + "]}") == Some(statements)
  {
    OneStatementReads(statements[0]);
    assert [statements[0]] == statements;
  }

  lemma MoreRead(statements: seq<Statement>)
    requires |statements| > 1 && !statements[0].action.OtherAction?
    requires ReadStatements(JoinStatements(statements[1..]) + "]}") == Some(statements[1..])
    ensures ReadStatements(JoinStatements(statements) + "]}") == Some(statements)
  {
    assert [statements[0]] + statements[1..] == statements;
    FirstStatementReads(statements[0], JoinStatements(statements[1..]), statements[1..], JoinStatements(statements));
  }

  lemma {:induction false} StatementsRead(statements: seq<Statement>)
    requires Readable(statements)
    ensures ReadStatements(JoinStatements(statements) + "]}") == Some(statements)
  {
    if |statements| == 1 {
      OneRead(statements);
    } else {
      StatementsRead(statements[1..]);
      MoreRead(statements);
    }
  }

  /** The document that is sent reads back as the statements that were built. */
  lemma PolicyReadsBack(bucket: string, prefix: string, denyMode: bool, repos: seq<string>)
    ensures ReadPolicy(PolicyToJson(Policy(bucket, prefix, denyMode, repos))) ==
            Some(Policy(bucket, prefix, denyMode, repos))
  {
    var statements := Policy(bucket, prefix, denyMode, repos);
    assert Readable(statements) by { PolicyActions(bucket, prefix, denyMode, repos); }
    StatementsRead(statements);
    PolicyTextReads(statements);
  }

  lemma PolicyTextReads(statements: seq<Statement>)
    requires ReadStatements(JoinStatements(statements) + "]}") == Some(statements)
    ensures ReadPolicy(PolicyToJson(statements)) == Some(statements)
  {
    var head := "{\"Version\":\"2012-10-17\",\"Statement\":[";
    var end := "]}";
    Regroup(head, JoinStatements(statements), end, "");
    ExpectSplits(head, JoinStatements(statements) + end);
  }

  // ----- What the document that is sent allows -----

  /** What a checked document allows, as far as it reads as a policy. */
  predicate TextAllows(text: string, r: Request) {
    ReadPolicy(text).Some? && Allows(ReadPolicy(text).value, r)
  }

  /**
   * Inside a repo the document that passes the size check lets a user get and list exactly when they may read it,
   * and it lets nobody do anything else.
   */
  lemma SentPolicyMeansRules(rules: Rules, identity: Identity, bucket: string, prefix: string, repo: string,
                             suffix: string, other: Request)
    requires identity.IsAuthenticated() && Sane(rules, identity, bucket, prefix) && '/' !in repo
    requires CheckedPolicy(PolicyOf(rules, identity, bucket, prefix)).Ok? && other.action.OtherAction?
    ensures var text := CheckedPolicy(PolicyOf(rules, identity, bucket, prefix)).value;
            var path := RepoPrefix(prefix, repo) + suffix;
            && (TextAllows(text, GetObject(bucket, path)) <==> IsPermitted(rules, identity, Repos, repo))
            && (TextAllows(text, ListBucket(bucket, Some(path))) <==> IsPermitted(rules, identity, Repos, repo))
            && !TextAllows(text, other)
  {
    var (deny, repos) := PolicyFor(rules, identity);
    PolicyReadsBack(bucket, prefix, deny, repos);
    PolicyMeansRules(rules, identity, bucket, prefix, repo, suffix);
    PolicyIsReadOnly(bucket, prefix, deny, repos, other);
  }
}
