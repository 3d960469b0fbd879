/**
 * The WHERE text the endpoints build, and a reader for it with SQL's rules: words, quoted literals with doubled
 * quotes, AND binding tighter than OR, parentheses.
 */
module WhereText {
  import opened Common
  import opened Text
  import opened Wildcards
  import opened Filtering

  // ----- Writing -----

  function Quoted(value: string): string {
    "'" + value + "'"
  }

  function LikeText(column: string, prefix: string): string {
    column + " LIKE " + Quoted(prefix + "-%")
  }

  function ConditionText(c: Condition): string {
    match c
    case Equals(column, value) => column + " = " + Quoted(value)
    case IsNull(column) => column + " IS NULL"
    case OneOf(column, values) => column + " IN (" + Join(", ", QuotedAll(values)) + ")"
    case HasPrefix(column, prefix) => LikeText(column, prefix)
    case HasAnyPrefix(column, prefixes) => "(" + Join(" OR ", LikeTexts(column, prefixes)) + ")"
  }

  function QuotedAll(values: seq<string>): seq<string> {
    seq(|values|, i requires 0 <= i < |values| => Quoted(values[i]))
  }

  function LikeTexts(column: string, prefixes: seq<string>): seq<string> {
    seq(|prefixes|, i requires 0 <= i < |prefixes| => LikeText(column, prefixes[i]))
  }

  function ConditionTexts(conditions: seq<Condition>): seq<string> {
    seq(|conditions|, i requires 0 <= i < |conditions| => ConditionText(conditions[i]))
  }

  /** `" AND ".join(where_conditions) if where_conditions else "1=1"`. */
  function WhereClause(conditions: seq<Condition>): string {
    if conditions == [] then "1=1" else Join(" AND ", ConditionTexts(conditions))
  }

  // ----- Words -----

  datatype Token = Word(text: string) | Literal(value: string) | Symbol(symbol: char) | Unterminated

  predicate WordChar(c: char) {
    'a' <= c <= 'z' || 'A' <= c <= 'Z' || '0' <= c <= '9' || c == '_'
  }

  predicate Blank(c: char) {
    c == ' ' || c == '\n' || c == '\r' || c == '\t'
  }

  function WordLength(s: string): (n: nat)
    ensures n <= |s| && forall i :: 0 <= i < n ==> WordChar(s[i])
    ensures n < |s| ==> !WordChar(s[n])
  {
    if s == "" || !WordChar(s[0]) then 0 else 1 + WordLength(s[1..])
  }

  /** The literal that ends in `s`, after its opening quote, and what follows it; a doubled quote stands for one. */
  function ReadLiteral(s: string): (r: Option<(string, string)>)
    ensures r.Some? ==> |r.value.1| < |s|
  {
    if s == "" then None
    else if s[0] != '\'' then
      var r := ReadLiteral(s[1..]);
      if r.None? then None else Some(([s[0]] + r.value.0, r.value.1))
    else if |s| > 1 && s[1] == '\'' then
      var r := ReadLiteral(s[2..]);
      if r.None? then None else Some((['\''] + r.value.0, r.value.1))
    else Some(("", s[1..]))
  }

  function Lex(s: string): seq<Token>
    decreases |s|
  {
    if s == "" then []
    else if Blank(s[0]) then Lex(s[1..])
    else if s[0] == '\'' then
      var r := ReadLiteral(s[1..]);
      if r.None? then [Unterminated] else [Literal(r.value.0)] + Lex(r.value.1)
    else if WordChar(s[0]) then
      var n := WordLength(s);
      [Word(s[..n])] + Lex(s[n..])
    else [Symbol(s[0])] + Lex(s[1..])
  }

  // ----- Expressions -----

  datatype Expr =
    | Always
    | Compare(column: string, value: string)
    | Missing(column: string)
    | Member(column: string, values: seq<string>)
    | Like(column: string, pattern: string)
    | And(left: Expr, right: Expr)
    | Or(left: Expr, right: Expr)

  /** The expression is true of the row; NULL makes a comparison unknown, and there is no negation. */
  predicate True(e: Expr, row: Row) {
    match e
    case Always => true
    case Compare(column, value) => Column(row, column) == Some(value)
    case Missing(column) => Column(row, column).None?
    case Member(column, values) => Column(row, column).Some? && Column(row, column).value in values
    case Like(column, pattern) => Column(row, column).Some? && Matches(LIKE, pattern, Column(row, column).value)
    case And(left, right) => True(left, row) && True(right, row)
    case Or(left, right) => True(left, row) || True(right, row)
  }

  function Upper(s: string): (r: string)
    ensures |r| == |s|
  {
    seq(|s|, i requires 0 <= i < |s| => if 'a' <= s[i] <= 'z' then s[i] - 'a' + 'A' else s[i])
  }

  /** The words Trino reserves. */
  const RESERVED := {
    "ALTER", "AND", "AS", "BETWEEN", "BY", "CASE", "CAST", "CONSTRAINT", "CREATE", "CROSS", "CUBE", "CURRENT_CATALOG",
    "CURRENT_DATE", "CURRENT_PATH", "CURRENT_ROLE", "CURRENT_SCHEMA", "CURRENT_TIME", "CURRENT_TIMESTAMP",
    "CURRENT_USER", "DEALLOCATE", "DELETE", "DESCRIBE", "DISTINCT", "DROP", "ELSE", "END", "ESCAPE", "EXCEPT",
    "EXECUTE", "EXISTS", "EXTRACT", "FALSE", "FOR", "FROM", "FULL", "GROUP", "GROUPING", "HAVING", "IN", "INNER",
    "INSERT", "INTERSECT", "INTO", "IS", "JOIN", "JSON_ARRAY", "JSON_EXISTS", "JSON_OBJECT", "JSON_QUERY", "JSON_TABLE",
    "JSON_VALUE", "LEFT", "LIKE", "LISTAGG", "LOCALTIME", "LOCALTIMESTAMP", "NATURAL", "NORMALIZE", "NOT", "NULL", "ON",
    "OR", "ORDER", "OUTER", "PREPARE", "RECURSIVE", "RIGHT", "ROLLUP", "SELECT", "SKIP", "TABLE", "THEN", "TRIM",
    "TRUE", "UESCAPE", "UNION", "UNNEST", "USING", "VALUES", "WHEN", "WHERE", "WITH"
  }

  /** An unquoted SQL identifier: a word that does not begin with a digit and is not reserved. */
  predicate PlainColumn(s: string) {
    s != "" && !('0' <= s[0] <= '9') && (forall c :: c in s ==> WordChar(c)) && Upper(s) !in RESERVED
  }

  /** The text is the word, some of its letters perhaps in lower case. */
  predicate SameLetters(s: string, word: string) {
    |s| == |word| && forall i :: 0 <= i < |s| ==>
      if 'a' <= s[i] <= 'z' then s[i] as int == word[i] as int + 32 else s[i] == word[i]
  }

  lemma UpperIs(s: string, word: string)
    ensures Upper(s) == word <==> SameLetters(s, word)
  {
    if Upper(s) == word {
      forall i | 0 <= i < |s|
        ensures if 'a' <= s[i] <= 'z' then s[i] as int == word[i] as int + 32 else s[i] == word[i]
      {
        assert Upper(s)[i] == word[i];
      }
    }
    if SameLetters(s, word) {
      forall i | 0 <= i < |s| ensures Upper(s)[i] == word[i] { }
    }
  }

  lemma WordCharsAt(s: string)
    ensures (forall c :: c in s ==> WordChar(c)) <==> forall i :: 0 <= i < |s| ==>
              'a' <= s[i] <= 'z' || 'A' <= s[i] <= 'Z' || '0' <= s[i] <= '9' || s[i] == '_'
  {
    forall i | 0 <= i < |s| ensures s[i] in s { }
    if forall c :: c in s ==> WordChar(c) {
      forall i | 0 <= i < |s| ensures WordChar(s[i]) { assert s[i] in s; }
    }
  }

  /** A plain identifier has letters, digits and underscores, no digit first, and is no reserved word in any case. */
  lemma PlainColumnExactly(s: string)
    ensures PlainColumn(s) <==>
              && s != "" && !('0' <= s[0] <= '9') && !(exists word :: word in RESERVED && SameLetters(s, word))
              && forall i :: 0 <= i < |s| ==>
                   'a' <= s[i] <= 'z' || 'A' <= s[i] <= 'Z' || '0' <= s[i] <= '9' || s[i] == '_'
  {
    WordCharsAt(s);
    NotReserved(s, RESERVED);
  }

  lemma NotReserved(s: string, words: set<string>)
    ensures Upper(s) in words <==> exists word :: word in words && SameLetters(s, word)
  {
    UpperIs(s, Upper(s));
    if word :| word in words && SameLetters(s, word) { UpperIs(s, word); }
  }

  predicate Keyword(tokens: seq<Token>, keyword: string) {
    tokens != [] && tokens[0].Word? && Upper(tokens[0].text) == keyword
  }

  predicate IsSymbol(tokens: seq<Token>, c: char) {
    tokens != [] && tokens[0] == Symbol(c)
  }

  predicate Columns(e: Expr) {
    match e
    case Always => true
    case And(left, right) => Columns(left) && Columns(right)
    case Or(left, right) => Columns(left) && Columns(right)
    case _ => PlainColumn(e.column)
  }

  type Parsed = Option<(Expr, seq<Token>)>

  /** The literals of an IN list after its opening parenthesis, up to and including the closing one. */
  function ReadList(tokens: seq<Token>): (r: Option<(seq<string>, seq<Token>)>)
    ensures r.Some? ==> |r.value.1| < |tokens|
  {
    if |tokens| < 2 || !tokens[0].Literal? then None
    else if tokens[1] == Symbol(')') then Some(([tokens[0].value], tokens[2..]))
    else if tokens[1] == Symbol(',') then
      var r := ReadList(tokens[2..]);
      if r.None? then None else Some(([tokens[0].value] + r.value.0, r.value.1))
    else None
  }

  function ReadPredicate(tokens: seq<Token>): (r: Parsed)
    ensures r.Some? ==> |r.value.1| < |tokens| && Columns(r.value.0)
  {
    if |tokens| < 3 || !tokens[0].Word? then None
    else if tokens[..3] == [Word("1"), Symbol('='), Word("1")] then Some((Always, tokens[3..]))
    else
      var column := tokens[0].text;
      if !PlainColumn(column) then None
      else if IsSymbol(tokens[1..], '=') && tokens[2].Literal? then Some((Compare(column, tokens[2].value), tokens[3..]))
      else if Keyword(tokens[1..], "IS") && Keyword(tokens[2..], "NULL") then Some((Missing(column), tokens[3..]))
      else if Keyword(tokens[1..], "LIKE") && tokens[2].Literal? then Some((Like(column, tokens[2].value), tokens[3..]))
      else if Keyword(tokens[1..], "IN") && IsSymbol(tokens[2..], '(') then
        var r := ReadList(tokens[3..]);
        if r.None? then None else Some((Member(column, r.value.0), r.value.1))
      else None
  }

  function ReadPrimary(tokens: seq<Token>): (r: Parsed)
    ensures r.Some? ==> |r.value.1| < |tokens| && Columns(r.value.0)
    decreases |tokens|, 0
  {
    if !IsSymbol(tokens, '(') then ReadPredicate(tokens)
    else
      var r := ReadOr(tokens[1..]);
      if r.None? || !IsSymbol(r.value.1, ')') then None else Some((r.value.0, r.value.1[1..]))
  }

  function ReadAnd(tokens: seq<Token>): (r: Parsed)
    ensures r.Some? ==> |r.value.1| < |tokens| && Columns(r.value.0)
    decreases |tokens|, 1
  {
    var l := ReadPrimary(tokens);
    if l.None? || !Keyword(l.value.1, "AND") then l
    else
      var r := ReadAnd(l.value.1[1..]);
      if r.None? then None else Some((And(l.value.0, r.value.0), r.value.1))
  }

  function ReadOr(tokens: seq<Token>): (r: Parsed)
    ensures r.Some? ==> |r.value.1| < |tokens| && Columns(r.value.0)
    decreases |tokens|, 2
  {
    var l := ReadAnd(tokens);
    if l.None? || !Keyword(l.value.1, "OR") then l
    else
      var r := ReadOr(l.value.1[1..]);
      if r.None? then None else Some((Or(l.value.0, r.value.0), r.value.1))
  }

  /** The expression a WHERE text stands for. */
  function Read(text: string): (e: Option<Expr>)
    ensures e.Some? ==> Columns(e.value)
  {
    var r := ReadOr(Lex(text));
    if r.Some? && r.value.1 == [] then Some(r.value.0) else None
  }

  // ----- What the conditions should read as -----

  function Pattern(column: string, prefix: string): Expr {
    Like(column, prefix + "-%")
  }

  function AnyPattern(column: string, prefixes: seq<string>): Expr
    requires prefixes != []
  {
    if |prefixes| == 1 then Pattern(column, prefixes[0])
    else Or(Pattern(column, prefixes[0]), AnyPattern(column, prefixes[1..]))
  }

  function ConditionExpr(c: Condition): Expr
    requires Buildable(c)
  {
    match c
    case Equals(column, value) => Compare(column, value)
    case IsNull(column) => Missing(column)
    case OneOf(column, values) => Member(column, values)
    case HasPrefix(column, prefix) => Pattern(column, prefix)
    case HasAnyPrefix(column, prefixes) => AnyPattern(column, prefixes)
  }

  function Conjunction(conditions: seq<Condition>): Expr
    requires AllBuildable(conditions)
  {
    if conditions == [] then Always
    else if |conditions| == 1 then ConditionExpr(conditions[0])
    else And(ConditionExpr(conditions[0]), Conjunction(conditions[1..]))
  }

  lemma {:induction false} AnyPatternMeans(column: string, prefixes: seq<string>, row: Row)
    requires prefixes != []
    ensures True(AnyPattern(column, prefixes), row) <==> Holds(HasAnyPrefix(column, prefixes), row)
  {
    var v := Column(row, column);
    assert forall p :: v.Some? ==> (True(Pattern(column, p), row) <==> Likes(p, v.value)) by {
      assert forall p: string :: p + "-%" == p + "-" + "%";
    }
    if |prefixes| > 1 {
      AnyPatternMeans(column, prefixes[1..], row);
      if v.Some? {
        assert forall i :: 0 <= i < |prefixes| - 1 ==> prefixes[1..][i] == prefixes[i + 1];
        if i :| 0 <= i < |prefixes| && Likes(prefixes[i], v.value) {
          if i > 0 { assert Likes(prefixes[1..][i - 1], v.value); }
        }
      }
    }
  }

  /** The intended expression is true of exactly the rows on which every condition holds. */
  lemma {:induction false} ConjunctionMeans(conditions: seq<Condition>, row: Row)
    requires AllBuildable(conditions)
    ensures True(Conjunction(conditions), row) <==> AllHold(conditions, row)
  {
    if conditions != [] {
      var c := conditions[0];
      assert c in conditions && Buildable(c);
      if c.HasAnyPrefix? { AnyPatternMeans(c.column, c.prefixes, row); }
      if c.HasPrefix? { assert c.prefix + "-%" == c.prefix + "-" + "%"; }
      assert True(ConditionExpr(c), row) <==> Holds(c, row);
      ConjunctionMeans(conditions[1..], row);
      assert forall i :: 0 <= i < |conditions| - 1 ==> conditions[1..][i] == conditions[i + 1];
      assert AllHold(conditions, row) <==> Holds(c, row) && AllHold(conditions[1..], row) by {
        if Holds(c, row) && AllHold(conditions[1..], row) {
          forall i | 0 <= i < |conditions| ensures Holds(conditions[i], row) {
            if i > 0 { assert Holds(conditions[1..][i - 1], row); }
          }
        }
      }
    }
  }

  // ----- Lexing what was written -----

  function LikeTokens(column: string, prefix: string): seq<Token> {
    [Word(column), Word("LIKE"), Literal(prefix + "-%")]
  }

  function AllLikeTokens(column: string, prefixes: seq<string>): seq<seq<Token>> {
    seq(|prefixes|, i requires 0 <= i < |prefixes| => LikeTokens(column, prefixes[i]))
  }

  function Literals(values: seq<string>): seq<seq<Token>> {
    seq(|values|, i requires 0 <= i < |values| => [Literal(values[i])])
  }

  function ConditionTokens(c: Condition): seq<Token> {
    match c
    case Equals(column, value) => [Word(column), Symbol('='), Literal(value)]
    case IsNull(column) => [Word(column), Word("IS"), Word("NULL")]
    case OneOf(column, values) =>
      [Word(column), Word("IN"), Symbol('(')] + Join([Symbol(',')], Literals(values)) + [Symbol(')')]
    case HasPrefix(column, prefix) => LikeTokens(column, prefix)
    case HasAnyPrefix(column, prefixes) =>
      [Symbol('(')] + Join([Word("OR")], AllLikeTokens(column, prefixes)) + [Symbol(')')]
  }

  function AllConditionTokens(conditions: seq<Condition>): seq<seq<Token>> {
    seq(|conditions|, i requires 0 <= i < |conditions| => ConditionTokens(conditions[i]))
  }

  /** The text can be followed by `rest` without running into it. */
  predicate Delimited(rest: string) {
    rest == "" || !(WordChar(rest[0]) || rest[0] == '\'')
  }

  /** Whatever comes after it, delimited if the text is open-ended, the text lexes to the tokens. */
  ghost predicate Lexes(text: string, tokens: seq<Token>, open: bool) {
    forall rest :: (open ==> Delimited(rest)) ==> Lex(text + rest) == tokens + Lex(rest)
  }

  lemma Compose(a: string, ta: seq<Token>, openA: bool, b: string, tb: seq<Token>, openB: bool)
    requires Lexes(a, ta, openA) && Lexes(b, tb, openB)
    requires openA ==> b != "" && Delimited(b)
    ensures Lexes(a + b, ta + tb, openB)
  {
    forall rest | openB ==> Delimited(rest) ensures Lex(a + b + rest) == ta + tb + Lex(rest) {
      assert a + b + rest == a + (b + rest);
      assert openA ==> (b + rest)[0] == b[0];
      assert Lex(a + (b + rest)) == ta + Lex(b + rest);
    }
  }

  lemma {:induction false} WordLengthIs(w: string, rest: string)
    requires forall c :: c in w ==> WordChar(c)
    requires rest == "" || !WordChar(rest[0])
    ensures WordLength(w + rest) == |w|
  {
    if w == "" {
      assert w + rest == rest;
    } else {
      assert (w + rest)[1..] == w[1..] + rest;
      WordLengthIs(w[1..], rest);
    }
  }

  lemma WordLexes(w: string)
    requires w != "" && forall c :: c in w ==> WordChar(c)
    ensures Lexes(w, [Word(w)], true)
  {
    forall rest | Delimited(rest) ensures Lex(w + rest) == [Word(w)] + Lex(rest) {
      WordLengthIs(w, rest);
      assert (w + rest)[0] == w[0] && (w + rest)[..|w|] == w && (w + rest)[|w|..] == rest;
    }
  }

  lemma SymbolLexes(c: char)
    requires !WordChar(c) && !Blank(c) && c != '\''
    ensures Lexes([c], [Symbol(c)], false)
  {
  }

  lemma BlankLexes()
    ensures Lexes(" ", [], false)
  {
  }

  lemma SpacedSymbolLexes(c: char)
    requires !WordChar(c) && !Blank(c) && c != '\''
    ensures Lexes(" " + [c] + " ", [Symbol(c)], false)
  {
    BlankLexes();
    SymbolLexes(c);
    Compose(" ", [], false, [c], [Symbol(c)], false);
    Compose(" " + [c], [] + [Symbol(c)], false, " ", [], false);
    assert [] + [Symbol(c)] + [] == [Symbol(c)];
  }

  lemma {:induction false} ReadLiteralIs(value: string, rest: string)
    requires '\'' !in value && Delimited(rest)
    ensures ReadLiteral(value + "'" + rest) == Some((value, rest))
  {
    var s := value + "'" + rest;
    if value == "" {
      assert s[1..] == rest;
    } else {
      assert s[0] == value[0] && value[0] in value;
      assert s[1..] == value[1..] + "'" + rest;
      ReadLiteralIs(value[1..], rest);
      assert value == [value[0]] + value[1..];
    }
  }

  lemma QuotedLexes(value: string)
    requires '\'' !in value
    ensures Lexes(Quoted(value), [Literal(value)], true)
  {
    forall rest | Delimited(rest) ensures Lex(Quoted(value) + rest) == [Literal(value)] + Lex(rest) {
      assert (Quoted(value) + rest)[1..] == value + "'" + rest;
      ReadLiteralIs(value, rest);
    }
  }

  /** A keyword with a blank before it. */
  lemma KeywordLexes(w: string)
    requires w != "" && forall c :: c in w ==> WordChar(c)
    ensures Lexes(" " + w, [Word(w)], true)
  {
    BlankLexes();
    WordLexes(w);
    Compose(" ", [], false, w, [Word(w)], true);
    assert [] + [Word(w)] == [Word(w)];
  }

  /** A keyword with blanks around it. */
  lemma InfixLexes(w: string)
    requires w != "" && forall c :: c in w ==> WordChar(c)
    ensures Lexes(" " + w + " ", [Word(w)], false)
  {
    KeywordLexes(w);
    BlankLexes();
    Compose(" " + w, [Word(w)], true, " ", [], false);
    assert [Word(w)] + [] == [Word(w)];
  }

  lemma {:induction false} JoinLexes(separator: string, sepTokens: seq<Token>,
                                     parts: seq<string>, tokens: seq<seq<Token>>)
    requires parts != [] && |parts| == |tokens|
    requires Lexes(separator, sepTokens, false) && separator != "" && Delimited(separator)
    requires forall i :: 0 <= i < |parts| ==> Lexes(parts[i], tokens[i], true)
    ensures Lexes(Join(separator, parts), Join(sepTokens, tokens), true)
  {
    if |parts| > 1 {
      JoinLexes(separator, sepTokens, parts[1..], tokens[1..]);
      Compose(parts[0], tokens[0], true, separator, sepTokens, false);
      Compose(parts[0] + separator, tokens[0] + sepTokens, false,
              Join(separator, parts[1..]), Join(sepTokens, tokens[1..]), true);
    }
  }

  lemma LikeLexes(column: string, prefix: string)
    requires PlainColumn(column) && '\'' !in prefix
    ensures Lexes(LikeText(column, prefix), LikeTokens(column, prefix), true)
  {
    WordLexes(column);
    InfixLexes("LIKE");
    assert " " + "LIKE" + " " == " LIKE ";
    QuotedLexes(prefix + "-%");
    Compose(column, [Word(column)], true, " LIKE ", [Word("LIKE")], false);
    Compose(column + " LIKE ", [Word(column)] + [Word("LIKE")], false,
            Quoted(prefix + "-%"), [Literal(prefix + "-%")], true);
    assert [Word(column)] + [Word("LIKE")] + [Literal(prefix + "-%")] == LikeTokens(column, prefix);
  }

  lemma NoQuote(value: string)
    requires Sanitary(value)
    ensures '\'' !in value
  {
    SanitaryChars(value);
  }

  lemma EqualsLexes(column: string, value: string)
    requires PlainColumn(column) && '\'' !in value
    ensures Lexes(column + " = " + Quoted(value), [Word(column), Symbol('='), Literal(value)], true)
  {
    WordLexes(column);
    SpacedSymbolLexes('=');
    QuotedLexes(value);
    assert " " + ['='] + " " == " = ";
    Compose(column, [Word(column)], true, " = ", [Symbol('=')], false);
    Compose(column + " = ", [Word(column)] + [Symbol('=')], false, Quoted(value), [Literal(value)], true);
    assert [Word(column)] + [Symbol('=')] + [Literal(value)] == [Word(column), Symbol('='), Literal(value)];
  }

  lemma IsNullLexes(column: string)
    requires PlainColumn(column)
    ensures Lexes(column + " IS NULL", [Word(column), Word("IS"), Word("NULL")], true)
  {
    WordLexes(column);
    KeywordLexes("IS");
    KeywordLexes("NULL");
    Compose(" " + "IS", [Word("IS")], true, " " + "NULL", [Word("NULL")], true);
    assert " " + "IS" + (" " + "NULL") == " IS NULL";
    Compose(column, [Word(column)], true, " IS NULL", [Word("IS")] + [Word("NULL")], true);
    assert [Word(column)] + ([Word("IS")] + [Word("NULL")]) == [Word(column), Word("IS"), Word("NULL")];
  }

  lemma ListLexes(values: seq<string>)
    requires values != [] && forall v :: v in values ==> '\'' !in v
    ensures Lexes(Join(", ", QuotedAll(values)), Join([Symbol(',')], Literals(values)), true)
  {
    SymbolLexes(',');
    BlankLexes();
    Compose(",", [Symbol(',')], false, " ", [], false);
    assert "," + " " == ", " && [Symbol(',')] + [] == [Symbol(',')];
    forall i | 0 <= i < |values| ensures Lexes(QuotedAll(values)[i], Literals(values)[i], true) {
      assert values[i] in values;
      QuotedLexes(values[i]);
    }
    JoinLexes(", ", [Symbol(',')], QuotedAll(values), Literals(values));
  }

  lemma OneOfLexes(column: string, values: seq<string>)
    requires PlainColumn(column) && values != [] && forall v :: v in values ==> '\'' !in v
    ensures Lexes(ConditionText(OneOf(column, values)), ConditionTokens(OneOf(column, values)), true)
  {
    var text, tokens := Join(", ", QuotedAll(values)), Join([Symbol(',')], Literals(values));
    WordLexes(column);
    InfixLexes("IN");
    SymbolLexes('(');
    SymbolLexes(')');
    ListLexes(values);
    Compose(column, [Word(column)], true, " " + "IN" + " ", [Word("IN")], false);
    Compose(column + (" " + "IN" + " "), [Word(column)] + [Word("IN")], false, "(", [Symbol('(')], false);
    assert column + (" " + "IN" + " ") + "(" == column + " IN (";
    assert [Word(column)] + [Word("IN")] + [Symbol('(')] == [Word(column), Word("IN"), Symbol('(')];
    Compose(column + " IN (", [Word(column), Word("IN"), Symbol('(')], false, text, tokens, true);
    Compose(column + " IN (" + text, [Word(column), Word("IN"), Symbol('(')] + tokens, true, ")", [Symbol(')')], false);
  }

  lemma LikesLex(column: string, prefixes: seq<string>)
    requires PlainColumn(column) && prefixes != [] && forall p :: p in prefixes ==> '\'' !in p
    ensures Lexes(Join(" OR ", LikeTexts(column, prefixes)), Join([Word("OR")], AllLikeTokens(column, prefixes)), true)
  {
    var texts, tokens := LikeTexts(column, prefixes), AllLikeTokens(column, prefixes);
    InfixLexes("OR");
    assert " " + "OR" + " " == " OR ";
    forall i | 0 <= i < |prefixes| ensures Lexes(texts[i], tokens[i], true) {
      assert prefixes[i] in prefixes;
      LikeLexes(column, prefixes[i]);
    }
    JoinLexes(" OR ", [Word("OR")], texts, tokens);
  }

  lemma ParenthesesLex(text: string, tokens: seq<Token>)
    requires Lexes(text, tokens, true)
    ensures Lexes("(" + text + ")", [Symbol('(')] + tokens + [Symbol(')')], true)
  {
    SymbolLexes('(');
    SymbolLexes(')');
    Compose("(", [Symbol('(')], false, text, tokens, true);
    Compose("(" + text, [Symbol('(')] + tokens, true, ")", [Symbol(')')], false);
  }

  /** The condition names a plain column and can be built. */
  predicate Readable(c: Condition) {
    PlainColumn(c.column) && Buildable(c)
  }

  lemma ConditionLexes(c: Condition)
    requires Readable(c)
    ensures Lexes(ConditionText(c), ConditionTokens(c), true)
  {
    match c
    case Equals(column, value) => NoQuote(value); EqualsLexes(column, value);
    case IsNull(column) => IsNullLexes(column);
    case OneOf(column, values) =>
      forall v | v in values ensures '\'' !in v { NoQuote(v); }
      OneOfLexes(column, values);
    case HasPrefix(column, prefix) => NoQuote(prefix); LikeLexes(column, prefix);
    case HasAnyPrefix(column, prefixes) =>
      forall p | p in prefixes ensures '\'' !in p { NoQuote(p); }
      LikesLex(column, prefixes);
      ParenthesesLex(Join(" OR ", LikeTexts(column, prefixes)), Join([Word("OR")], AllLikeTokens(column, prefixes)));
  }

  lemma WhereLexes(conditions: seq<Condition>)
    requires conditions != [] && forall c :: c in conditions ==> Readable(c)
    ensures Lex(WhereClause(conditions)) == Join([Word("AND")], AllConditionTokens(conditions))
  {
    var texts, tokens := ConditionTexts(conditions), AllConditionTokens(conditions);
    InfixLexes("AND");
    assert " " + "AND" + " " == " AND ";
    forall i | 0 <= i < |conditions| ensures Lexes(texts[i], tokens[i], true) {
      assert conditions[i] in conditions;
      ConditionLexes(conditions[i]);
    }
    JoinLexes(" AND ", [Word("AND")], texts, tokens);
    assert Join(" AND ", texts) + "" == Join(" AND ", texts);
    assert Join([Word("AND")], tokens) + [] == Join([Word("AND")], tokens);
  }

  // ----- Reading the tokens -----

  /** Nothing after an expression makes it go on: neither AND nor OR. */
  predicate Ended(rest: seq<Token>) {
    !Keyword(rest, "AND") && !Keyword(rest, "OR")
  }

  lemma {:induction false} ReadListIs(values: seq<string>, rest: seq<Token>)
    requires values != []
    ensures ReadList(Join([Symbol(',')], Literals(values)) + [Symbol(')')] + rest) == Some((values, rest))
  {
    var tokens := Join([Symbol(',')], Literals(values)) + [Symbol(')')] + rest;
    assert Literals(values)[0] == [Literal(values[0])];
    if |values| == 1 {
      assert tokens[2..] == rest && values == [values[0]];
    } else {
      assert Literals(values)[1..] == Literals(values[1..]);
      assert tokens[0] == Literal(values[0]) && tokens[1] == Symbol(',');
      assert tokens[2..] == Join([Symbol(',')], Literals(values[1..])) + [Symbol(')')] + rest;
      ReadListIs(values[1..], rest);
      assert values == [values[0]] + values[1..];
    }
  }

  lemma Keywords()
    ensures Upper("AND") == "AND" && Upper("OR") == "OR" && Upper("IS") == "IS"
    ensures Upper("NULL") == "NULL" && Upper("IN") == "IN" && Upper("LIKE") == "LIKE"
  {
  }

  lemma LikeReads(column: string, prefix: string, rest: seq<Token>)
    requires PlainColumn(column)
    ensures ReadPrimary(LikeTokens(column, prefix) + rest) == Some((Pattern(column, prefix), rest))
  {
  }

  lemma {:induction false} AnyPatternReads(column: string, prefixes: seq<string>, rest: seq<Token>)
    requires PlainColumn(column) && prefixes != [] && Ended(rest)
    ensures ReadOr(Join([Word("OR")], AllLikeTokens(column, prefixes)) + rest) ==
            Some((AnyPattern(column, prefixes), rest))
  {
    Keywords();
    var all := AllLikeTokens(column, prefixes);
    assert all[0] == LikeTokens(column, prefixes[0]);
    if |prefixes| == 1 {
      LikeReads(column, prefixes[0], rest);
    } else {
      assert all[1..] == AllLikeTokens(column, prefixes[1..]);
      var tail := Join([Word("OR")], all[1..]) + rest;
      assert Join([Word("OR")], all) + rest == LikeTokens(column, prefixes[0]) + ([Word("OR")] + tail);
      LikeReads(column, prefixes[0], [Word("OR")] + tail);
      assert ([Word("OR")] + tail)[1..] == tail;
      AnyPatternReads(column, prefixes[1..], rest);
    }
  }

  lemma EqualsReads(column: string, value: string, rest: seq<Token>)
    requires PlainColumn(column)
    ensures ReadPrimary([Word(column), Symbol('='), Literal(value)] + rest) == Some((Compare(column, value), rest))
  {
  }

  lemma IsNullReads(column: string, rest: seq<Token>)
    requires PlainColumn(column)
    ensures ReadPrimary([Word(column), Word("IS"), Word("NULL")] + rest) == Some((Missing(column), rest))
  {
  }

  lemma OneOfReads(column: string, values: seq<string>, rest: seq<Token>)
    requires PlainColumn(column) && values != []
    ensures ReadPrimary(ConditionTokens(OneOf(column, values)) + rest) == Some((Member(column, values), rest))
  {
    Keywords();
    var tokens := ConditionTokens(OneOf(column, values)) + rest;
    assert tokens[0] == Word(column) && tokens[1] == Word("IN") && tokens[2] == Symbol('(');
    assert tokens[3..] == Join([Symbol(',')], Literals(values)) + [Symbol(')')] + rest;
    ReadListIs(values, rest);
  }

  lemma ParenthesesRead(inner: seq<Token>, e: Expr, rest: seq<Token>)
    requires ReadOr(inner + ([Symbol(')')] + rest)) == Some((e, [Symbol(')')] + rest))
    ensures ReadPrimary([Symbol('(')] + inner + [Symbol(')')] + rest) == Some((e, rest))
  {
    var tokens := [Symbol('(')] + inner + [Symbol(')')] + rest;
    assert tokens[0] == Symbol('(') && tokens[1..] == inner + ([Symbol(')')] + rest);
    assert ([Symbol(')')] + rest)[1..] == rest;
  }

  lemma ConditionReads(c: Condition, rest: seq<Token>)
    requires Readable(c)
    ensures ReadPrimary(ConditionTokens(c) + rest) == Some((ConditionExpr(c), rest))
  {
    match c
    case Equals(column, value) => EqualsReads(column, value, rest);
    case IsNull(column) => IsNullReads(column, rest);
    case OneOf(column, values) => OneOfReads(column, values, rest);
    case HasPrefix(column, prefix) => LikeReads(column, prefix, rest);
    case HasAnyPrefix(column, prefixes) =>
      AnyPatternReads(column, prefixes, [Symbol(')')] + rest);
      ParenthesesRead(Join([Word("OR")], AllLikeTokens(column, prefixes)), AnyPattern(column, prefixes), rest);
  }

  lemma {:induction false} ConjunctionReads(conditions: seq<Condition>)
    requires conditions != [] && AllBuildable(conditions) && forall c :: c in conditions ==> Readable(c)
    ensures ReadAnd(Join([Word("AND")], AllConditionTokens(conditions))) == Some((Conjunction(conditions), []))
  {
    Keywords();
    var all := AllConditionTokens(conditions);
    assert all[0] == ConditionTokens(conditions[0]);
    if |conditions| == 1 {
      ConditionReads(conditions[0], []);
      assert all[0] + [] == all[0];
    } else {
      assert all[1..] == AllConditionTokens(conditions[1..]);
      var tail := Join([Word("AND")], all[1..]);
      assert Join([Word("AND")], all) == all[0] + ([Word("AND")] + tail);
      ConditionReads(conditions[0], [Word("AND")] + tail);
      assert ([Word("AND")] + tail)[1..] == tail;
      ConjunctionReads(conditions[1..]);
    }
  }

  // ----- The text means the conditions -----

  lemma {:induction false} ConjunctionColumns(conditions: seq<Condition>)
    requires AllBuildable(conditions) && Columns(Conjunction(conditions))
    ensures forall c :: c in conditions ==> Readable(c)
  {
    if conditions != [] {
      assert conditions[0] in conditions;
      var c := conditions[0];
      assert Columns(ConditionExpr(c));
      if c.HasAnyPrefix? { assert Columns(Pattern(c.column, c.prefixes[0])); }
      if |conditions| > 1 {
        ConjunctionColumns(conditions[1..]);
        assert forall c :: c in conditions ==> c == conditions[0] || c in conditions[1..];
      }
    }
  }

  /** The built text reads back as the conjunction of the conditions exactly when every column is a plain identifier. */
  lemma TextReadsBack(conditions: seq<Condition>)
    requires AllBuildable(conditions)
    ensures Read(WhereClause(conditions)) == Some(Conjunction(conditions)) <==>
            forall c :: c in conditions ==> PlainColumn(c.column)
  {
    if conditions == [] {
      AlwaysReads();
    } else if forall c :: c in conditions ==> PlainColumn(c.column) {
      WhereLexes(conditions);
      ConjunctionReads(conditions);
    } else if Read(WhereClause(conditions)) == Some(Conjunction(conditions)) {
      ConjunctionColumns(conditions);
    }
  }

  lemma AlwaysReads()
    ensures Read("1=1") == Some(Always)
  {
    var text := "1=1";
    assert text == "1" + "=" + "1";
    AlwaysLexes(text, "1", "=");
    var tokens := [Word("1"), Symbol('='), Word("1")];
    assert tokens[..3] == tokens && tokens[3..] == [];
  }

  lemma AlwaysLexes(text: string, one: string, equals: string)
    requires one == ['1'] && equals == ['='] && text == one + equals + one
    ensures Lex(text) == [Word(one), Symbol('='), Word(one)]
  {
    WordLexes(one);
    SymbolLexes('=');
    Compose(one, [Word(one)], true, equals, [Symbol('=')], false);
    Compose(one + equals, [Word(one)] + [Symbol('=')], false, one, [Word(one)], true);
    assert text + "" == text;
    assert [Word(one)] + [Symbol('=')] + [Word(one)] + Lex("") == [Word(one), Symbol('='), Word(one)];
  }

  /** A row is selected by the built text exactly when every condition holds on it. */
  lemma TextMeansConditions(conditions: seq<Condition>, row: Row)
    requires AllBuildable(conditions) && forall c :: c in conditions ==> PlainColumn(c.column)
    ensures Read(WhereClause(conditions)).Some?
    ensures True(Read(WhereClause(conditions)).value, row) <==> AllHold(conditions, row)
  {
    TextReadsBack(conditions);
    ConjunctionMeans(conditions, row);
  }
}
