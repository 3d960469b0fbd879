/** Schema-driven filters: sanitizing, the conditions they become, and what those mean on a row. */
module Filtering {
  import opened Common
  import opened Text
  import opened Wildcards

  /** An SQL value of a string column: NULL or a string. */
  type Value = Option<string>

  type Row = map<string, Value>

  /** A request filter: column and value, in the order given. */
  type Filter = (string, string)

  /** The predicates the endpoints put into a WHERE clause. */
  datatype Condition =
    | Equals(column: string, value: string)
    | IsNull(column: string)
    | OneOf(column: string, values: seq<string>)
    | HasPrefix(column: string, prefix: string)
    | HasAnyPrefix(column: string, prefixes: seq<string>)

  datatype Error = InvalidValue(value: string) | UnsupportedFilter | UnsupportedProperty

  // ----- Sanitizing -----

  predicate SafeChar(c: char) {
    'a' <= c <= 'z' || 'A' <= c <= 'Z' || '0' <= c <= '9' || c == '_' || c == '-' || c == '.'
  }

  /** `sanitize_string` accepts the value; `$` also accepts one newline at the end. */
  predicate Sanitary(s: string) {
    var body := if s != "" && s[|s| - 1] == '\n' then s[..|s| - 1] else s;
    body != "" && forall c :: c in body ==> SafeChar(c)
  }

  lemma SanitaryChars(s: string)
    requires Sanitary(s)
    ensures s != "" && forall c :: c in s ==> SafeChar(c) || c == '\n'
  {
  }

  predicate IsWord(text: string) {
    text != "" && forall i :: 0 <= i < |text| ==>
      || 'a' <= text[i] <= 'z' || 'A' <= text[i] <= 'Z' || '0' <= text[i] <= '9'
      || text[i] == '_' || text[i] == '-' || text[i] == '.'
  }

  lemma WordIsSanitary(text: string)
    requires IsWord(text)
    ensures Sanitary(text) && Sanitary(text + "\n")
  {
    assert text[|text| - 1] != '\n';
    assert (text + "\n")[..|text|] == text;
  }

  /** Exactly the texts of letters, digits, `_`, `-` and `.` pass that are not empty, also with one newline after them. */
  lemma SanitaryExactly(s: string)
    ensures Sanitary(s) <==> exists text :: IsWord(text) && (s == text || s == text + "\n")
  {
    if Sanitary(s) {
      var text := if s[|s| - 1] == '\n' then s[..|s| - 1] else s;
      assert s == text || s == text + "\n";
      forall i | 0 <= i < |text| ensures SafeChar(text[i]) { assert text[i] in text; }
      assert IsWord(text);
    }
    if text :| IsWord(text) && (s == text || s == text + "\n") { WordIsSanitary(text); }
  }

  // ----- Meaning -----

  function Column(row: Row, column: string): Value {
    if column in row then row[column] else None
  }

  /** Strictly before in an ascending order with NULL last. */
  predicate Precedes(a: Value, b: Value) {
    a.Some? && (b.None? || (StrLe(a.value, b.value) && a != b))
  }

  /** `column LIKE '<prefix>-%'` on a string. */
  predicate Likes(prefix: string, s: string) {
    Matches(LIKE, prefix + "-" + "%", s)
  }

  /** A WHERE clause keeps the rows on which every condition is true; a comparison with NULL is not. */
  predicate Holds(c: Condition, row: Row) {
    var v := Column(row, c.column);
    match c
    case Equals(_, value) => v == Some(value)
    case IsNull(_) => v.None?
    case OneOf(_, values) => v.Some? && v.value in values
    case HasPrefix(_, prefix) => v.Some? && Likes(prefix, v.value)
    case HasAnyPrefix(_, prefixes) => v.Some? && exists i :: 0 <= i < |prefixes| && Likes(prefixes[i], v.value)
  }

  predicate AllHold(conditions: seq<Condition>, row: Row) {
    forall i :: 0 <= i < |conditions| ==> Holds(conditions[i], row)
  }

  /** `LIKE '<prefix>-%'` means "starts with `<prefix>-`" exactly when the prefix has no `_` (and no `%`). */
  lemma LikeIsPrefixExactly(prefix: string)
    requires '%' !in prefix
    ensures (forall s :: Likes(prefix, s) <==> prefix + "-" <= s) <==> '_' !in prefix
  {
    var literal := prefix + "-";
    assert forall s :: Likes(prefix, s) <==> Matches(LIKE, literal + [LIKE.many], s);
    assert forall c :: c in literal <==> c in prefix || c == '-';
    if '_' in prefix {
      var s, _ := WildcardOverreaches(LIKE, literal);
      assert Likes(prefix, s) && !(literal <= s);
    } else {
      forall s ensures Likes(prefix, s) <==> literal <= s { PlainMatches(LIKE, literal, s); }
    }
  }

  // ----- Building conditions -----

  function EqualityCondition(filter: Filter): Condition {
    if filter.1 == "null" then IsNull(filter.0) else Equals(filter.0, filter.1)
  }

  /** The text "null" asks for NULL, any other text for itself. */
  lemma EqualityMeans(filter: Filter, row: Row)
    ensures Holds(EqualityCondition(filter), row) <==>
            (if filter.0 in row then row[filter.0] else None) == if filter.1 == "null" then None else Some(filter.1)
  {
  }

  predicate SanitaryFilter(filter: Filter) {
    Sanitary(filter.0) && Sanitary(filter.1)
  }

  /** What the filters ask of a row, said directly. */
  predicate Passes(filters: seq<Filter>, row: Row) {
    forall i :: 0 <= i < |filters| ==>
      Column(row, filters[i].0) == if filters[i].1 == "null" then None else Some(filters[i].1)
  }

  method BuildEqualityFilterConditions(filters: seq<Filter>) returns (r: Result<seq<Condition>, Error>)
    ensures r.Ok? <==> forall i :: 0 <= i < |filters| ==> SanitaryFilter(filters[i])
    ensures r.Ok? ==> |r.value| == |filters| &&
                      forall i :: 0 <= i < |filters| ==> r.value[i] == EqualityCondition(filters[i])
    ensures r.Ok? ==> forall row :: AllHold(r.value, row) <==> Passes(filters, row)
    ensures r.Err? ==> r.error.InvalidValue? && !Sanitary(r.error.value) &&
                       exists i :: 0 <= i < |filters| && r.error.value in [filters[i].0, filters[i].1]
  {
    var conditions: seq<Condition> := [];
    for i := 0 to |filters|
      invariant |conditions| == i
      invariant forall j :: 0 <= j < i ==>
        SanitaryFilter(filters[j]) && conditions[j] == EqualityCondition(filters[j])
    {
      var (column, value) := filters[i];
      if !Sanitary(column) {
        return Err(InvalidValue(column));
      }
      if !Sanitary(value) {
        return Err(InvalidValue(value));
      }
      if value == "null" {
        conditions := conditions + [IsNull(column)];
      } else {
        conditions := conditions + [Equals(column, value)];
      }
    }
    forall row ensures AllHold(conditions, row) <==> Passes(filters, row) {
      assert forall i :: 0 <= i < |filters| ==>
        (Holds(conditions[i], row) <==>
         Column(row, filters[i].0) == if filters[i].1 == "null" then None else Some(filters[i].1));
    }
    return Ok(conditions);
  }

  /** A condition the endpoints can build: sanitized values, and a list that is not empty. */
  predicate Buildable(c: Condition) {
    match c
    case Equals(_, value) => Sanitary(value)
    case IsNull(_) => true
    case OneOf(_, values) => values != [] && forall v :: v in values ==> Sanitary(v)
    case HasPrefix(_, prefix) => Sanitary(prefix)
    case HasAnyPrefix(_, prefixes) => prefixes != [] && forall p :: p in prefixes ==> Sanitary(p)
  }

  predicate AllBuildable(conditions: seq<Condition>) {
    forall c :: c in conditions ==> Buildable(c)
  }

  // ----- The conditions of the mapping collections -----

  /** A repeatable query parameter: absent, or the values given. */
  type Repeated = Option<seq<string>>

  function Given(values: Repeated): seq<string> {
    if values.None? then [] else values.value
  }

  predicate AllSanitary(values: seq<string>) {
    forall i :: 0 <= i < |values| ==> Sanitary(values[i])
  }

  function FirstUnsanitary(values: seq<string>): (v: string)
    requires !AllSanitary(values)
    ensures v in values && !Sanitary(v)
  {
    if !Sanitary(values[0]) then values[0] else FirstUnsanitary(values[1..])
  }

  /** `_in_condition`, once its values are known to be sanitary. */
  function InCondition(column: string, values: Repeated): seq<Condition> {
    if Given(values) == [] then [] else [OneOf(column, Given(values))]
  }

  /** `_prefix_condition`, once its prefixes are known to be sanitary. */
  function PrefixCondition(column: string, prefixes: Repeated): seq<Condition> {
    if Given(prefixes) == [] then [] else [HasAnyPrefix(column, Given(prefixes))]
  }

  /** The filters of a mapping endpoint: for two columns, the values and the prefixes asked for. */
  function MappingConditions(a: string, b: string, asA: Repeated, asB: Repeated, prefixesA: Repeated,
                             prefixesB: Repeated): Result<seq<Condition>, Error>
  {
    if !AllSanitary(Given(asA)) then Err(InvalidValue(FirstUnsanitary(Given(asA))))
    else if !AllSanitary(Given(asB)) then Err(InvalidValue(FirstUnsanitary(Given(asB))))
    else if !AllSanitary(Given(prefixesA)) then Err(InvalidValue(FirstUnsanitary(Given(prefixesA))))
    else if !AllSanitary(Given(prefixesB)) then Err(InvalidValue(FirstUnsanitary(Given(prefixesB))))
    else
      Ok(InCondition(a, asA) + InCondition(b, asB) + PrefixCondition(a, prefixesA) + PrefixCondition(b, prefixesB))
  }

  /** The column's value is one of those given, if any were. */
  predicate AmongGiven(v: Value, values: Repeated) {
    values.Some? && values.value != [] ==> v.Some? && v.value in values.value
  }

  predicate WithGivenPrefix(v: Value, prefixes: Repeated) {
    prefixes.Some? && prefixes.value != [] ==> v.Some? && exists p :: p in prefixes.value && Likes(p, v.value)
  }

  lemma AllHoldAppend(a: seq<Condition>, b: seq<Condition>, row: Row)
    ensures AllHold(a + b, row) <==> AllHold(a, row) && AllHold(b, row)
  {
    if AllHold(a + b, row) {
      assert forall i :: 0 <= i < |a| ==> (a + b)[i] == a[i];
      assert forall i :: 0 <= i < |b| ==> (a + b)[|a| + i] == b[i];
    }
  }

  /** Leaving a parameter out asks nothing; several values are alternatives; the four parameters all apply. */
  lemma MappingConditionsMean(a: string, b: string, asA: Repeated, asB: Repeated, prefixesA: Repeated,
                              prefixesB: Repeated, row: Row)
    requires MappingConditions(a, b, asA, asB, prefixesA, prefixesB).Ok?
    ensures AllHold(MappingConditions(a, b, asA, asB, prefixesA, prefixesB).value, row) <==>
            && AmongGiven(Column(row, a), asA) && AmongGiven(Column(row, b), asB)
            && WithGivenPrefix(Column(row, a), prefixesA) && WithGivenPrefix(Column(row, b), prefixesB)
  {
    var ca, cb := InCondition(a, asA), InCondition(b, asB);
    var pa, pb := PrefixCondition(a, prefixesA), PrefixCondition(b, prefixesB);
    InMeans(a, asA, row);
    InMeans(b, asB, row);
    PrefixMeans(a, prefixesA, row);
    PrefixMeans(b, prefixesB, row);
    AllHoldAppend(ca, cb, row);
    AllHoldAppend(ca + cb, pa, row);
    AllHoldAppend(ca + cb + pa, pb, row);
  }

  /** A parameter is given with a value that does not pass. */
  predicate GivenBad(values: Repeated) {
    values.Some? && exists i :: 0 <= i < |values.value| && !Sanitary(values.value[i])
  }

  /** A mapping endpoint fails exactly on a value that does not pass, and names one. */
  lemma MappingFailsExactly(a: string, b: string, asA: Repeated, asB: Repeated, prefixesA: Repeated, prefixesB: Repeated)
    ensures var r := MappingConditions(a, b, asA, asB, prefixesA, prefixesB);
            && (r.Err? <==> GivenBad(asA) || GivenBad(asB) || GivenBad(prefixesA) || GivenBad(prefixesB))
            && (r.Err? ==> r.error.InvalidValue? && !Sanitary(r.error.value))
  {
  }

  lemma MappingConditionsBuildable(a: string, b: string, asA: Repeated, asB: Repeated, prefixesA: Repeated,
                                   prefixesB: Repeated)
    requires MappingConditions(a, b, asA, asB, prefixesA, prefixesB).Ok?
    ensures AllBuildable(MappingConditions(a, b, asA, asB, prefixesA, prefixesB).value)
  {
    assert AllBuildable(InCondition(a, asA)) && AllBuildable(InCondition(b, asB));
    assert AllBuildable(PrefixCondition(a, prefixesA)) && AllBuildable(PrefixCondition(b, prefixesB));
  }

  lemma InMeans(column: string, values: Repeated, row: Row)
    ensures AllHold(InCondition(column, values), row) <==> AmongGiven(Column(row, column), values)
  {
    if Given(values) != [] {
      assert InCondition(column, values)[0] == OneOf(column, Given(values));
    }
  }

  lemma PrefixMeans(column: string, prefixes: Repeated, row: Row)
    ensures AllHold(PrefixCondition(column, prefixes), row) <==> WithGivenPrefix(Column(row, column), prefixes)
  {
    if Given(prefixes) != [] {
      assert PrefixCondition(column, prefixes)[0] == HasAnyPrefix(column, Given(prefixes));
    }
  }

  // ----- The string filters of the timeseries collections -----

  function NonEmpty(values: seq<string>): (r: seq<string>)
    ensures forall v :: v in r <==> v in values && v != ""
  {
    if values == [] then []
    else (if values[0] == "" then [] else [values[0]]) + NonEmpty(values[1..])
  }

  /** `_build_string_in_condition`, once its values are known to be sanitary: empty values are dropped. */
  function StringInCondition(column: string, values: seq<string>): seq<Condition> {
    var given := NonEmpty(values);
    if given == [] then [] else if |given| == 1 then [Equals(column, given[0])] else [OneOf(column, given)]
  }

  /** Dropping the empty values and writing one value as an equality changes nothing. */
  lemma StringInMeans(column: string, values: seq<string>, row: Row)
    ensures AllHold(StringInCondition(column, values), row) <==>
            ((exists v :: v in values && v != "") ==>
               Column(row, column).Some? && Column(row, column).value in values && Column(row, column).value != "")
  {
    var given, conditions := NonEmpty(values), StringInCondition(column, values);
    if given == [] {
      assert forall v :: v in values && v != "" ==> v in given;
    } else {
      assert given[0] in values && given[0] != "";
      assert AllHold(conditions, row) <==> Holds(conditions[0], row);
    }
  }

  // ----- The conditions of the generic collections -----

  /** The id column of a collection: `location_id` if it is there, else `primary_location_id`. */
  function IdColumn(groupBy: seq<string>): Option<string> {
    if "location_id" in groupBy then Some("location_id")
    else if "primary_location_id" in groupBy then Some("primary_location_id")
    else None
  }

  /** The condition on the id column: the location asked for, or gage locations only. */
  function IdCondition(groupBy: seq<string>, locationId: Option<string>): seq<Condition> {
    var id := IdColumn(groupBy);
    if id.None? then []
    else if locationId.Some? then [Equals(id.value, locationId.value)]
    else [HasPrefix(id.value, "usgs")]
  }

  /** The WHERE conditions of `get_collection_items`. */
  method ItemConditions(groupBy: seq<string>, locationId: Option<string>, filters: seq<Filter>)
    returns (r: Result<seq<Condition>, Error>)
    ensures r.Err? <==>
            || (exists i :: 0 <= i < |filters| && filters[i].0 !in groupBy)
            || (IdColumn(groupBy).Some? && locationId.Some? && !Sanitary(locationId.value))
            || (exists i :: 0 <= i < |filters| && !SanitaryFilter(filters[i]))
    ensures r.Ok? ==> AllBuildable(r.value)
    ensures r.Ok? ==> forall row :: AllHold(r.value, row) <==>
              Passes(filters, row) &&
              (IdColumn(groupBy).Some? ==>
                 var v := Column(row, IdColumn(groupBy).value);
                 if locationId.Some? then v == locationId else v.Some? && "usgs-" <= v.value)
  {
    for i := 0 to |filters|
      invariant forall j :: 0 <= j < i ==> filters[j].0 in groupBy
    {
      if filters[i].0 !in groupBy {
        return Err(UnsupportedFilter);
      }
    }
    var id := IdColumn(groupBy);
    if id.Some? && locationId.Some? && !Sanitary(locationId.value) {
      return Err(InvalidValue(locationId.value));
    }
    var equalities := BuildEqualityFilterConditions(filters);
    if equalities.Err? {
      return equalities;
    }
    var idConditions := IdCondition(groupBy, locationId);
    r := Ok(idConditions + equalities.value);
    forall row
      ensures AllHold(r.value, row) <==> AllHold(idConditions, row) && Passes(filters, row)
    {
      AllHoldAppend(idConditions, equalities.value, row);
    }
    forall row | id.Some?
      ensures AllHold(idConditions, row) <==>
              var v := Column(row, id.value); if locationId.Some? then v == locationId else v.Some? && "usgs-" <= v.value
    {
      IdConditionMeans(groupBy, locationId, row);
    }
  }

  lemma IdConditionMeans(groupBy: seq<string>, locationId: Option<string>, row: Row)
    requires IdColumn(groupBy).Some?
    ensures AllHold(IdCondition(groupBy, locationId), row) <==>
            var v := Column(row, IdColumn(groupBy).value);
            if locationId.Some? then v == locationId else v.Some? && "usgs-" <= v.value
  {
    var conditions, v := IdCondition(groupBy, locationId), Column(row, IdColumn(groupBy).value);
    assert AllHold(conditions, row) <==> Holds(conditions[0], row);
    if locationId.None? && v.Some? {
      var literal := "usgs-";
      assert literal + "%" == "usgs" + "-" + "%" && "%" == [LIKE.many];
      PlainMatches(LIKE, literal, v.value);
    }
  }

  // ----- Which columns may be filtered on -----

  /** The properties of a collection, and its group-by columns if it declares any. */
  datatype Schema = Schema(properties: seq<string>, groupBy: Option<seq<string>>)

  function FilterableColumns(schema: Schema, defaultToProperties: bool): seq<string> {
    if schema.groupBy.Some? then schema.groupBy.value
    else if defaultToProperties then schema.properties
    else []
  }

  predicate FiltersVerified(schema: Schema, filters: seq<Filter>, defaultToProperties: bool) {
    forall i :: 0 <= i < |filters| ==> filters[i].0 in FilterableColumns(schema, defaultToProperties)
  }

  /** The id column is one of two group-by columns, and `location_id` whenever it is one of them. */
  lemma IdColumnExactly(groupBy: seq<string>, column: string)
    ensures IdColumn(groupBy) == Some(column) <==>
            column in groupBy && (column == "location_id" || (column == "primary_location_id" && "location_id" !in groupBy))
    ensures IdColumn(groupBy).None? <==> "location_id" !in groupBy && "primary_location_id" !in groupBy
  {
  }
}
