/**
 * Distinct values of a queryable property, from the precomputed combinations table when it has an answer
 * and from the source table otherwise.
 */
module Queryables {
  import opened Common
  import opened Text
  import opened Filtering

  /** A row of the combinations table: one combination of group-by values of a table at a snapshot. */
  datatype Combination = Combination(sourceTable: string, snapshotId: int, dimensions: map<string, Value>)

  /** The conditions of the combinations lookup. */
  datatype CacheCondition =
    | FromTable(table: string)
    | HasKey(key: string)
    | ElementIsNull(key: string)
    | ElementEquals(key: string, value: string)
    | AtCurrentSnapshot

  /**
   * What the two queries see: the rows and the current snapshot id of the collection's table,
   * and the combinations table unless it is missing or its query fails.
   */
  datatype Database = Database(table: seq<Row>, currentSnapshot: Option<int>, combinations: Option<seq<Combination>>)

  // ----- Queries -----

  /** `SELECT DISTINCT ... ORDER BY`: each value once, in order, NULL last. */
  function OrderedDistinct(values: set<Value>): (r: seq<Value>)
    ensures forall v :: v in r <==> v in values
    ensures forall i, j :: 0 <= i < j < |r| ==> Precedes(r[i], r[j])
  {
    var strings := Sorted(Strings(values));
    var some := seq(|strings|, i requires 0 <= i < |strings| => Some(strings[i]));
    assert forall v: Value :: v in some <==> v.Some? && v in values by {
      assert forall i :: 0 <= i < |strings| ==> some[i] == Some(strings[i]) && strings[i] in strings;
      assert forall v: Value :: v.Some? && v in values ==> v == Some(v.value) && v.value in strings;
    }
    if None in values then some + [None] else some
  }

  function Strings(values: set<Value>): (r: set<string>)
    ensures forall v :: v in r <==> Some(v) in values
  {
    assert forall v: string :: Some(v) in values ==> Some(v).value == v;
    set v | v in values && v.Some? :: v.value
  }

  /** `element_at(dimensions, key)`: NULL for a missing key. */
  function ElementAt(c: Combination, key: string): Value {
    if key in c.dimensions then c.dimensions[key] else None
  }

  predicate Satisfies(c: Combination, condition: CacheCondition, db: Database) {
    match condition
    case FromTable(table) => c.sourceTable == table
    case HasKey(key) => key in c.dimensions
    case ElementIsNull(key) => ElementAt(c, key).None?
    case ElementEquals(key, value) => ElementAt(c, key) == Some(value)
    case AtCurrentSnapshot => db.currentSnapshot == Some(c.snapshotId)
  }

  predicate SatisfiesAll(c: Combination, conditions: seq<CacheCondition>, db: Database) {
    forall i :: 0 <= i < |conditions| ==> Satisfies(c, conditions[i], db)
  }

  function ElementCondition(filter: Filter): CacheCondition {
    if filter.1 == "null" then ElementIsNull(filter.0) else ElementEquals(filter.0, filter.1)
  }

  function CacheConditions(collection: string, property: string, filters: seq<Filter>, requireCurrent: bool)
    : seq<CacheCondition>
  {
    [FromTable(collection), HasKey(property)]
    + seq(|filters|, i requires 0 <= i < |filters| => HasKey(filters[i].0))
    + seq(|filters|, i requires 0 <= i < |filters| => ElementCondition(filters[i]))
    + if requireCurrent then [AtCurrentSnapshot] else []
  }

  method BuildCacheConditions(collection: string, property: string, filters: seq<Filter>, requireCurrent: bool)
    returns (conditions: seq<CacheCondition>)
    ensures conditions == CacheConditions(collection, property, filters, requireCurrent)
  {
    conditions := [FromTable(collection), HasKey(property)];
    for i := 0 to |filters|
      invariant conditions == [FromTable(collection), HasKey(property)] +
                              seq(i, j requires 0 <= j < i => HasKey(filters[j].0))
    {
      conditions := conditions + [HasKey(filters[i].0)];
    }
    ghost var keys := conditions;
    for i := 0 to |filters|
      invariant conditions == keys + seq(i, j requires 0 <= j < i => ElementCondition(filters[j]))
    {
      var (key, value) := filters[i];
      if value == "null" {
        conditions := conditions + [ElementIsNull(key)];
      } else {
        conditions := conditions + [ElementEquals(key, value)];
      }
    }
    if requireCurrent {
      conditions := conditions + [AtCurrentSnapshot];
    }
  }

  function CachedValues(db: Database, conditions: seq<CacheCondition>, property: string): set<Value>
    requires db.combinations.Some?
  {
    set c | c in db.combinations.value && SatisfiesAll(c, conditions, db) :: ElementAt(c, property)
  }

  /** `_query_cached_values`: no answer when the query fails or finds nothing. */
  function QueryCachedValues(db: Database, collection: string, property: string, filters: seq<Filter>,
                             requireCurrent: bool): Option<seq<Value>>
  {
    if db.combinations.None? then None
    else
      var values := CachedValues(db, CacheConditions(collection, property, filters, requireCurrent), property);
      if values == {} then None else Some(OrderedDistinct(values))
  }

  function LiveValues(db: Database, property: string, filters: seq<Filter>): set<Value> {
    set row | row in db.table && Passes(filters, row) :: Column(row, property)
  }

  /** `get_queryable_values`. */
  function GetQueryableValues(db: Database, schema: Schema, collection: string, property: string,
                              filters: seq<Filter>, requireCurrent: bool): Result<seq<Value>, Error>
  {
    if !Sanitary(collection) then Err(InvalidValue(collection))
    else if !Sanitary(property) then Err(InvalidValue(property))
    else if property !in schema.properties then Err(UnsupportedProperty)
    else if !FiltersVerified(schema, filters, true) then Err(UnsupportedFilter)
    else if exists i :: 0 <= i < |filters| && !SanitaryFilter(filters[i]) then
      Err(InvalidValue(FirstInvalid(filters)))
    else
      var cached := if schema.groupBy.Some? && property in schema.groupBy.value
                    then QueryCachedValues(db, collection, property, filters, requireCurrent) else None;
      if cached.Some? then Ok(cached.value) else Ok(OrderedDistinct(LiveValues(db, property, filters)))
  }

  function FirstInvalid(filters: seq<Filter>): string {
    if filters == [] then ""
    else if !Sanitary(filters[0].0) then filters[0].0
    else if !Sanitary(filters[0].1) then filters[0].1
    else FirstInvalid(filters[1..])
  }

  // ----- The cache is transparent -----

  function Projection(row: Row, keys: set<string>): map<string, Value> {
    map key | key in keys :: Column(row, key)
  }

  /** The combinations of a table at a snapshot are exactly the projections of its rows onto the keys. */
  ghost predicate Faithful(db: Database, collection: string, snapshot: int, keys: set<string>) {
    db.combinations.Some? &&
    forall dimensions ::
      Combination(collection, snapshot, dimensions) in db.combinations.value <==>
      exists row :: row in db.table && dimensions == Projection(row, keys)
  }

  /** No combination of the table is tagged with its current snapshot, or they are exactly right. */
  ghost predicate UpToDate(db: Database, collection: string, keys: set<string>) {
    db.combinations.Some? && db.currentSnapshot.Some? ==>
      || Faithful(db, collection, db.currentSnapshot.value, keys)
      || forall c :: c in db.combinations.value && c.sourceTable == collection ==> c.snapshotId != db.currentSnapshot.value
  }

  predicate Meets(d: map<string, Value>, filters: seq<Filter>) {
    forall i :: 0 <= i < |filters| ==>
      filters[i].0 in d && d[filters[i].0] == if filters[i].1 == "null" then None else Some(filters[i].1)
  }

  predicate Selected(c: Combination, db: Database, collection: string, property: string, filters: seq<Filter>,
                     requireCurrent: bool)
  {
    && c.sourceTable == collection && property in c.dimensions && Meets(c.dimensions, filters)
    && (requireCurrent ==> db.currentSnapshot == Some(c.snapshotId))
  }

  lemma ConditionsAt(collection: string, property: string, filters: seq<Filter>, requireCurrent: bool)
    ensures var conditions, n := CacheConditions(collection, property, filters, requireCurrent), |filters|;
            && |conditions| == 2 + 2 * n + (if requireCurrent then 1 else 0)
            && conditions[0] == FromTable(collection) && conditions[1] == HasKey(property)
            && (forall i :: 0 <= i < n ==> conditions[2 + i] == HasKey(filters[i].0))
            && (forall i :: 0 <= i < n ==> conditions[2 + n + i] == ElementCondition(filters[i]))
            && (requireCurrent ==> conditions[2 + 2 * n] == AtCurrentSnapshot)
  {
  }

  lemma SatisfyingIsSelected(c: Combination, db: Database, collection: string, property: string, filters: seq<Filter>,
                             requireCurrent: bool)
    requires SatisfiesAll(c, CacheConditions(collection, property, filters, requireCurrent), db)
    ensures Selected(c, db, collection, property, filters, requireCurrent)
  {
    var conditions, n := CacheConditions(collection, property, filters, requireCurrent), |filters|;
    ConditionsAt(collection, property, filters, requireCurrent);
    assert Satisfies(c, conditions[0], db) && Satisfies(c, conditions[1], db);
    assert requireCurrent ==> Satisfies(c, conditions[2 + 2 * n], db);
    forall i | 0 <= i < n
      ensures filters[i].0 in c.dimensions
      ensures c.dimensions[filters[i].0] == if filters[i].1 == "null" then None else Some(filters[i].1)
    {
      assert Satisfies(c, conditions[2 + i], db) && Satisfies(c, conditions[2 + n + i], db);
    }
  }

  lemma SelectedSatisfies(c: Combination, db: Database, collection: string, property: string, filters: seq<Filter>,
                          requireCurrent: bool)
    requires Selected(c, db, collection, property, filters, requireCurrent)
    ensures SatisfiesAll(c, CacheConditions(collection, property, filters, requireCurrent), db)
  {
    var conditions, n := CacheConditions(collection, property, filters, requireCurrent), |filters|;
    ConditionsAt(collection, property, filters, requireCurrent);
    forall i | 0 <= i < |conditions| ensures Satisfies(c, conditions[i], db) {
      if 2 <= i < 2 + n {
        assert conditions[2 + (i - 2)] == HasKey(filters[i - 2].0);
      } else if 2 + n <= i < 2 + 2 * n {
        assert conditions[2 + n + (i - 2 - n)] == ElementCondition(filters[i - 2 - n]);
      }
    }
  }

  lemma ConditionsMean(c: Combination, db: Database, collection: string, property: string, filters: seq<Filter>,
                       requireCurrent: bool)
    ensures SatisfiesAll(c, CacheConditions(collection, property, filters, requireCurrent), db) <==>
            && c.sourceTable == collection && property in c.dimensions && Meets(c.dimensions, filters)
            && (requireCurrent ==> db.currentSnapshot == Some(c.snapshotId))
  {
    if SatisfiesAll(c, CacheConditions(collection, property, filters, requireCurrent), db) {
      SatisfyingIsSelected(c, db, collection, property, filters, requireCurrent);
    } else if Selected(c, db, collection, property, filters, requireCurrent) {
      SelectedSatisfies(c, db, collection, property, filters, requireCurrent);
    }
  }

  /** When the lookup finds anything at the current snapshot, it finds what the source table holds. */
  lemma CachedAreLive(db: Database, collection: string, property: string, filters: seq<Filter>, keys: set<string>)
    requires UpToDate(db, collection, keys) && db.combinations.Some?
    requires CachedValues(db, CacheConditions(collection, property, filters, true), property) != {}
    ensures CachedValues(db, CacheConditions(collection, property, filters, true), property) ==
            LiveValues(db, property, filters)
  {
    var conditions := CacheConditions(collection, property, filters, true);
    var cached, live := CachedValues(db, conditions, property), LiveValues(db, property, filters);
    var found :| found in db.combinations.value && SatisfiesAll(found, conditions, db);
    ConditionsMean(found, db, collection, property, filters, true);
    var snapshot := db.currentSnapshot.value;
    assert Faithful(db, collection, snapshot, keys);
    assert found == Combination(collection, snapshot, found.dimensions);
    var sample :| sample in db.table && found.dimensions == Projection(sample, keys);
    assert property in keys && forall i :: 0 <= i < |filters| ==> filters[i].0 in keys;
    forall v | v in cached ensures v in live {
      var c :| c in db.combinations.value && SatisfiesAll(c, conditions, db) && ElementAt(c, property) == v;
      ConditionsMean(c, db, collection, property, filters, true);
      assert c == Combination(collection, snapshot, c.dimensions);
      var row :| row in db.table && c.dimensions == Projection(row, keys);
      assert Passes(filters, row);
    }
    forall v | v in live ensures v in cached {
      var row :| row in db.table && Passes(filters, row) && Column(row, property) == v;
      var c := Combination(collection, snapshot, Projection(row, keys));
      assert c in db.combinations.value;
      ConditionsMean(c, db, collection, property, filters, true);
      assert ElementAt(c, property) == v;
    }
  }

  /**
   * With the snapshot check on, the endpoint answers every request as if there were no combinations table:
   * the same ordered list with NULL in it, the same errors, for every filter, key set and stale row.
   */
  lemma CacheIsTransparent(db: Database, schema: Schema, collection: string, property: string,
                           filters: seq<Filter>, keys: set<string>)
    requires UpToDate(db, collection, keys)
    ensures GetQueryableValues(db, schema, collection, property, filters, true) ==
            GetQueryableValues(db.(combinations := None), schema, collection, property, filters, true)
  {
    var live := db.(combinations := None);
    assert LiveValues(live, property, filters) == LiveValues(db, property, filters);
    if db.combinations.Some? &&
       CachedValues(db, CacheConditions(collection, property, filters, true), property) != {} {
      CachedAreLive(db, collection, property, filters, keys);
    }
  }

  // ----- What the endpoint answers -----

  /** Requests may filter by the group-by columns, or by any property of a collection without them. */
  lemma FiltersVerifiedExactly(schema: Schema, filters: seq<Filter>)
    ensures FiltersVerified(schema, filters, true) <==>
            forall i :: 0 <= i < |filters| ==>
              (schema.groupBy.Some? ==> filters[i].0 in schema.groupBy.value) &&
              (schema.groupBy.None? ==> filters[i].0 in schema.properties)
  {
  }

  lemma {:induction false} FirstInvalidIs(filters: seq<Filter>)
    requires exists i :: 0 <= i < |filters| && !SanitaryFilter(filters[i])
    ensures !Sanitary(FirstInvalid(filters))
    ensures exists i :: 0 <= i < |filters| && FirstInvalid(filters) in [filters[i].0, filters[i].1]
  {
    if SanitaryFilter(filters[0]) {
      var rest := filters[1..];
      var i :| 0 <= i < |filters| && !SanitaryFilter(filters[i]);
      assert rest[i - 1] == filters[i];
      FirstInvalidIs(rest);
      var j :| 0 <= j < |rest| && FirstInvalid(rest) in [rest[j].0, rest[j].1];
      assert filters[j + 1] == rest[j];
    } else {
      assert FirstInvalid(filters) in [filters[0].0, filters[0].1];
    }
  }

  /** When a request fails, and how: what is in the tables never matters. */
  lemma FailsExactly(db: Database, schema: Schema, collection: string, property: string, filters: seq<Filter>,
                     requireCurrent: bool)
    ensures var r := GetQueryableValues(db, schema, collection, property, filters, requireCurrent);
            var badName := !Sanitary(collection) || !Sanitary(property);
            var badFilter := exists i :: 0 <= i < |filters| &&
                               if schema.groupBy.Some? then filters[i].0 !in schema.groupBy.value
                               else filters[i].0 !in schema.properties;
            var badText := exists i :: 0 <= i < |filters| && (!Sanitary(filters[i].0) || !Sanitary(filters[i].1));
            && (r.Err? <==> badName || property !in schema.properties || badFilter || badText)
            && (r == Err(UnsupportedProperty) <==> !badName && property !in schema.properties)
            && (r == Err(UnsupportedFilter) <==> !badName && property in schema.properties && badFilter)
            && (r.Err? && r.error.InvalidValue? ==>
                  && !Sanitary(r.error.value)
                  && (r.error.value in [collection, property] ||
                      exists i :: 0 <= i < |filters| && r.error.value in [filters[i].0, filters[i].1]))
  {
    FiltersVerifiedExactly(schema, filters);
    if exists i :: 0 <= i < |filters| && !SanitaryFilter(filters[i]) { FirstInvalidIs(filters); }
  }

  /** The row has the value in the property, and what the filters ask for, "null" asking for NULL. */
  predicate Witnesses(row: Row, property: string, value: Value, filters: seq<Filter>) {
    && (if property in row then row[property] else None) == value
    && forall i :: 0 <= i < |filters| ==>
         (if filters[i].0 in row then row[filters[i].0] else None) ==
         if filters[i].1 == "null" then None else Some(filters[i].1)
  }

  /**
   * For a property outside the group-by columns, and for every property when the check is on or there are no
   * combinations, a request that does not fail is answered with exactly the values that some row has along with what
   * the filters ask for, each once, in ascending order with NULL last.
   */
  lemma AnswersAreTheRows(db: Database, schema: Schema, collection: string, property: string, filters: seq<Filter>,
                          requireCurrent: bool, keys: set<string>)
    requires GetQueryableValues(db, schema, collection, property, filters, requireCurrent).Ok?
    requires schema.groupBy.None? || property !in schema.groupBy.value || db.combinations.None? ||
             (requireCurrent && UpToDate(db, collection, keys))
    ensures var values := GetQueryableValues(db, schema, collection, property, filters, requireCurrent).value;
            && (forall v :: v in values <==> exists row :: row in db.table && Witnesses(row, property, v, filters))
            && (forall i, j :: 0 <= i < j < |values| ==>
                  && values[i].Some? && values[i] != values[j]
                  && (values[j].Some? ==> StrLe(values[i].value, values[j].value)))
  {
    var values := GetQueryableValues(db, schema, collection, property, filters, requireCurrent).value;
    var live := LiveValues(db, property, filters);
    if requireCurrent && UpToDate(db, collection, keys) {
      CacheIsTransparent(db, schema, collection, property, filters, keys);
      assert LiveValues(db.(combinations := None), property, filters) == live;
    }
    assert values == OrderedDistinct(live);
    forall v ensures v in live <==> exists row :: row in db.table && Witnesses(row, property, v, filters) {
      LiveAreWitnessed(db, property, filters, v);
    }
    assert forall i, j :: 0 <= i < j < |values| ==> Precedes(values[i], values[j]);
  }

  lemma LiveAreWitnessed(db: Database, property: string, filters: seq<Filter>, v: Value)
    ensures v in LiveValues(db, property, filters) <==>
            exists row :: row in db.table && Witnesses(row, property, v, filters)
  {
    forall row | row in db.table
      ensures Witnesses(row, property, v, filters) <==> Passes(filters, row) && Column(row, property) == v
    {
    }
  }
}
