/** The combinations table without the snapshot check: exactly when its answers are those of the source table. */
module UncheckedCombinations {
  import opened Common
  import opened Text
  import opened Filtering
  import opened Queryables

  type Dimensions = map<string, Value>

  // ----- Sets of combinations -----

  function ValuesOf(all: set<Dimensions>, property: string, filters: seq<Filter>): set<Value> {
    set d | d in all && property in d && Meets(d, filters) :: d[property]
  }

  ghost predicate KeyedBy(all: set<Dimensions>, keys: set<string>) {
    forall d :: d in all ==> d.Keys == keys
  }

  /**
   * A filter can ask for the value, given which texts requests may contain: NULL is asked for with "null",
   * so the text "null" itself never is.
   */
  predicate Askable(v: Value, may: string -> bool) {
    v.Some? ==> may(v.value) && v.value != "null"
  }

  predicate AskableAt(d: Dimensions, keys: set<string>, may: string -> bool) {
    forall k :: k in keys && k in d ==> Askable(d[k], may)
  }

  ghost predicate AllAskable(all: set<Dimensions>, may: string -> bool) {
    forall d, k :: d in all && k in d ==> Askable(d[k], may)
  }

  /** Filters that a request may contain. */
  predicate Over(filters: seq<Filter>, keys: set<string>, may: string -> bool) {
    forall i :: 0 <= i < |filters| ==> filters[i].0 in keys && may(filters[i].1)
  }

  function Asking(key: string, v: Value): Filter {
    (key, if v.None? then "null" else v.value)
  }

  /** The filters that ask for a combination's values of some keys. */
  function FiltersFor(d: Dimensions, keys: seq<string>): seq<Filter>
    requires forall k :: k in keys ==> k in d
  {
    seq(|keys|, i requires 0 <= i < |keys| => assert keys[i] in keys; Asking(keys[i], d[keys[i]]))
  }

  /** The keys whose value a request can ask for. */
  function AskableKeys(d: Dimensions, may: string -> bool): (keys: seq<string>)
    ensures forall k :: k in keys <==> k in d && Askable(d[k], may)
  {
    Sorted(set k | k in d && Askable(d[k], may))
  }

  predicate AgreeOn(d: Dimensions, other: Dimensions, keys: seq<string>) {
    forall k :: k in keys ==> k in d && k in other && d[k] == other[k]
  }

  lemma FiltersForMean(d: Dimensions, other: Dimensions, keys: seq<string>, may: string -> bool)
    requires forall k :: k in keys ==> k in d && Askable(d[k], may)
    ensures Meets(other, FiltersFor(d, keys)) <==> AgreeOn(d, other, keys)
  {
    var filters := FiltersFor(d, keys);
    forall i | 0 <= i < |keys|
      ensures (if filters[i].1 == "null" then None else Some(filters[i].1)) == d[keys[i]] && filters[i].0 == keys[i]
    {
      assert keys[i] in keys && Askable(d[keys[i]], may);
    }
    if Meets(other, filters) {
      forall k | k in keys ensures k in other && d[k] == other[k] {
        var i :| 0 <= i < |keys| && keys[i] == k;
        assert filters[i].0 in other;
      }
    }
  }

  lemma FiltersForOver(d: Dimensions, asked: seq<string>, keys: set<string>, may: string -> bool)
    requires may("null") && forall k :: k in asked ==> k in d && k in keys && Askable(d[k], may)
    ensures Over(FiltersFor(d, asked), keys, may)
  {
    forall i | 0 <= i < |asked| ensures FiltersFor(d, asked)[i].0 in keys && may(FiltersFor(d, asked)[i].1) {
      assert asked[i] in asked && Askable(d[asked[i]], may);
    }
  }

  lemma AgreeingIsEqual(d: Dimensions, other: Dimensions, keys: seq<string>)
    requires d.Keys == other.Keys && forall k :: k in keys <==> k in d
    ensures AgreeOn(d, other, keys) <==> d == other
  {
    if AgreeOn(d, other, keys) {
      assert forall k :: k in d ==> d[k] == other[k];
    }
  }

  /** The other agrees on a key, and on all keys whose value a request can ask for. */
  ghost predicate Covers(other: Dimensions, d: Dimensions, key: string, may: string -> bool) {
    key in d && key in other && other[key] == d[key] && AgreeOn(d, other, AskableKeys(d, may))
  }

  ghost predicate KeyCovered(ys: set<Dimensions>, d: Dimensions, key: string, may: string -> bool) {
    exists other :: other in ys && Covers(other, d, key, may)
  }

  /** No request tells that a combination of the first set is missing from the second. */
  ghost predicate CoveredBy(xs: set<Dimensions>, ys: set<Dimensions>, may: string -> bool) {
    forall d, key :: d in xs && key in d ==> KeyCovered(ys, d, key, may)
  }

  lemma CoveringMeets(d: Dimensions, other: Dimensions, key: string, keys: set<string>, may: string -> bool,
                      filters: seq<Filter>)
    requires Covers(other, d, key, may) && Over(filters, keys, may) && Meets(d, filters)
    ensures Meets(other, filters)
  {
    forall i | 0 <= i < |filters| ensures filters[i].0 in other && other[filters[i].0] == d[filters[i].0] {
      assert Askable(d[filters[i].0], may);
      assert filters[i].0 in AskableKeys(d, may);
    }
  }

  /** Whatever can be asked, the first set finds nothing that the second does not. */
  lemma CoveredIsFound(xs: set<Dimensions>, ys: set<Dimensions>, keys: set<string>, may: string -> bool,
                       property: string, filters: seq<Filter>)
    requires CoveredBy(xs, ys, may) && Over(filters, keys, may)
    ensures ValuesOf(xs, property, filters) <= ValuesOf(ys, property, filters)
  {
    forall v | v in ValuesOf(xs, property, filters) ensures v in ValuesOf(ys, property, filters) {
      var d :| d in xs && property in d && Meets(d, filters) && d[property] == v;
      assert KeyCovered(ys, d, property, may);
      var other :| other in ys && Covers(other, d, property, may);
      CoveringMeets(d, other, property, keys, may, filters);
    }
  }

  /** Keys on which some combination agrees with a missing one, and a key on which none of those does. */
  lemma {:induction false} FirstDisagreement(all: set<Dimensions>, d: Dimensions, keys: seq<string>)
    returns (agreed: seq<string>, key: string)
    requires all != {} && forall other :: other in all ==> !AgreeOn(d, other, keys)
    ensures key in keys && forall k :: k in agreed ==> k in keys
    ensures exists other :: other in all && AgreeOn(d, other, agreed)
    ensures forall other :: other in all ==> !AgreeOn(d, other, agreed + [key])
  {
    if keys == [] {
      var other :| other in all;
      assert AgreeOn(d, other, keys);
      assert false;
    }
    agreed, key := keys[..|keys| - 1], Last(keys);
    assert keys == agreed + [key];
    if forall other :: other in all ==> !AgreeOn(d, other, agreed) {
      agreed, key := FirstDisagreement(all, d, agreed);
    }
  }

  /** The request for everything about a combination that can be asked for finds it, and only what covers it. */
  lemma AskingForAll(all: set<Dimensions>, d: Dimensions, key: string, may: string -> bool)
    requires key in d
    ensures d[key] in ValuesOf(all, key, FiltersFor(d, AskableKeys(d, may))) <==> KeyCovered(all, d, key, may)
  {
    var filters := FiltersFor(d, AskableKeys(d, may));
    forall other | other in all ensures Meets(other, filters) <==> AgreeOn(d, other, AskableKeys(d, may)) {
      FiltersForMean(d, other, AskableKeys(d, may), may);
    }
    if KeyCovered(all, d, key, may) {
      var other :| other in all && Covers(other, d, key, may);
      assert Meets(other, filters);
    }
  }

  /** When nothing agrees with a combination on what can be asked, some request is answered without its value. */
  lemma DisagreeingHides(all: set<Dimensions>, keys: set<string>, d: Dimensions, may: string -> bool)
    returns (property: string, filters: seq<Filter>)
    requires may("null") && all != {} && KeyedBy(all, keys) && d.Keys == keys
    requires forall other :: other in all ==> !AgreeOn(d, other, AskableKeys(d, may))
    ensures property in keys && Over(filters, keys, may) && Meets(d, filters)
    ensures ValuesOf(all, property, filters) != {} && d[property] !in ValuesOf(all, property, filters)
  {
    var agreed, key := FirstDisagreement(all, d, AskableKeys(d, may));
    property, filters := key, FiltersFor(d, agreed);
    FiltersForMean(d, d, agreed, may);
    FiltersForOver(d, agreed, keys, may);
    NextKeyIsHidden(all, d, agreed, key, may);
  }

  lemma NextKeyIsHidden(all: set<Dimensions>, d: Dimensions, agreed: seq<string>, key: string, may: string -> bool)
    requires key in d && forall k :: k in agreed ==> k in d && Askable(d[k], may)
    requires forall other :: other in all ==> key in other && !AgreeOn(d, other, agreed + [key])
    requires exists other :: other in all && AgreeOn(d, other, agreed)
    ensures ValuesOf(all, key, FiltersFor(d, agreed)) != {}
    ensures d[key] !in ValuesOf(all, key, FiltersFor(d, agreed))
  {
    var filters := FiltersFor(d, agreed);
    var agreeing :| agreeing in all && AgreeOn(d, agreeing, agreed);
    FiltersForMean(d, agreeing, agreed, may);
    assert agreeing[key] in ValuesOf(all, key, filters);
    forall other | other in all && Meets(other, filters) ensures other[key] != d[key] {
      FiltersForMean(d, other, agreed, may);
      assert AgreeOn(d, other, agreed) && !AgreeOn(d, other, agreed + [key]);
    }
  }

  /** A combination that no row covers is served to some request that does not find its value in the rows. */
  lemma ExtraIsServed(cached: set<Dimensions>, live: set<Dimensions>, keys: set<string>, d: Dimensions,
                      property: string, may: string -> bool)
    requires may("null") && d.Keys == keys && d in cached && property in keys && !KeyCovered(live, d, property, may)
    ensures var filters := FiltersFor(d, AskableKeys(d, may));
            Over(filters, keys, may) &&
            d[property] in ValuesOf(cached, property, filters) && d[property] !in ValuesOf(live, property, filters)
  {
    FiltersForOver(d, AskableKeys(d, may), keys, may);
    assert Covers(d, d, property, may);
    AskingForAll(cached, d, property, may);
    AskingForAll(live, d, property, may);
  }

  /** A row that no combination covers is missing from the answer to some request that the combinations do answer. */
  lemma MissingIsHidden(cached: set<Dimensions>, live: set<Dimensions>, keys: set<string>, d: Dimensions,
                        missed: string, may: string -> bool)
    returns (property: string, filters: seq<Filter>)
    requires may("null") && KeyedBy(cached, keys) && d.Keys == keys && d in live && cached != {}
    requires missed in keys && !KeyCovered(cached, d, missed, may)
    ensures property in keys && Over(filters, keys, may) && ValuesOf(cached, property, filters) != {}
    ensures d[property] in ValuesOf(live, property, filters) && d[property] !in ValuesOf(cached, property, filters)
  {
    var asked := AskableKeys(d, may);
    if other :| other in cached && AgreeOn(d, other, asked) {
      property, filters := missed, FiltersFor(d, asked);
      FiltersForMean(d, other, asked, may);
      FiltersForMean(d, d, asked, may);
      FiltersForOver(d, asked, keys, may);
      AskingForAll(cached, d, missed, may);
      assert other[missed] in ValuesOf(cached, missed, filters);
    } else {
      property, filters := DisagreeingHides(cached, keys, d, may);
    }
  }

  predicate AnswersAgree(cached: set<Dimensions>, live: set<Dimensions>, property: string, filters: seq<Filter>) {
    ValuesOf(cached, property, filters) == {} ||
    ValuesOf(cached, property, filters) == ValuesOf(live, property, filters)
  }

  ghost predicate NoneOrCovering(cached: set<Dimensions>, live: set<Dimensions>, may: string -> bool) {
    cached == {} || (CoveredBy(cached, live, may) && CoveredBy(live, cached, may))
  }

  lemma CoveringAgrees(cached: set<Dimensions>, live: set<Dimensions>, keys: set<string>, may: string -> bool,
                       property: string, filters: seq<Filter>)
    requires NoneOrCovering(cached, live, may) && Over(filters, keys, may)
    ensures AnswersAgree(cached, live, property, filters)
  {
    if cached != {} {
      CoveredIsFound(cached, live, keys, may, property, filters);
      CoveredIsFound(live, cached, keys, may, property, filters);
    }
  }

  lemma UncoveredDisagrees(cached: set<Dimensions>, live: set<Dimensions>, keys: set<string>, may: string -> bool)
    returns (property: string, filters: seq<Filter>)
    requires KeyedBy(cached, keys) && KeyedBy(live, keys) && may("null") && !NoneOrCovering(cached, live, may)
    ensures property in keys && Over(filters, keys, may) && !AnswersAgree(cached, live, property, filters)
  {
    if !CoveredBy(cached, live, may) {
      var d, key :| d in cached && key in d && !KeyCovered(live, d, key, may);
      ExtraIsServed(cached, live, keys, d, key, may);
      property, filters := key, FiltersFor(d, AskableKeys(d, may));
    } else {
      var d, key :| d in live && key in d && !KeyCovered(cached, d, key, may);
      property, filters := MissingIsHidden(cached, live, keys, d, key, may);
    }
  }

  /**
   * The combinations answer every request they answer as the rows do, exactly when there are none, or they and the
   * rows cover each other: every value has its like, beside the same values of whatever can be asked for. `may` says
   * which texts requests may contain.
   */
  lemma AnswersAgreeExactly(cached: set<Dimensions>, live: set<Dimensions>, keys: set<string>, may: string -> bool)
    requires KeyedBy(cached, keys) && KeyedBy(live, keys) && may("null")
    ensures (forall property, filters :: property in keys && Over(filters, keys, may) ==>
               AnswersAgree(cached, live, property, filters))
            <==> NoneOrCovering(cached, live, may)
  {
    if NoneOrCovering(cached, live, may) {
      forall property, filters | property in keys && Over(filters, keys, may)
        ensures AnswersAgree(cached, live, property, filters)
      {
        CoveringAgrees(cached, live, keys, may, property, filters);
      }
    } else {
      var property, filters := UncoveredDisagrees(cached, live, keys, may);
    }
  }

  /** A combination all of whose values can be asked for is covered only by itself. */
  lemma AskableIsCoveredByItself(d: Dimensions, ys: set<Dimensions>, keys: set<string>, key: string, may: string -> bool)
    requires KeyedBy(ys, keys) && d.Keys == keys && key in keys && AskableAt(d, keys, may)
    ensures KeyCovered(ys, d, key, may) <==> d in ys
  {
    if other :| other in ys && Covers(other, d, key, may) { AgreeingIsEqual(d, other, AskableKeys(d, may)); }
    if d in ys { assert Covers(d, d, key, may); }
  }

  /** When every value can be asked for, two sets cover each other exactly when they are the same. */
  lemma AskableCoverIsEqual(xs: set<Dimensions>, ys: set<Dimensions>, keys: set<string>, may: string -> bool)
    requires keys != {} && KeyedBy(xs, keys) && KeyedBy(ys, keys) && AllAskable(xs, may) && AllAskable(ys, may)
    ensures CoveredBy(xs, ys, may) && CoveredBy(ys, xs, may) <==> xs == ys
  {
    forall d, key | d in xs + ys && key in keys
      ensures KeyCovered(ys, d, key, may) <==> d in ys
      ensures KeyCovered(xs, d, key, may) <==> d in xs
    {
      AskableIsCoveredByItself(d, ys, keys, key, may);
      AskableIsCoveredByItself(d, xs, keys, key, may);
    }
    var key :| key in keys;
    if CoveredBy(xs, ys, may) && CoveredBy(ys, xs, may) {
      forall d ensures d in xs <==> d in ys { assert d in xs || d in ys ==> key in d; }
    }
  }

  /** If requests may contain any text and no value is the text "null", that leaves no combinations or the rows' own. */
  lemma AnswersAgreeForAnyText(cached: set<Dimensions>, live: set<Dimensions>, keys: set<string>)
    requires keys != {} && KeyedBy(cached, keys) && KeyedBy(live, keys)
    requires forall d, k :: d in cached + live && k in d ==> d[k] != Some("null")
    ensures (forall property, filters :: property in keys && Over(filters, keys, (s: string) => true) ==>
               AnswersAgree(cached, live, property, filters))
            <==> cached == {} || cached == live
  {
    AnswersAgreeExactly(cached, live, keys, (s: string) => true);
    AskableCoverIsEqual(cached, live, keys, (s: string) => true);
  }

  function Pair(k: string, u: Value, l: string, v: Value): Dimensions {
    map[k := u, l := v]
  }

  ghost predicate IsPairOf(all: set<Dimensions>, x: Dimensions, y: Dimensions) {
    forall d :: d in all <==> d == x || d == y
  }

  lemma PairIsCovered(ys: set<Dimensions>, k: string, u: Value, l: string, v: Value, other: Value, another: Value,
                      may: string -> bool, key: string)
    requires k != l && !Askable(u, may) && !Askable(v, may) && key in {k, l}
    requires Pair(k, u, l, other) in ys && Pair(k, another, l, v) in ys
    ensures KeyCovered(ys, Pair(k, u, l, v), key, may)
  {
    assert AskableKeys(Pair(k, u, l, v), may) == [] by {
      assert forall x :: x !in AskableKeys(Pair(k, u, l, v), may);
    }
    if key == k {
      assert Covers(Pair(k, u, l, other), Pair(k, u, l, v), key, may);
    } else {
      assert Covers(Pair(k, another, l, v), Pair(k, u, l, v), key, may);
    }
  }

  lemma SwappedCovers(k: string, l: string, a: Value, b: Value, c: Value, d: Value, may: string -> bool,
                      xs: set<Dimensions>, ys: set<Dimensions>)
    requires k != l && !Askable(a, may) && !Askable(b, may) && !Askable(c, may) && !Askable(d, may)
    requires IsPairOf(xs, Pair(k, a, l, c), Pair(k, b, l, d)) && IsPairOf(ys, Pair(k, a, l, d), Pair(k, b, l, c))
    ensures CoveredBy(xs, ys, may)
  {
    forall x, key | x in xs && key in x ensures KeyCovered(ys, x, key, may) {
      if x == Pair(k, a, l, c) {
        PairIsCovered(ys, k, a, l, c, d, b, may, key);
      } else {
        PairIsCovered(ys, k, b, l, d, c, a, may, key);
      }
    }
  }

  /** Values that no request can ask for may change partners without any answer changing. */
  lemma PartnersMaySwap(k: string, l: string, a: Value, b: Value, c: Value, d: Value, may: string -> bool,
                        xs: set<Dimensions>, ys: set<Dimensions>)
    requires k != l && a != b && c != d
    requires !Askable(a, may) && !Askable(b, may) && !Askable(c, may) && !Askable(d, may)
    requires IsPairOf(xs, Pair(k, a, l, c), Pair(k, b, l, d)) && IsPairOf(ys, Pair(k, a, l, d), Pair(k, b, l, c))
    ensures xs != ys && CoveredBy(xs, ys, may) && CoveredBy(ys, xs, may)
  {
    assert Pair(k, a, l, c) in xs && Pair(k, a, l, c) !in ys by { PairsDiffer(k, l, a, b, c, d); }
    SwappedCovers(k, l, a, b, c, d, may, xs, ys);
    SwappedCovers(k, l, a, b, d, c, may, ys, xs);
  }

  lemma PairsDiffer(k: string, l: string, a: Value, b: Value, c: Value, d: Value)
    requires k != l && a != b && c != d
    ensures Pair(k, a, l, c) != Pair(k, a, l, d) && Pair(k, a, l, c) != Pair(k, b, l, c)
  {
    assert Pair(k, a, l, c)[l] != Pair(k, a, l, d)[l] && Pair(k, a, l, c)[k] != Pair(k, b, l, c)[k];
  }

  // ----- The endpoint -----

  /** The combinations of a collection, of whatever snapshots. */
  function CachedDimensions(db: Database, collection: string): set<Dimensions> {
    if db.combinations.None? then {}
    else set c | c in db.combinations.value && c.sourceTable == collection :: c.dimensions
  }

  function LiveDimensions(db: Database, keys: set<string>): set<Dimensions> {
    set row | row in db.table :: Projection(row, keys)
  }

  lemma CachedIsValuesOf(db: Database, collection: string, property: string, filters: seq<Filter>)
    requires db.combinations.Some?
    ensures CachedValues(db, CacheConditions(collection, property, filters, false), property) ==
            ValuesOf(CachedDimensions(db, collection), property, filters)
  {
    var conditions := CacheConditions(collection, property, filters, false);
    var cached := CachedValues(db, conditions, property);
    var values := ValuesOf(CachedDimensions(db, collection), property, filters);
    forall c | c in db.combinations.value
      ensures SatisfiesAll(c, conditions, db) <==>
              c.sourceTable == collection && property in c.dimensions && Meets(c.dimensions, filters)
    {
      ConditionsMean(c, db, collection, property, filters, false);
    }
    forall v | v in values ensures v in cached {
      var d :| d in CachedDimensions(db, collection) && property in d && Meets(d, filters) && d[property] == v;
      var c :| c in db.combinations.value && c.sourceTable == collection && c.dimensions == d;
      assert ElementAt(c, property) == v;
    }
  }

  lemma LiveIsValuesOf(db: Database, keys: set<string>, property: string, filters: seq<Filter>)
    requires property in keys && forall i :: 0 <= i < |filters| ==> filters[i].0 in keys
    ensures LiveValues(db, property, filters) == ValuesOf(LiveDimensions(db, keys), property, filters)
  {
    forall row ensures Passes(filters, row) <==> Meets(Projection(row, keys), filters) { }
    var live, values := LiveValues(db, property, filters), ValuesOf(LiveDimensions(db, keys), property, filters);
    forall v | v in live ensures v in values {
      var row :| row in db.table && Passes(filters, row) && Column(row, property) == v;
      assert Projection(row, keys) in LiveDimensions(db, keys) && Projection(row, keys)[property] == v;
    }
    forall v | v in values ensures v in live {
      var d :| d in LiveDimensions(db, keys) && property in d && Meets(d, filters) && d[property] == v;
      var row :| row in db.table && Projection(row, keys) == d;
      assert Passes(filters, row) && Column(row, property) == v;
    }
  }

  function GroupKeys(schema: Schema): set<string> {
    if schema.groupBy.None? then {} else set k | k in schema.groupBy.value
  }

  /** A collection with group-by columns that may be named in requests. */
  predicate Describes(schema: Schema, collection: string) {
    && Sanitary(collection) && GroupKeys(schema) != {}
    && forall k :: k in GroupKeys(schema) ==> Sanitary(k) && k in schema.properties
  }

  /** What the endpoint answers to a question about the group-by columns. */
  lemma UncheckedAnswer(db: Database, schema: Schema, collection: string, property: string, filters: seq<Filter>)
    requires Describes(schema, collection) && property in GroupKeys(schema) && Over(filters, GroupKeys(schema), Sanitary)
    ensures var cached := ValuesOf(CachedDimensions(db, collection), property, filters);
            var live := ValuesOf(LiveDimensions(db, GroupKeys(schema)), property, filters);
            GetQueryableValues(db, schema, collection, property, filters, false) ==
            Ok(OrderedDistinct(if cached == {} then live else cached))
  {
    assert forall i :: 0 <= i < |filters| ==> SanitaryFilter(filters[i]);
    LiveIsValuesOf(db, GroupKeys(schema), property, filters);
    if db.combinations.Some? { CachedIsValuesOf(db, collection, property, filters); }
  }

  /** The same without a combinations table. */
  lemma AnswerWithout(db: Database, schema: Schema, collection: string, property: string, filters: seq<Filter>)
    requires Describes(schema, collection) && property in GroupKeys(schema) && Over(filters, GroupKeys(schema), Sanitary)
    ensures GetQueryableValues(db.(combinations := None), schema, collection, property, filters, false) ==
            Ok(OrderedDistinct(ValuesOf(LiveDimensions(db, GroupKeys(schema)), property, filters)))
  {
    var without, keys := db.(combinations := None), GroupKeys(schema);
    UncheckedAnswer(without, schema, collection, property, filters);
    assert LiveDimensions(without, keys) == LiveDimensions(db, keys) && CachedDimensions(without, collection) == {};
  }

  lemma NullIsSanitary()
    ensures Sanitary("null")
  {
    var s := "null";
    assert s[|s| - 1] != '\n';
  }

  ghost predicate TransparentFor(db: Database, schema: Schema, collection: string, property: string, filters: seq<Filter>) {
    GetQueryableValues(db, schema, collection, property, filters, false) ==
    GetQueryableValues(db.(combinations := None), schema, collection, property, filters, false)
  }

  ghost predicate Transparent(db: Database, schema: Schema, collection: string) {
    forall property, filters :: TransparentFor(db, schema, collection, property, filters)
  }

  /** A combination that no row has any more is served by the endpoint, to a request that does not find its value. */
  lemma StaleIsServed(db: Database, schema: Schema, collection: string, property: string, d: Dimensions)
    requires Describes(schema, collection) && property in GroupKeys(schema) && d.Keys == GroupKeys(schema)
    requires d in CachedDimensions(db, collection)
    requires !KeyCovered(LiveDimensions(db, GroupKeys(schema)), d, property, Sanitary)
    ensures var filters := FiltersFor(d, AskableKeys(d, Sanitary));
            var r := GetQueryableValues(db, schema, collection, property, filters, false);
            var without := GetQueryableValues(db.(combinations := None), schema, collection, property, filters, false);
            r.Ok? && d[property] in r.value && without.Ok? && d[property] !in without.value
  {
    var keys, filters := GroupKeys(schema), FiltersFor(d, AskableKeys(d, Sanitary));
    NullIsSanitary();
    ExtraIsServed(CachedDimensions(db, collection), LiveDimensions(db, keys), keys, d, property, Sanitary);
    UncheckedAnswer(db, schema, collection, property, filters);
    AnswerWithout(db, schema, collection, property, filters);
  }

  /** Old combinations hide a row that none of them covers: to some request the endpoint answers without its value. */
  lemma NewIsHidden(db: Database, schema: Schema, collection: string, missed: string, d: Dimensions)
    returns (property: string, filters: seq<Filter>)
    requires var cached, live := CachedDimensions(db, collection), LiveDimensions(db, GroupKeys(schema));
             && Describes(schema, collection) && KeyedBy(cached, GroupKeys(schema)) && cached != {}
             && d in live && missed in GroupKeys(schema) && !KeyCovered(cached, d, missed, Sanitary)
    ensures property in d && Over(filters, GroupKeys(schema), Sanitary)
    ensures var r := GetQueryableValues(db, schema, collection, property, filters, false);
            r.Ok? && r.value != [] && d[property] !in r.value
    ensures var r := GetQueryableValues(db.(combinations := None), schema, collection, property, filters, false);
            r.Ok? && d[property] in r.value
  {
    var keys := GroupKeys(schema);
    var cached, live := CachedDimensions(db, collection), LiveDimensions(db, keys);
    NullIsSanitary();
    property, filters := MissingIsHidden(cached, live, keys, d, missed, Sanitary);
    UncheckedAnswer(db, schema, collection, property, filters);
    AnswerWithout(db, schema, collection, property, filters);
    var v :| v in ValuesOf(cached, property, filters);
    assert v in OrderedDistinct(ValuesOf(cached, property, filters));
  }

  /**
   * Without the snapshot check the endpoint answers every request as if there were no combinations table exactly when
   * the collection has no combinations, or they, at whatever snapshots, and those of its rows cover each other.
   */
  lemma UncheckedIsTransparentExactly(db: Database, schema: Schema, collection: string)
    requires Describes(schema, collection) && KeyedBy(CachedDimensions(db, collection), GroupKeys(schema))
    ensures Transparent(db, schema, collection) <==>
            NoneOrCovering(CachedDimensions(db, collection), LiveDimensions(db, GroupKeys(schema)), Sanitary)
  {
    var keys := GroupKeys(schema);
    var cached, live := CachedDimensions(db, collection), LiveDimensions(db, keys);
    if NoneOrCovering(cached, live, Sanitary) {
      forall property, filters ensures TransparentFor(db, schema, collection, property, filters) {
        SameAnswer(db, schema, collection, property, filters);
      }
    } else if !CoveredBy(cached, live, Sanitary) {
      var d, key :| d in cached && key in d && !KeyCovered(live, d, key, Sanitary);
      StaleIsServed(db, schema, collection, key, d);
      assert !TransparentFor(db, schema, collection, key, FiltersFor(d, AskableKeys(d, Sanitary)));
    } else {
      var d, key :| d in live && key in d && !KeyCovered(cached, d, key, Sanitary);
      var property, filters := NewIsHidden(db, schema, collection, key, d);
      assert !TransparentFor(db, schema, collection, property, filters);
    }
  }

  /** In particular, when all values are sanitary and none is the text "null": when they are those of the rows. */
  lemma UncheckedIsTransparentForAskable(db: Database, schema: Schema, collection: string)
    requires Describes(schema, collection) && KeyedBy(CachedDimensions(db, collection), GroupKeys(schema))
    requires AllAskable(CachedDimensions(db, collection), Sanitary)
    requires AllAskable(LiveDimensions(db, GroupKeys(schema)), Sanitary)
    ensures Transparent(db, schema, collection) <==>
            CachedDimensions(db, collection) == {} ||
            CachedDimensions(db, collection) == LiveDimensions(db, GroupKeys(schema))
  {
    UncheckedIsTransparentExactly(db, schema, collection);
    var keys := GroupKeys(schema);
    AskableCoverIsEqual(CachedDimensions(db, collection), LiveDimensions(db, keys), keys, Sanitary);
  }

  lemma SameAnswer(db: Database, schema: Schema, collection: string, property: string, filters: seq<Filter>)
    requires Describes(schema, collection)
    requires NoneOrCovering(CachedDimensions(db, collection), LiveDimensions(db, GroupKeys(schema)), Sanitary)
    ensures TransparentFor(db, schema, collection, property, filters)
  {
    var keys := GroupKeys(schema);
    var cached, live := CachedDimensions(db, collection), LiveDimensions(db, keys);
    if property in keys && Over(filters, keys, Sanitary) {
      UncheckedAnswer(db, schema, collection, property, filters);
      AnswerWithout(db, schema, collection, property, filters);
      CoveringAgrees(cached, live, keys, Sanitary, property, filters);
    } else {
      NeverLookedUp(db, schema, collection, property, filters);
    }
  }

  /** Other requests fail, or ask for a property that no combination has. */
  lemma NeverLookedUp(db: Database, schema: Schema, collection: string, property: string, filters: seq<Filter>)
    requires Describes(schema, collection)
    requires !(property in GroupKeys(schema) && Over(filters, GroupKeys(schema), Sanitary))
    ensures TransparentFor(db, schema, collection, property, filters)
  {
    assert LiveValues(db.(combinations := None), property, filters) == LiveValues(db, property, filters);
    if property in GroupKeys(schema) {
      var i :| 0 <= i < |filters| && !(filters[i].0 in GroupKeys(schema) && Sanitary(filters[i].1));
      assert filters[i].0 in GroupKeys(schema) ==> !SanitaryFilter(filters[i]);
    }
  }

  lemma CheckedAnswer(db: Database, schema: Schema, collection: string, property: string, filters: seq<Filter>,
                      keys: set<string>)
    requires Describes(schema, collection) && property in GroupKeys(schema) && Over(filters, GroupKeys(schema), Sanitary)
    requires UpToDate(db, collection, keys)
    ensures GetQueryableValues(db, schema, collection, property, filters, true) ==
            Ok(OrderedDistinct(LiveValues(db, property, filters)))
  {
    assert forall i :: 0 <= i < |filters| ==> SanitaryFilter(filters[i]);
    assert LiveValues(db.(combinations := None), property, filters) == LiveValues(db, property, filters);
    CacheIsTransparent(db, schema, collection, property, filters, keys);
  }

  /**
   * What the check changes, for any request: a value that only a left-over combination has for the request's filters
   * is served without the check, and not with it.
   */
  lemma LeftOversAreServedUnchecked(db: Database, schema: Schema, collection: string, property: string,
                                    filters: seq<Filter>, keys: set<string>, stale: Combination)
    requires Describes(schema, collection) && property in GroupKeys(schema) && Over(filters, GroupKeys(schema), Sanitary)
    requires UpToDate(db, collection, keys) && db.combinations.Some? && stale in db.combinations.value
    requires stale.sourceTable == collection && property in stale.dimensions && Meets(stale.dimensions, filters)
    requires stale.dimensions[property] !in LiveValues(db, property, filters)
    ensures var unchecked := GetQueryableValues(db, schema, collection, property, filters, false);
            unchecked.Ok? && stale.dimensions[property] in unchecked.value
    ensures var checked := GetQueryableValues(db, schema, collection, property, filters, true);
            checked.Ok? && stale.dimensions[property] !in checked.value
  {
    var cached := ValuesOf(CachedDimensions(db, collection), property, filters);
    assert stale.dimensions[property] in cached by { assert stale.dimensions in CachedDimensions(db, collection); }
    UncheckedAnswer(db, schema, collection, property, filters);
    CheckedAnswer(db, schema, collection, property, filters, keys);
  }
}
