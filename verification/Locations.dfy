/** The locations collection: joining attributes, de-duplicating, pivoting and paging. */
module Locations {
  import opened Common
  import opened Filtering
  import opened Paging

  /** A row of the attributes table: the location it belongs to, the attribute's name and its value. */
  datatype Attribute = Attribute(locationId: Value, name: Value, value: Value)

  /** A row of the left join: a location with one of its attributes, or with NULL for both attribute columns. */
  datatype Joined = Joined(location: Row, name: Value, value: Value)

  datatype PivotError = DuplicateEntries | IdAttribute | DuplicateColumns

  function Id(location: Row): Value {
    Column(location, "id")
  }

  // ----- The query -----

  function Matching(id: Value, attributes: seq<Attribute>): seq<Attribute> {
    if attributes == [] then []
    else (if id.Some? && attributes[0].locationId == id then [attributes[0]] else []) + Matching(id, attributes[1..])
  }

  function JoinOne(location: Row, attributes: seq<Attribute>): seq<Joined> {
    var own := Matching(Id(location), attributes);
    if own == [] then [Joined(location, None, None)]
    else seq(|own|, i requires 0 <= i < |own| => Joined(location, own[i].name, own[i].value))
  }

  /** `locations LEFT JOIN location_attributes`. */
  function Join(locations: seq<Row>, attributes: seq<Attribute>): seq<Joined> {
    if locations == [] then []
    else JoinOne(locations[0], attributes) + Join(locations[1..], attributes)
  }

  function LocationsOf(df: seq<Joined>): seq<Row> {
    seq(|df|, i requires 0 <= i < |df| => df[i].location)
  }

  /** What the database may return for the join `ORDER BY l.id`: the rows of one location in any order. */
  ghost predicate Answers(locations: seq<Row>, attributes: seq<Attribute>, df: seq<Joined>) {
    multiset(df) == multiset(Join(locations, attributes)) && SortedBy(["id"], LocationsOf(df))
  }

  ghost predicate DistinctIds(rows: seq<Row>) {
    forall i, j :: 0 <= i < j < |rows| ==> Id(rows[i]) != Id(rows[j])
  }

  /** Location ids are there and unique. */
  ghost predicate UniqueIds(locations: seq<Row>) {
    (forall i :: 0 <= i < |locations| ==> Id(locations[i]).Some?) && DistinctIds(locations)
  }

  // ----- After the query -----

  predicate HasId(locations: seq<Row>, id: Value) {
    exists i :: 0 <= i < |locations| && Id(locations[i]) == id
  }

  /** `drop_duplicates(subset=["id"])`: the first row of each id. */
  function DropDuplicates(rows: seq<Row>): seq<Row> {
    if rows == [] then []
    else
      var before, last := DropDuplicates(rows[..|rows| - 1]), Last(rows);
      if HasId(before, Id(last)) then before else before + [last]
  }

  predicate Attributed(r: Joined, id: Value, name: string) {
    Id(r.location) == id && r.name == Some(name)
  }

  predicate NoDuplicateEntries(df: seq<Joined>) {
    forall i, j :: 0 <= i < j < |df| && df[i].name.Some? ==> !Attributed(df[j], Id(df[i].location), df[i].name.value)
  }

  function Names(df: seq<Joined>): set<string> {
    set r | r in df && r.name.Some? :: r.name.value
  }

  /** The cell of the pivoted table, missing when the location has no such attribute. */
  function Cell(df: seq<Joined>, id: Value, name: string): Value {
    if df == [] then None
    else if Attributed(df[0], id, name) then df[0].value
    else Cell(df[1..], id, name)
  }

  function Cells(df: seq<Joined>, id: Value): Row {
    map name | name in Names(df) :: Cell(df, id, name)
  }

  function Suffixed(columns: set<string>, suffix: string): set<string> {
    set c | c in columns :: c + suffix
  }

  function Renamed(row: Row, columns: set<string>, suffix: string): Row
    requires columns <= row.Keys && |suffix| == 2
  {
    map k | k in Suffixed(columns, suffix) :: row[k[..|k| - 2]]
  }

  /** A merged row: columns that both sides have get the suffixes `_x` and `_y`. */
  function Merge(location: Row, cells: Row): Row {
    var both := location.Keys * cells.Keys;
    (location - both) + (cells - both) + Renamed(location, both, "_x") + Renamed(cells, both, "_y")
  }

  /** The new names of clashing columns clash again. */
  predicate Reclashes(location: Row, names: set<string>) {
    var both := location.Keys * names;
    var kept := location.Keys + names - both;
    Suffixed(both, "_x") * (kept + Suffixed(both, "_y")) != {} || Suffixed(both, "_y") * kept != {}
  }

  function Features(df: seq<Joined>, locations: seq<Row>): seq<Row> {
    seq(|locations|, i requires 0 <= i < |locations| => Merge(locations[i], Cells(df, Id(locations[i]))))
  }

  function PivotedPage(df: seq<Joined>, offset: Option<nat>, limit: Option<nat>): Result<seq<Row>, PivotError> {
    var locations, start := DropDuplicates(LocationsOf(df)), if offset.Some? then offset.value else 0;
    if Names(df) == {} then Ok(Page(locations, start, limit))
    else if !NoDuplicateEntries(df) then Err(DuplicateEntries)
    else if "id" in Names(df) then Err(IdAttribute)
    else if exists i :: 0 <= i < |locations| && Reclashes(locations[i], Names(df)) then Err(DuplicateColumns)
    else Ok(Page(Features(df, locations), start, limit))
  }

  /** What `get_locations_items` does with the joined rows. */
  method PivotAndPage(df: seq<Joined>, offset: Option<nat>, limit: Option<nat>)
    returns (r: Result<seq<Row>, PivotError>)
    ensures r == PivotedPage(df, offset, limit)
  {
    var locations := DropDuplicates(LocationsOf(df));
    var features := locations;
    assert Names(df) == {} <==> forall i :: 0 <= i < |df| ==> df[i].name.None? by {
      assert forall i :: 0 <= i < |df| && df[i].name.Some? ==> df[i].name.value in Names(df);
    }
    if exists i :: 0 <= i < |df| && df[i].name.Some? {
      if !NoDuplicateEntries(df) {
        return Err(DuplicateEntries);
      }
      if "id" in Names(df) {
        return Err(IdAttribute);
      }
      if exists i :: 0 <= i < |locations| && Reclashes(locations[i], Names(df)) {
        return Err(DuplicateColumns);
      }
      features := Features(df, locations);
    }
    var start := if offset.Some? then offset.value else 0;
    features := Page(features, start, limit);
    return Ok(features);
  }

  // ----- De-duplicating -----

  lemma HasIdAppend(rows: seq<Row>, last: Row, id: Value)
    ensures HasId(rows + [last], id) <==> HasId(rows, id) || Id(last) == id
  {
    var all := rows + [last];
    if Id(last) == id { assert Id(all[|rows|]) == id; }
    if i :| 0 <= i < |rows| && Id(rows[i]) == id { assert Id(all[i]) == id; }
  }

  lemma {:induction false} DropDuplicatesCovers(rows: seq<Row>, l: Row)
    requires l in rows
    ensures HasId(DropDuplicates(rows), Id(l))
  {
    var head := rows[..|rows| - 1];
    assert rows == head + [Last(rows)];
    HasIdAppend(DropDuplicates(head), Last(rows), Id(l));
    if l in head { DropDuplicatesCovers(head, l); }
  }

  lemma DistinctIdsAppend(rows: seq<Row>, last: Row)
    requires DistinctIds(rows) && !HasId(rows, Id(last))
    ensures DistinctIds(rows + [last])
  {
  }

  lemma {:induction false} DropDuplicatesKeeps(rows: seq<Row>)
    ensures DistinctIds(DropDuplicates(rows))
    ensures forall l :: l in DropDuplicates(rows) ==> l in rows
  {
    if rows != [] {
      var head := rows[..|rows| - 1];
      assert rows == head + [Last(rows)];
      DropDuplicatesKeeps(head);
      if !HasId(DropDuplicates(head), Id(Last(rows))) { DistinctIdsAppend(DropDuplicates(head), Last(rows)); }
    }
  }

  lemma {:induction false} DropDuplicatesSorted(columns: seq<string>, rows: seq<Row>)
    requires SortedBy(columns, rows)
    ensures SortedBy(columns, DropDuplicates(rows))
  {
    if rows != [] {
      var head := rows[..|rows| - 1];
      var before := DropDuplicates(head);
      DropDuplicatesSorted(columns, head);
      DropDuplicatesKeeps(head);
      forall i | 0 <= i < |before| ensures RowLe(columns, before[i], Last(rows)) {
        assert before[i] in head;
      }
    }
  }

  lemma {:induction false} InJoin(locations: seq<Row>, attributes: seq<Attribute>, r: Joined)
    ensures r in Join(locations, attributes) <==> r.location in locations && r in JoinOne(r.location, attributes)
  {
    if locations != [] {
      InJoin(locations[1..], attributes, r);
      if r in JoinOne(locations[0], attributes) { assert r.location == locations[0]; }
      assert r.location in locations <==> r.location == locations[0] || r.location in locations[1..];
    }
  }

  lemma {:induction false} DistinctCounts<T>(s: seq<T>, x: T)
    requires Distinct(s)
    ensures multiset(s)[x] == if x in s then 1 else 0
  {
    if s != [] {
      assert s == [s[0]] + s[1..];
      DistinctCounts(s[1..], x);
    }
  }

  lemma LocationsOfAnswer(locations: seq<Row>, attributes: seq<Attribute>, df: seq<Joined>, l: Row)
    requires Answers(locations, attributes, df)
    ensures l in LocationsOf(df) <==> l in locations
  {
    if l in LocationsOf(df) {
      var i :| 0 <= i < |df| && df[i].location == l;
      assert df[i] in multiset(df);
      InJoin(locations, attributes, df[i]);
    }
    if l in locations {
      var r := JoinOne(l, attributes)[0];
      InJoin(locations, attributes, r);
      assert r in multiset(df);
      var i :| 0 <= i < |df| && df[i] == r;
      assert LocationsOf(df)[i] == l;
    }
  }

  /** What is left after de-duplication is exactly the locations, in id order. */
  lemma DropDuplicatesIsLocations(locations: seq<Row>, attributes: seq<Attribute>, df: seq<Joined>)
    requires UniqueIds(locations) && Answers(locations, attributes, df)
    ensures Arranges(["id"], multiset(locations), DropDuplicates(LocationsOf(df)))
  {
    var rows := LocationsOf(df);
    var kept := DropDuplicates(rows);
    DropDuplicatesKeeps(rows);
    DropDuplicatesSorted(["id"], rows);
    forall l: Row ensures l in kept <==> l in locations {
      LocationsOfAnswer(locations, attributes, df, l);
      if l in locations {
        DropDuplicatesCovers(rows, l);
        var i :| 0 <= i < |kept| && Id(kept[i]) == Id(l);
        LocationsOfAnswer(locations, attributes, df, kept[i]);
        assert kept[i] in locations;
      }
    }
    SameElements(kept, locations);
  }

  lemma SameElements<T>(a: seq<T>, b: seq<T>)
    requires Distinct(a) && Distinct(b) && forall x :: x in a <==> x in b
    ensures multiset(a) == multiset(b)
  {
    forall x: T ensures multiset(a)[x] == multiset(b)[x] {
      DistinctCounts(a, x);
      DistinctCounts(b, x);
    }
  }

  // ----- Attributes -----

  lemma {:induction false} InMatching(id: Value, attributes: seq<Attribute>, a: Attribute)
    ensures a in Matching(id, attributes) <==> a in attributes && id.Some? && a.locationId == id
  {
    if attributes != [] {
      InMatching(id, attributes[1..], a);
      assert a in attributes <==> a == attributes[0] || a in attributes[1..];
    }
  }

  /** The join pairs a location with exactly its own attribute rows. */
  lemma NamedInJoin(locations: seq<Row>, attributes: seq<Attribute>, l: Row, name: string, value: Value)
    requires l in locations && Id(l).Some?
    ensures Joined(l, Some(name), value) in Join(locations, attributes) <==>
            Attribute(Id(l), Some(name), value) in attributes
  {
    var r, a := Joined(l, Some(name), value), Attribute(Id(l), Some(name), value);
    var own := Matching(Id(l), attributes);
    InJoin(locations, attributes, r);
    InMatching(Id(l), attributes, a);
    if r in JoinOne(l, attributes) {
      var i :| 0 <= i < |own| && JoinOne(l, attributes)[i] == r;
      InMatching(Id(l), attributes, own[i]);
      assert own[i] == a;
    }
    if a in own {
      var i :| 0 <= i < |own| && own[i] == a;
      assert JoinOne(l, attributes)[i] == r;
    }
  }

  lemma {:induction false} CellIs(df: seq<Joined>, id: Value, name: string, r: Joined)
    requires r in df && Attributed(r, id, name) && NoDuplicateEntries(df)
    ensures Cell(df, id, name) == r.value
  {
    if Attributed(df[0], id, name) {
      assert forall j :: 0 < j < |df| ==> !Attributed(df[j], id, name);
    } else {
      assert r in df[1..] by { assert df == [df[0]] + df[1..]; }
      CellIs(df[1..], id, name, r);
    }
  }

  lemma {:induction false} CellComesFrom(df: seq<Joined>, id: Value, name: string)
    requires Cell(df, id, name).Some?
    ensures exists r :: r in df && Attributed(r, id, name) && r.value == Cell(df, id, name)
  {
    if Attributed(df[0], id, name) {
      assert df[0] in df;
    } else {
      CellComesFrom(df[1..], id, name);
    }
  }

  /** A cell of the pivoted table holds a value exactly when the attributes table gives it to that location. */
  lemma CellsAreOwn(locations: seq<Row>, attributes: seq<Attribute>, df: seq<Joined>, l: Row, name: string, value: string)
    requires UniqueIds(locations) && Answers(locations, attributes, df) && l in locations && NoDuplicateEntries(df)
    ensures name in Names(df) && Cell(df, Id(l), name) == Some(value) <==>
            Attribute(Id(l), Some(name), Some(value)) in attributes
  {
    var r := Joined(l, Some(name), Some(value));
    NamedInJoin(locations, attributes, l, name, Some(value));
    if r in Join(locations, attributes) {
      assert r in multiset(df);
      CellIs(df, Id(l), name, r);
    }
    if Cell(df, Id(l), name) == Some(value) {
      CellComesFrom(df, Id(l), name);
      var found :| found in df && Attributed(found, Id(l), name) && found.value == Some(value);
      assert found in multiset(Join(locations, attributes));
      InJoin(locations, attributes, found);
      assert found == r;
    }
  }

  // ----- Clashing columns -----

  /** Without a common column the merged row is both rows side by side. */
  lemma MergeKeepsBoth(location: Row, cells: Row)
    requires location.Keys * cells.Keys == {}
    ensures Merge(location, cells) == location + cells
  {
  }

  /** A name that both sides have is split in two: with `_x` the location's value, with `_y` the attribute's. */
  lemma MergeSplitsClashes(location: Row, cells: Row, c: string)
    requires !Reclashes(location, cells.Keys) && c in location && c in cells
    ensures var merged := Merge(location, cells);
            && c + "_x" in merged && merged[c + "_x"] == location[c]
            && c + "_y" in merged && merged[c + "_y"] == cells[c]
  {
    var both := location.Keys * cells.Keys;
    var x, y := c + "_x", c + "_y";
    assert x[..|x| - 2] == c && y[..|y| - 2] == c;
    assert x in Suffixed(both, "_x") && y in Suffixed(both, "_y");
    assert x !in Suffixed(both, "_y");
  }

  predicate Shortest(columns: set<string>, c: string) {
    c in columns && forall d :: d in columns ==> |c| <= |d|
  }

  lemma {:induction false} ShortestExists(columns: set<string>) returns (c: string)
    requires columns != {}
    ensures Shortest(columns, c)
  {
    c :| c in columns;
    if columns != {c} {
      var other := ShortestExists(columns - {c});
      if |other| < |c| { c := other; }
    }
  }

  /** The merged row still has every location column under its own name exactly when no attribute is named like one. */
  lemma MergeKeepsLocationExactly(location: Row, cells: Row)
    ensures (forall c :: c in location ==> c in Merge(location, cells)) <==> location.Keys * cells.Keys == {}
  {
    var both, merged := location.Keys * cells.Keys, Merge(location, cells);
    if both == {} {
      MergeKeepsBoth(location, cells);
    } else {
      var c := ShortestExists(both);
      assert c !in Suffixed(both, "_x") && c !in Suffixed(both, "_y");
      assert c in location && c !in merged;
    }
  }

  // ----- When the pivot fails -----

  lemma {:induction false} OccursTwice<T>(s: seq<T>, x: T)
    ensures multiset(s)[x] >= 2 <==> exists i, j :: 0 <= i < j < |s| && s[i] == x && s[j] == x
  {
    if s != [] {
      var tail := s[1..];
      assert s == [s[0]] + tail;
      OccursTwice(tail, x);
      if i, j :| 0 <= i < j < |tail| && tail[i] == x && tail[j] == x {
        assert s[i + 1] == x && s[j + 1] == x;
      }
      if s[0] == x && x in tail {
        var j :| 0 <= j < |tail| && tail[j] == x;
        assert s[0] == x && s[j + 1] == x;
      }
      if i, j :| 0 <= i < j < |s| && s[i] == x && s[j] == x {
        assert tail[j - 1] == x;
        if i > 0 { assert tail[i - 1] == x; }
      }
    }
  }

  predicate SameEntry(a: Joined, b: Joined) {
    a.name.Some? && Attributed(b, Id(a.location), a.name.value)
  }

  /** The same, of the rows in any order. */
  ghost predicate EntriesOnce(rows: multiset<Joined>) {
    forall a, b :: a in rows && b in rows && SameEntry(a, b) ==> a == b && rows[a] == 1
  }

  lemma EntriesOnceIsOrderless(df: seq<Joined>)
    ensures NoDuplicateEntries(df) <==> EntriesOnce(multiset(df))
  {
    if NoDuplicateEntries(df) {
      forall a, b | a in multiset(df) && b in multiset(df) && SameEntry(a, b) ensures a == b && multiset(df)[a] == 1 {
        var i :| 0 <= i < |df| && df[i] == a;
        var j :| 0 <= j < |df| && df[j] == b;
        assert !(i < j) && !(j < i);
        OccursTwice(df, a);
      }
    } else {
      var i, j :| 0 <= i < j < |df| && df[i].name.Some? && Attributed(df[j], Id(df[i].location), df[i].name.value);
      assert SameEntry(df[i], df[j]) && df[i] in multiset(df) && df[j] in multiset(df);
      if EntriesOnce(multiset(df)) { OccursTwice(df, df[i]); }
    }
  }

  /** No attribute name twice. */
  predicate NamesOnce(own: seq<Attribute>) {
    forall i, j :: 0 <= i < j < |own| && own[i].name.Some? ==> own[i].name != own[j].name
  }

  lemma JoinOneOnce(l: Row, attributes: seq<Attribute>)
    ensures NoDuplicateEntries(JoinOne(l, attributes)) <==> NamesOnce(Matching(Id(l), attributes))
  {
    var own, rows := Matching(Id(l), attributes), JoinOne(l, attributes);
    if own != [] {
      assert forall i, j :: 0 <= i < j < |own| && own[i].name.Some? ==>
        (Attributed(rows[j], Id(rows[i].location), rows[i].name.value) <==> own[i].name == own[j].name);
      if !NamesOnce(own) {
        var i, j :| 0 <= i < j < |own| && own[i].name.Some? && own[i].name == own[j].name;
        assert Attributed(rows[j], Id(rows[i].location), rows[i].name.value);
      }
    }
  }

  lemma NoDuplicatesAppend(a: seq<Joined>, b: seq<Joined>)
    requires forall r, s :: r in a && s in b ==> Id(r.location) != Id(s.location)
    ensures NoDuplicateEntries(a + b) <==> NoDuplicateEntries(a) && NoDuplicateEntries(b)
  {
    var all := a + b;
    if NoDuplicateEntries(all) {
      forall i, j | 0 <= i < j < |b| && b[i].name.Some?
        ensures !Attributed(b[j], Id(b[i].location), b[i].name.value)
      {
        assert all[|a| + i] == b[i] && all[|a| + j] == b[j];
      }
      assert forall i :: 0 <= i < |a| ==> all[i] == a[i];
    }
    if NoDuplicateEntries(a) && NoDuplicateEntries(b) {
      forall i, j | 0 <= i < j < |all| && all[i].name.Some?
        ensures !Attributed(all[j], Id(all[i].location), all[i].name.value)
      {
        if i < |a| <= j {
          assert all[i] in a && all[j] in b;
        }
      }
    }
  }

  lemma {:induction false} JoinOnce(locations: seq<Row>, attributes: seq<Attribute>)
    requires UniqueIds(locations)
    ensures NoDuplicateEntries(Join(locations, attributes)) <==>
            forall l :: l in locations ==> NamesOnce(Matching(Id(l), attributes))
  {
    if locations != [] {
      var rest := locations[1..];
      assert forall l :: l in locations <==> l == locations[0] || l in rest;
      JoinOnce(rest, attributes);
      JoinOneOnce(locations[0], attributes);
      forall r, s | r in JoinOne(locations[0], attributes) && s in Join(rest, attributes)
        ensures Id(r.location) != Id(s.location)
      {
        InJoin(rest, attributes, s);
      }
      NoDuplicatesAppend(JoinOne(locations[0], attributes), Join(rest, attributes));
    }
  }

  /** The request fails on a duplicate exactly when a selected location has two attribute rows of the same name. */
  lemma DuplicatesFailExactly(locations: seq<Row>, attributes: seq<Attribute>, df: seq<Joined>,
                              offset: Option<nat>, limit: Option<nat>)
    requires UniqueIds(locations) && Answers(locations, attributes, df)
    ensures PivotedPage(df, offset, limit) == Err(DuplicateEntries) <==>
            exists l :: l in locations && !NamesOnce(Matching(Id(l), attributes))
  {
    EntriesOnceIsOrderless(df);
    EntriesOnceIsOrderless(Join(locations, attributes));
    JoinOnce(locations, attributes);
    DuplicatesFail(df, offset, limit);
  }

  lemma DuplicatesFail(df: seq<Joined>, offset: Option<nat>, limit: Option<nat>)
    ensures PivotedPage(df, offset, limit) == Err(DuplicateEntries) <==> !NoDuplicateEntries(df)
  {
    if !NoDuplicateEntries(df) {
      var i :| 0 <= i < |df| && df[i].name.Some?;
      assert df[i].name.value in Names(df);
    }
  }

  // ----- Exactly when a request fails -----

  /** The names the attributes table gives the selected locations' attributes. */
  function AttributeNames(locations: seq<Row>, attributes: seq<Attribute>): set<string> {
    set l, a | l in locations && a in attributes && a.locationId == Id(l) && a.name.Some? :: a.name.value
  }

  /** Two rows of the attributes table give the location an attribute of the same name. */
  predicate RepeatsName(id: Value, attributes: seq<Attribute>) {
    exists i, j :: 0 <= i < j < |attributes| && attributes[i].locationId == id && attributes[j].locationId == id &&
                   attributes[i].name.Some? && attributes[i].name == attributes[j].name
  }

  /** The name of a column in the merged frame, given the columns of the other side. */
  function NewName(column: string, others: set<string>, suffix: string): string {
    if column in others then column + suffix else column
  }

  /** Two columns of the merged frame get the same name. */
  predicate TwoAlike(columns: set<string>, names: set<string>) {
    || (exists c, d :: c in columns && d in columns && c != d && NewName(c, names, "_x") == NewName(d, names, "_x"))
    || (exists m, n :: m in names && n in names && m != n && NewName(m, columns, "_y") == NewName(n, columns, "_y"))
    || (exists c, n :: c in columns && n in names && NewName(c, names, "_x") == NewName(n, columns, "_y"))
  }

  lemma SuffixesDiffer(a: string, b: string)
    ensures a + "_x" != b + "_y" && (a + "_x" == b + "_x" ==> a == b) && (a + "_y" == b + "_y" ==> a == b)
    ensures a + "_x" != a && a + "_y" != a
  {
    var x, y := a + "_x", b + "_y";
    assert x[|x| - 1] == 'x' && y[|y| - 1] == 'y';
    if a + "_x" == b + "_x" { SuffixInjective(a, b, "_x"); }
    if a + "_y" == b + "_y" { SuffixInjective(a, b, "_y"); }
  }

  lemma ReclashingIsAlike(location: Row, names: set<string>)
    requires Reclashes(location, names)
    ensures TwoAlike(location.Keys, names)
  {
    var both := location.Keys * names;
    var kept := location.Keys + names - both;
    if x :| x in Suffixed(both, "_x") && x in kept + Suffixed(both, "_y") {
      var c :| c in both && c + "_x" == x;
      SuffixesDiffer(c, c);
      if x in Suffixed(both, "_y") {
        var d :| d in both && d + "_y" == x;
        SuffixesDiffer(c, d);
      }
      assert NewName(c, names, "_x") == x && (x in location.Keys ==> NewName(x, names, "_x") == x);
      assert x in names ==> NewName(x, location.Keys, "_y") == x;
    } else {
      var y :| y in Suffixed(both, "_y") && y in kept;
      var n :| n in both && n + "_y" == y;
      SuffixesDiffer(n, n);
      assert NewName(n, location.Keys, "_y") == y && (y in location.Keys ==> NewName(y, names, "_x") == y);
      assert y in names ==> NewName(y, location.Keys, "_y") == y;
    }
  }

  /** A column both sides have and, under its new name, a column that only one side has. */
  ghost predicate Clashing(columns: set<string>, others: set<string>, suffix: string, x: string) {
    (exists c :: c in columns && c in others && x == c + suffix) && (x in columns + others) && !(x in columns && x in others)
  }

  lemma AlikeOnOneSide(columns: set<string>, others: set<string>, suffix: string, c: string, d: string)
    returns (x: string)
    requires suffix == "_x" || suffix == "_y"
    requires c in columns && d in columns && c != d && NewName(c, others, suffix) == NewName(d, others, suffix)
    ensures Clashing(columns, others, suffix, x)
  {
    SuffixesDiffer(c, d);
    x := NewName(c, others, suffix);
  }

  lemma AlikeAcross(columns: set<string>, names: set<string>, c: string, n: string)
    requires c in columns && n in names && NewName(c, names, "_x") == NewName(n, columns, "_y")
    ensures Clashing(columns, names, "_x", n) || Clashing(columns, names, "_y", c)
  {
    SuffixesDiffer(c, n);
  }

  lemma ClashingReclashes(location: Row, names: set<string>, suffix: string, x: string)
    requires suffix == "_x" || suffix == "_y"
    requires Clashing(location.Keys, names, suffix, x)
    ensures Reclashes(location, names)
  {
    var both := location.Keys * names;
    var kept := location.Keys + names - both;
    var c :| c in location.Keys && c in names && x == c + suffix;
    assert x in Suffixed(both, suffix) && x in kept;
    if suffix == "_x" {
      assert x in Suffixed(both, "_x") * (kept + Suffixed(both, "_y"));
    } else {
      assert x in Suffixed(both, "_y") * kept;
    }
  }

  lemma AlikeReclashes(location: Row, names: set<string>)
    requires TwoAlike(location.Keys, names)
    ensures Reclashes(location, names)
  {
    var columns := location.Keys;
    if c, d :| c in columns && d in columns && c != d && NewName(c, names, "_x") == NewName(d, names, "_x") {
      var x := AlikeOnOneSide(columns, names, "_x", c, d);
      ClashingReclashes(location, names, "_x", x);
    } else if m, n :| m in names && n in names && m != n && NewName(m, columns, "_y") == NewName(n, columns, "_y") {
      var y := AlikeOnOneSide(names, columns, "_y", m, n);
      assert Clashing(columns, names, "_y", y);
      ClashingReclashes(location, names, "_y", y);
    } else {
      var c, n :| c in columns && n in names && NewName(c, names, "_x") == NewName(n, columns, "_y");
      AlikeAcross(columns, names, c, n);
      if Clashing(columns, names, "_x", n) {
        ClashingReclashes(location, names, "_x", n);
      } else {
        ClashingReclashes(location, names, "_y", c);
      }
    }
  }

  lemma NamesAreAttributes(locations: seq<Row>, attributes: seq<Attribute>, df: seq<Joined>)
    requires UniqueIds(locations) && Answers(locations, attributes, df)
    ensures Names(df) == AttributeNames(locations, attributes)
  {
    forall n | n in Names(df) ensures n in AttributeNames(locations, attributes) {
      var r :| r in df && r.name == Some(n);
      assert r in multiset(df);
      InJoin(locations, attributes, r);
      NamedInJoin(locations, attributes, r.location, n, r.value);
      assert Id(r.location).Some?;
    }
    forall n | n in AttributeNames(locations, attributes) ensures n in Names(df) {
      var l, a :| l in locations && a in attributes && a.locationId == Id(l) && a.name == Some(n);
      NamedInJoin(locations, attributes, l, n, a.value);
      assert a == Attribute(Id(l), Some(n), a.value);
      assert Joined(l, Some(n), a.value) in multiset(df);
    }
  }

  lemma {:induction false} NamesOnceExactly(id: Value, attributes: seq<Attribute>)
    requires id.Some?
    ensures NamesOnce(Matching(id, attributes)) <==> !RepeatsName(id, attributes)
  {
    if attributes != [] {
      var first, rest := attributes[0], attributes[1..];
      var own := Matching(id, rest);
      NamesOnceExactly(id, rest);
      RepeatsFirst(id, attributes);
      if first.locationId == id {
        assert Matching(id, attributes) == [first] + own;
        NamesOnceFirst(first, own);
        forall a ensures a in own <==> a in rest && a.locationId == id { InMatching(id, rest, a); }
      } else {
        assert Matching(id, attributes) == own;
      }
    }
  }

  lemma NamesOnceFirst(first: Attribute, own: seq<Attribute>)
    ensures NamesOnce([first] + own) <==>
            NamesOnce(own) && (first.name.Some? ==> forall a :: a in own ==> a.name != first.name)
  {
    var all := [first] + own;
    if NamesOnce(all) {
      forall i, j | 0 <= i < j < |own| && own[i].name.Some? ensures own[i].name != own[j].name {
        assert all[i + 1] == own[i] && all[j + 1] == own[j];
      }
      forall a | a in own && first.name.Some? ensures a.name != first.name {
        var j :| 0 <= j < |own| && own[j] == a;
        assert all[0] == first && all[j + 1] == a;
      }
    }
  }

  lemma RepeatsFirst(id: Value, attributes: seq<Attribute>)
    requires attributes != []
    ensures RepeatsName(id, attributes) <==>
            || RepeatsName(id, attributes[1..])
            || (attributes[0].locationId == id && attributes[0].name.Some? &&
                exists a :: a in attributes[1..] && a.locationId == id && a.name == attributes[0].name)
  {
    var rest := attributes[1..];
    if i, j :| 0 <= i < j < |rest| && rest[i].locationId == id && rest[j].locationId == id &&
               rest[i].name.Some? && rest[i].name == rest[j].name {
      assert attributes[i + 1] == rest[i] && attributes[j + 1] == rest[j];
    }
    if a :| a in rest && a.locationId == id && a.name == attributes[0].name &&
            attributes[0].locationId == id && attributes[0].name.Some? {
      var j :| 0 <= j < |rest| && rest[j] == a;
      assert attributes[j + 1] == a;
    }
    if i, j :| 0 <= i < j < |attributes| && attributes[i].locationId == id && attributes[j].locationId == id &&
               attributes[i].name.Some? && attributes[i].name == attributes[j].name {
      assert rest[j - 1] == attributes[j];
      if i > 0 { assert rest[i - 1] == attributes[i]; }
    }
  }

  lemma PivotFails(df: seq<Joined>, offset: Option<nat>, limit: Option<nat>)
    ensures var r, locations := PivotedPage(df, offset, limit), DropDuplicates(LocationsOf(df));
            var reclashes := exists l :: l in locations && Reclashes(l, Names(df));
            && (r == Err(DuplicateEntries) <==> !NoDuplicateEntries(df))
            && (r == Err(IdAttribute) <==> NoDuplicateEntries(df) && "id" in Names(df))
            && (r == Err(DuplicateColumns) <==> NoDuplicateEntries(df) && "id" !in Names(df) && reclashes)
  {
    var locations := DropDuplicates(LocationsOf(df));
    DuplicatesFail(df, offset, limit);
    assert forall i :: 0 <= i < |locations| ==> locations[i] in locations;
    if Names(df) == {} {
      forall l | l in locations ensures !Reclashes(l, {}) { NothingReclashes(l); }
    }
  }

  lemma NothingReclashes(location: Row)
    ensures !Reclashes(location, {})
  {
    assert location.Keys * {} == {};
  }

  /**
   * A request with attributes fails on duplicates when a selected location has two attributes of one name, else on the
   * id when one has an attribute named "id", else on the columns when two columns of the merged frame would get the
   * same name, and otherwise it succeeds.
   */
  lemma FailsExactly(locations: seq<Row>, attributes: seq<Attribute>, df: seq<Joined>,
                     offset: Option<nat>, limit: Option<nat>)
    requires UniqueIds(locations) && Answers(locations, attributes, df)
    ensures var r, names := PivotedPage(df, offset, limit), AttributeNames(locations, attributes);
            var repeats := exists l :: l in locations && RepeatsName(Id(l), attributes);
            var alike := exists l :: l in locations && TwoAlike(l.Keys, names);
            && (r == Err(DuplicateEntries) <==> repeats)
            && (r == Err(IdAttribute) <==> !repeats && "id" in names)
            && (r == Err(DuplicateColumns) <==> !repeats && "id" !in names && alike)
            && (r.Ok? <==> !repeats && "id" !in names && !alike)
  {
    var kept := DropDuplicates(LocationsOf(df));
    PivotFails(df, offset, limit);
    DuplicatesFailExactly(locations, attributes, df, offset, limit);
    NamesAreAttributes(locations, attributes, df);
    DropDuplicatesIsLocations(locations, attributes, df);
    forall l ensures l in kept <==> l in locations { assert l in multiset(kept) <==> l in multiset(locations); }
    forall l | l in locations ensures NamesOnce(Matching(Id(l), attributes)) <==> !RepeatsName(Id(l), attributes) {
      NamesOnceExactly(Id(l), attributes);
    }
    forall l | l in locations
      ensures Reclashes(l, Names(df)) <==> TwoAlike(l.Keys, AttributeNames(locations, attributes))
    {
      if Reclashes(l, Names(df)) { ReclashingIsAlike(l, Names(df)); }
      if TwoAlike(l.Keys, Names(df)) { AlikeReclashes(l, Names(df)); }
    }
  }

  /** Without a repeated name and without an attribute named like a column a request succeeds. */
  lemma CleanNamesSucceed(locations: seq<Row>, attributes: seq<Attribute>, df: seq<Joined>,
                          offset: Option<nat>, limit: Option<nat>)
    requires UniqueIds(locations) && Answers(locations, attributes, df)
    requires forall l :: l in locations ==> !RepeatsName(Id(l), attributes)
    requires forall l, n :: l in locations && n in AttributeNames(locations, attributes) ==> n !in l
    ensures PivotedPage(df, offset, limit).Ok?
  {
    var names := AttributeNames(locations, attributes);
    FailsExactly(locations, attributes, df, offset, limit);
    forall l | l in locations ensures !TwoAlike(l.Keys, names) {
      assert forall c :: c in l.Keys ==> NewName(c, names, "_x") == c;
      assert forall n :: n in names ==> NewName(n, l.Keys, "_y") == n;
    }
  }

  // ----- Pivot and page -----

  lemma MergeKeepsId(location: Row, cells: Row)
    requires "id" !in cells
    ensures Id(Merge(location, cells)) == Id(location)
  {
  }

  /**
   * Pivoting the attributes and then paging gives the same locations, in the same order, as paging in SQL,
   * for every offset and limit and every order in which the database returns a location's attributes.
   */
  lemma PivotThenPage(locations: seq<Row>, attributes: seq<Attribute>, df: seq<Joined>, sql: seq<Row>,
                      offset: Option<nat>, limit: Option<nat>)
    requires UniqueIds(locations) && Answers(locations, attributes, df)
    requires Arranges(["id"], multiset(locations), sql)
    ensures PivotedPage(df, offset, limit).Ok? ==>
              var page, paged := PivotedPage(df, offset, limit).value,
                                 Page(sql, if offset.Some? then offset.value else 0, limit);
              |page| == |paged| &&
              forall i :: 0 <= i < |page| ==>
                && Id(page[i]) == Id(paged[i])
                && page[i] == if Names(df) == {} then paged[i] else Merge(paged[i], Cells(df, Id(paged[i])))
  {
    if PivotedPage(df, offset, limit).Err? {
      return;
    }
    var start := if offset.Some? then offset.value else 0;
    DropDuplicatesIsSql(locations, attributes, df, sql);
    var page, paged := PivotedPage(df, offset, limit).value, Page(sql, start, limit);
    if Names(df) != {} {
      assert |Features(df, sql)| == |sql|;
      forall i | 0 <= i < |paged|
        ensures page[i] == Merge(paged[i], Cells(df, Id(paged[i]))) && Id(page[i]) == Id(paged[i])
      {
        FeaturesPage(df, sql, start, limit, i);
        MergeKeepsId(paged[i], Cells(df, Id(paged[i])));
      }
    }
  }

  lemma DropDuplicatesIsSql(locations: seq<Row>, attributes: seq<Attribute>, df: seq<Joined>, sql: seq<Row>)
    requires UniqueIds(locations) && Answers(locations, attributes, df)
    requires Arranges(["id"], multiset(locations), sql)
    ensures DropDuplicates(LocationsOf(df)) == sql
  {
    DropDuplicatesIsLocations(locations, attributes, df);
    IdsAreKey(locations);
    forall l | l in sql ensures l in locations { assert l in multiset(sql); }
    ArrangementsAgree(["id"], sql, DropDuplicates(LocationsOf(df)));
  }

  lemma PageIndex(rows: seq<Row>, start: nat, limit: Option<nat>, i: nat)
    requires i < |Page(rows, start, limit)|
    ensures Within(start, |rows|) + i < |rows| && Page(rows, start, limit)[i] == rows[Within(start, |rows|) + i]
  {
  }

  lemma PageOfPage(a: seq<Row>, b: seq<Row>, start: nat, limit: Option<nat>, i: nat)
    requires |a| == |b| && i < |Page(a, start, limit)|
    ensures |Page(b, start, limit)| == |Page(a, start, limit)|
    ensures exists k :: 0 <= k < |a| && Page(a, start, limit)[i] == a[k] && Page(b, start, limit)[i] == b[k]
  {
    PageIndex(a, start, limit, i);
    PageIndex(b, start, limit, i);
  }

  lemma FeaturesPage(df: seq<Joined>, rows: seq<Row>, start: nat, limit: Option<nat>, i: nat)
    requires i < |Page(rows, start, limit)|
    ensures |Page(Features(df, rows), start, limit)| == |Page(rows, start, limit)|
    ensures Page(Features(df, rows), start, limit)[i] ==
            Merge(Page(rows, start, limit)[i], Cells(df, Id(Page(rows, start, limit)[i])))
  {
    var features := Features(df, rows);
    PageOfPage(rows, features, start, limit, i);
    var k :| 0 <= k < |rows| && Page(rows, start, limit)[i] == rows[k] && Page(features, start, limit)[i] == features[k];
  }

  /**
   * No attribute of a selected location is named like a column of a selected location: then every feature is the
   * location unchanged, with a value for exactly the attributes the attributes table gives that location.
   */
  lemma FeaturesCarryOwnAttributes(locations: seq<Row>, attributes: seq<Attribute>, df: seq<Joined>, sql: seq<Row>,
                                   offset: Option<nat>, limit: Option<nat>, i: nat, name: string, value: string)
    requires UniqueIds(locations) && Answers(locations, attributes, df)
    requires Arranges(["id"], multiset(locations), sql)
    requires i < |Page(sql, if offset.Some? then offset.value else 0, limit)|
    requires forall l :: l in locations ==> !RepeatsName(Id(l), attributes)
    requires forall l, n :: l in locations && n in AttributeNames(locations, attributes) ==> n !in l
    ensures PivotedPage(df, offset, limit).Ok? && i < |PivotedPage(df, offset, limit).value|
    ensures var feature := PivotedPage(df, offset, limit).value[i];
            var location := Page(sql, if offset.Some? then offset.value else 0, limit)[i];
            && (forall c :: c in location ==> c in feature && feature[c] == location[c])
            && (name !in location ==>
                  (name in feature && feature[name] == Some(value) <==>
                   Attribute(Id(location), Some(name), Some(value)) in attributes))
  {
    var location := Page(sql, if offset.Some? then offset.value else 0, limit)[i];
    CleanNamesSucceed(locations, attributes, df, offset, limit);
    NamesAreAttributes(locations, attributes, df);
    PivotThenPage(locations, attributes, df, sql, offset, limit);
    assert location in sql && location in multiset(sql);
    DuplicatesFail(df, offset, limit);
    CellsAreOwn(locations, attributes, df, location, name, value);
    var cells := Cells(df, Id(location));
    MergeKeepsBoth(location, cells);
  }

  lemma IdsAreKey(locations: seq<Row>)
    requires UniqueIds(locations)
    ensures IsKey(["id"], locations)
  {
  }
}
