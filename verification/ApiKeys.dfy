/** API keys: creation, revocation, and the repeated copy from the legacy database. */
module ApiKeys {
  import opened Common
  import opened ApiIdentities

  type Time = int

  datatype KeyRow = KeyRow(owner: string, name: string, hash: string, scopes: seq<string>, createdAt: Time,
                           revokedAt: Option<Time>)

  /** The `api_keys` table, by primary key. */
  type Table = map<string, KeyRow>

  /** Rows fetched from a table, with their ids. */
  type Rows = seq<(string, KeyRow)>

  datatype StoreError = NotInitialized | IdTaken | HashTaken

  // ----- The table -----

  /** `key_hash ... UNIQUE`. */
  ghost predicate UniqueHashes(table: Table) {
    forall a, b :: a in table && b in table && table[a].hash == table[b].hash ==> a == b
  }

  predicate HashIn(table: Table, hash: string) {
    exists id :: id in table && table[id].hash == hash
  }

  function Inserted(table: Table, id: string, row: KeyRow): Result<Table, StoreError> {
    if id in table then Err(IdTaken)
    else if HashIn(table, row.hash) then Err(HashTaken)
    else Ok(table[id := row])
  }

  function Coalesce(a: Option<Time>, b: Option<Time>): Option<Time> {
    if a.Some? then a else b
  }

  /** `INSERT ... ON CONFLICT (id) DO UPDATE SET revoked_at = COALESCE(...)`. */
  function Upserted(table: Table, id: string, row: KeyRow): Result<Table, StoreError> {
    if id in table then Ok(table[id := table[id].(revokedAt := Coalesce(table[id].revokedAt, row.revokedAt))])
    else Inserted(table, id, row)
  }

  /** All rows upserted in order, or the error of the first that fails. */
  function AllUpserted(table: Table, rows: Rows): Result<Table, StoreError> {
    if rows == [] then Ok(table)
    else
      var before := AllUpserted(table, rows[..|rows| - 1]);
      if before.Err? then before else Upserted(before.value, Last(rows).0, Last(rows).1)
  }

  /** A transaction that fails leaves the table as it was. */
  function Copied(table: Table, rows: Rows): Table {
    var after := AllUpserted(table, rows);
    if after.Ok? then after.value else table
  }

  /** The table after `UPDATE ... WHERE id = $2 AND owner_sub = $3 AND revoked_at IS NULL`. */
  function Revoked(table: Table, owner: string, id: string, now: Time): Table {
    if id in table && table[id].owner == owner && table[id].revokedAt.None?
    then table[id := table[id].(revokedAt := Some(now))] else table
  }

  function Created(table: Table, id: string, row: KeyRow): Table {
    var after := Inserted(table, id, row.(revokedAt := None));
    if after.Ok? then after.value else table
  }

  /** The key with this hash is accepted. */
  predicate Accepted(table: Table, hash: string) {
    exists id :: id in table && table[id].hash == hash && table[id].revokedAt.None?
  }

  class ApiKeyStore {
    var table: Table
    var started: bool

    constructor ()
      ensures table == map[] && !started
    {
      table := map[];
      started := false;
    }

    method Startup()
      modifies this`started
      ensures started
    {
      started := true;
    }

    method CopyLegacyKeys(rows: Rows) returns (r: Result<nat, StoreError>)
      modifies this`table
      ensures table == Copied(old(table), rows)
      ensures r == if AllUpserted(old(table), rows).Ok? then Ok(|rows|) else Err(AllUpserted(old(table), rows).error)
    {
      var pending := table;
      for i := 0 to |rows|
        invariant table == old(table)
        invariant AllUpserted(table, rows[..i]) == Ok(pending)
      {
        assert rows[..i + 1][..i] == rows[..i];
        var (id, row) := rows[i];
        if id in pending {
          pending := pending[id := pending[id].(revokedAt := Coalesce(pending[id].revokedAt, row.revokedAt))];
        } else if HashIn(pending, row.hash) {
          FailureStays(table, rows, i + 1);
          return Err(HashTaken);
        } else {
          pending := pending[id := row];
        }
      }
      assert rows[..|rows|] == rows;
      table := pending;
      return Ok(|rows|);
    }

    method CreateKey(owner: string, name: string, scopes: seq<string>, id: string, hash: string, now: Time)
      returns (r: Result<string, StoreError>)
      modifies this`table
      ensures !started ==> r == Err(NotInitialized) && table == old(table)
      ensures started ==> table == Created(old(table), id, KeyRow(owner, name, hash, scopes, now, None))
      ensures r.Ok? <==> started && id !in old(table) && !HashIn(old(table), hash)
      ensures r.Err? ==> table == old(table)
      ensures r.Ok? ==> r.value == id && Accepted(table, hash)
      ensures r.Ok? ==> table.Keys == old(table).Keys + {id} && OthersKept(old(table), table, id)
      ensures r.Ok? ==> table[id].owner == owner && table[id].name == name && table[id].hash == hash
      ensures r.Ok? ==> table[id].scopes == scopes && table[id].createdAt == now && table[id].revokedAt.None?
    {
      if !started {
        return Err(NotInitialized);
      }
      if id in table {
        return Err(IdTaken);
      }
      if HashIn(table, hash) {
        return Err(HashTaken);
      }
      table := table[id := KeyRow(owner, name, hash, scopes, now, None)];
      assert id in table && table[id].hash == hash && table[id].revokedAt.None?;
      return Ok(id);
    }

    method ValidateKey(hash: string) returns (r: Result<Option<Identity>, StoreError>)
      requires UniqueHashes(table)
      ensures r.Err? <==> !started
      ensures r.Ok? ==> (r.value.Some? <==> Accepted(table, hash))
      ensures r.Ok? && r.value.Some? ==>
                && r.value.value.authType == "api_key" && r.value.value.roles == {"api-key"}
                && exists id :: id in table && table[id].hash == hash && table[id].owner == r.value.value.subject
    {
      if !started {
        return Err(NotInitialized);
      }
      if !HashIn(table, hash) {
        return Ok(None);
      }
      var id :| id in table && table[id].hash == hash;
      if table[id].revokedAt.Some? {
        return Ok(None);
      }
      return Ok(Some(Identity(table[id].owner, "api_key", {"api-key"})));
    }

    method RevokeKey(owner: string, id: string, now: Time) returns (r: Result<bool, StoreError>)
      modifies this`table
      ensures !started ==> r == Err(NotInitialized) && table == old(table)
      ensures started ==> table == Revoked(old(table), owner, id, now)
      ensures started ==>
        r == Ok(id in old(table) && old(table)[id].owner == owner && old(table)[id].revokedAt.None?)
      ensures r != Ok(true) ==> table == old(table)
      ensures r == Ok(true) ==>
                && table.Keys == old(table).Keys && OthersKept(old(table), table, id)
                && table[id].revokedAt == Some(now) && RowKept(old(table)[id], table[id])
                && (UniqueHashes(old(table)) ==> !Accepted(table, table[id].hash))
    {
      if !started {
        return Err(NotInitialized);
      }
      if id in table && table[id].owner == owner && table[id].revokedAt.None? {
        table := table[id := table[id].(revokedAt := Some(now))];
        return Ok(true);
      }
      return Ok(false);
    }
  }

  lemma {:induction false} FailureStays(table: Table, rows: Rows, n: nat)
    requires n <= |rows| && AllUpserted(table, rows[..n]).Err?
    ensures AllUpserted(table, rows) == AllUpserted(table, rows[..n])
    decreases |rows|
  {
    if n == |rows| {
      assert rows[..n] == rows;
    } else {
      var init := rows[..|rows| - 1];
      assert init[..n] == rows[..n];
      FailureStays(table, init, n);
    }
  }

  /** All rows but one are as they were. */
  ghost predicate OthersKept(before: Table, after: Table, id: string) {
    forall other :: other != id && other in before ==> other in after && after[other] == before[other]
  }

  // ----- What every operation keeps -----

  /** A row keeps everything but its revocation, and a revocation for good. */
  predicate RowKept(before: KeyRow, after: KeyRow) {
    && after == before.(revokedAt := after.revokedAt)
    && (before.revokedAt.Some? ==> after.revokedAt == before.revokedAt)
  }

  ghost predicate Kept(before: Table, after: Table) {
    forall id :: id in before ==> id in after && RowKept(before[id], after[id])
  }

  lemma KeptTransitive(a: Table, b: Table, c: Table)
    requires Kept(a, b) && Kept(b, c)
    ensures Kept(a, c)
  {
  }

  lemma UpsertedKeeps(table: Table, id: string, row: KeyRow)
    requires UniqueHashes(table) && Upserted(table, id, row).Ok?
    ensures var after := Upserted(table, id, row).value; UniqueHashes(after) && Kept(table, after)
  {
  }

  lemma {:induction false} AllUpsertedKeeps(table: Table, rows: Rows)
    requires UniqueHashes(table) && AllUpserted(table, rows).Ok?
    ensures var after := AllUpserted(table, rows).value; UniqueHashes(after) && Kept(table, after)
  {
    if rows != [] {
      var before := AllUpserted(table, rows[..|rows| - 1]).value;
      AllUpsertedKeeps(table, rows[..|rows| - 1]);
      UpsertedKeeps(before, Last(rows).0, Last(rows).1);
      KeptTransitive(table, before, AllUpserted(table, rows).value);
    }
  }

  lemma RevokedKeeps(table: Table, owner: string, id: string, now: Time)
    requires UniqueHashes(table)
    ensures var after := Revoked(table, owner, id, now); UniqueHashes(after) && Kept(table, after)
  {
  }

  lemma CreatedKeeps(table: Table, id: string, row: KeyRow)
    requires UniqueHashes(table)
    ensures var after := Created(table, id, row); UniqueHashes(after) && Kept(table, after)
  {
  }

  // ----- Which keys are accepted -----

  /** The key is there, the caller owns it, and it is not revoked yet. */
  predicate Revocable(table: Table, owner: string, id: string) {
    id in table && table[id].owner == owner && table[id].revokedAt.None?
  }

  /** Revoking refuses exactly the owner's own unrevoked key, stamps it, and leaves every other key as accepted as it was. */
  lemma AcceptedAfterRevoking(table: Table, owner: string, id: string, now: Time, hash: string)
    requires UniqueHashes(table)
    ensures Accepted(Revoked(table, owner, id, now), hash) <==>
            Accepted(table, hash) && !(Revocable(table, owner, id) && table[id].hash == hash)
    ensures OthersKept(table, Revoked(table, owner, id, now), id)
    ensures id in Revoked(table, owner, id, now) <==> id in table
    ensures id in table ==>
              Revoked(table, owner, id, now)[id].revokedAt ==
              if Revocable(table, owner, id) then Some(now) else table[id].revokedAt
  {
    var after := Revoked(table, owner, id, now);
    if Accepted(table, hash) && !(Revocable(table, owner, id) && table[id].hash == hash) {
      var k :| k in table && table[k].hash == hash && table[k].revokedAt.None?;
      assert k in after && after[k].hash == hash && after[k].revokedAt.None?;
    }
  }

  /** Creating accepts exactly the new key besides, under its owner, if its id and hash are unused. */
  lemma AcceptedAfterCreating(table: Table, id: string, row: KeyRow, hash: string)
    ensures var after := Created(table, id, row);
            && (Accepted(after, hash) <==>
                  Accepted(table, hash) || (id !in table && !HashIn(table, row.hash) && hash == row.hash))
            && OthersKept(table, after, id) && (id in table ==> after == table)
            && (id in after && id !in table ==>
                  && after[id].owner == row.owner && after[id].name == row.name && after[id].hash == row.hash
                  && after[id].scopes == row.scopes && after[id].createdAt == row.createdAt)
  {
    var after := Created(table, id, row);
    if Accepted(table, hash) {
      var k :| k in table && table[k].hash == hash && table[k].revokedAt.None?;
      assert k in after && after[k].hash == hash && after[k].revokedAt.None?;
    }
    if id !in table && !HashIn(table, row.hash) {
      assert id in after && after[id].hash == row.hash && after[id].revokedAt.None?;
    }
  }

  // ----- What a copy does -----

  ghost predicate DistinctRows(rows: Rows) {
    forall i, j :: 0 <= i < j < |rows| ==> rows[i].0 != rows[j].0 && rows[i].1.hash != rows[j].1.hash
  }

  /** Every row of a table once, in some order. */
  ghost predicate RowsOf(table: Table, rows: Rows) {
    && (forall i, j :: 0 <= i < j < |rows| ==> rows[i].0 != rows[j].0)
    && (forall i :: 0 <= i < |rows| ==> rows[i].0 in table && rows[i].1 == table[rows[i].0])
    && (forall id :: id in table ==> exists i :: 0 <= i < |rows| && rows[i].0 == id)
  }

  predicate Mentions(rows: Rows, id: string) {
    exists i :: 0 <= i < |rows| && rows[i].0 == id
  }

  /** A copied row: new, or what was there with a revocation added if it had none. */
  predicate MergedRow(before: Table, row: KeyRow, id: string, after: KeyRow) {
    after == if id in before then before[id].(revokedAt := Coalesce(before[id].revokedAt, row.revokedAt)) else row
  }

  lemma {:induction false} CopyLeaves(table: Table, rows: Rows, id: string)
    requires AllUpserted(table, rows).Ok? && !Mentions(rows, id)
    ensures var after := AllUpserted(table, rows).value;
            (id in after <==> id in table) && (id in table ==> after[id] == table[id])
  {
    if rows != [] {
      var init := rows[..|rows| - 1];
      assert Last(rows).0 != id && forall i :: 0 <= i < |init| ==> init[i] == rows[i];
      CopyLeaves(table, init, id);
    }
  }

  lemma {:induction false} CopyMerges(table: Table, rows: Rows, i: nat)
    requires DistinctRows(rows) && AllUpserted(table, rows).Ok? && i < |rows|
    ensures var after := AllUpserted(table, rows).value;
            rows[i].0 in after && MergedRow(table, rows[i].1, rows[i].0, after[rows[i].0])
  {
    var init := rows[..|rows| - 1];
    if i == |init| {
      CopyLeaves(table, init, rows[i].0);
    } else {
      CopyMerges(table, init, i);
    }
  }

  /**
   * A copy gives the union of the ids. A key that only one side has is taken as it is; a key that both have stays
   * as it is and is revoked if and only if it is on either side, with the first recorded time.
   */
  lemma CopyIsUnion(table: Table, legacy: Table, rows: Rows)
    requires RowsOf(legacy, rows) && UniqueHashes(legacy) && AllUpserted(table, rows).Ok?
    ensures var after := AllUpserted(table, rows).value;
            forall id ::
              && (id in after <==> id in table || id in legacy)
              && (id in table && id !in legacy ==> after[id] == table[id])
              && (id in legacy && id !in table ==> after[id] == legacy[id])
              && (id in table && id in legacy ==>
                    && after[id] == table[id].(revokedAt := after[id].revokedAt)
                    && (after[id].revokedAt.Some? <==> table[id].revokedAt.Some? || legacy[id].revokedAt.Some?)
                    && (table[id].revokedAt.Some? ==> after[id].revokedAt == table[id].revokedAt)
                    && (table[id].revokedAt.None? ==> after[id].revokedAt == legacy[id].revokedAt))
  {
    RowsAreDistinct(legacy, rows);
    var after := AllUpserted(table, rows).value;
    forall id: string ensures id in after || id in table || id in legacy ==>
      if id in legacy then id in after && MergedRow(table, legacy[id], id, after[id])
      else id in table && id in after && after[id] == table[id]
    {
      if id in legacy {
        var i :| 0 <= i < |rows| && rows[i].0 == id;
        CopyMerges(table, rows, i);
      } else {
        assert !Mentions(rows, id);
        CopyLeaves(table, rows, id);
      }
    }
  }

  lemma RowsAreDistinct(legacy: Table, rows: Rows)
    requires RowsOf(legacy, rows) && UniqueHashes(legacy)
    ensures DistinctRows(rows)
  {
  }

  /** Every row is there, and revoked if its copy is: copying it changes nothing. */
  ghost predicate Contains(table: Table, rows: Rows) {
    forall i :: 0 <= i < |rows| ==>
      rows[i].0 in table && (rows[i].1.revokedAt.Some? ==> table[rows[i].0].revokedAt.Some?)
  }

  lemma {:induction false} ContainedIsNoChange(table: Table, rows: Rows)
    requires Contains(table, rows)
    ensures AllUpserted(table, rows) == Ok(table)
  {
    if rows != [] {
      ContainedIsNoChange(table, rows[..|rows| - 1]);
      var (id, row) := Last(rows);
      assert table[id].(revokedAt := Coalesce(table[id].revokedAt, row.revokedAt)) == table[id];
      assert table[id := table[id]] == table;
    }
  }

  lemma {:induction false} CopyContains(table: Table, rows: Rows)
    requires UniqueHashes(table) && AllUpserted(table, rows).Ok?
    ensures Contains(AllUpserted(table, rows).value, rows)
  {
    if rows != [] {
      var init := rows[..|rows| - 1];
      var before, after := AllUpserted(table, init).value, AllUpserted(table, rows).value;
      CopyContains(table, init);
      AllUpsertedKeeps(table, init);
      UpsertedKeeps(before, Last(rows).0, Last(rows).1);
      assert forall i :: 0 <= i < |init| ==> init[i] == rows[i];
    }
  }

  /**
   * Copying again changes nothing, at once or after anything that happened in between, such as a revocation
   * or the copy of a newer snapshot by another worker.
   */
  lemma CopyIsIdempotent(table: Table, rows: Rows, later: Table)
    requires UniqueHashes(table) && AllUpserted(table, rows).Ok? && Kept(AllUpserted(table, rows).value, later)
    ensures AllUpserted(later, rows) == Ok(later)
  {
    CopyContains(table, rows);
    ContainedIsNoChange(later, rows);
  }

  /** A row that cannot be copied: it is new, and another key has its hash. */
  predicate Blocked(table: Table, id: string, row: KeyRow) {
    id !in table && HashIn(table, row.hash)
  }

  /** A copy fails, and then changes nothing, exactly when some row is new but its hash belongs to another key. */
  lemma {:induction false} CopyFailsExactly(table: Table, rows: Rows)
    requires DistinctRows(rows)
    ensures AllUpserted(table, rows).Err? <==> exists i :: 0 <= i < |rows| && Blocked(table, rows[i].0, rows[i].1)
  {
    if rows != [] {
      var init, last := rows[..|rows| - 1], Last(rows);
      assert forall i :: 0 <= i < |init| ==> init[i] == rows[i];
      CopyFailsExactly(table, init);
      if AllUpserted(table, init).Ok? {
        var before := AllUpserted(table, init).value;
        CopyLeaves(table, init, last.0);
        HashesAfterCopy(table, init, last.1.hash);
        assert Blocked(before, last.0, last.1) <==> Blocked(table, last.0, last.1);
        assert forall i :: 0 <= i < |rows| && Blocked(table, rows[i].0, rows[i].1) ==> i == |init|;
      } else {
        var i :| 0 <= i < |init| && Blocked(table, init[i].0, init[i].1);
        assert Blocked(table, rows[i].0, rows[i].1);
      }
    }
  }

  /** The hashes after a copy are those of the table and of the rows. */
  lemma {:induction false} HashesAfterCopy(table: Table, rows: Rows, hash: string)
    requires AllUpserted(table, rows).Ok? && forall i :: 0 <= i < |rows| ==> rows[i].1.hash != hash
    ensures HashIn(AllUpserted(table, rows).value, hash) <==> HashIn(table, hash)
  {
    if rows != [] {
      var init, last := rows[..|rows| - 1], Last(rows);
      assert forall i :: 0 <= i < |init| ==> init[i] == rows[i];
      HashesAfterCopy(table, init, hash);
      var before, after := AllUpserted(table, init).value, AllUpserted(table, rows).value;
      if HashIn(before, hash) {
        var id :| id in before && before[id].hash == hash;
        assert id in after && after[id].hash == hash;
      }
      if HashIn(after, hash) {
        var id :| id in after && after[id].hash == hash;
        assert id in before && before[id].hash == hash;
      }
    }
  }

  // ----- Runs -----

  /** The table of this service, the legacy table that old pods still use, and what each worker has fetched of it. */
  datatype State = State(keys: Table, legacy: Table, fetched: map<string, Rows>)

  datatype Event =
    | Create(id: string, row: KeyRow)
    | Revoke(owner: string, id: string, now: Time)
    | LegacyCreate(id: string, row: KeyRow)
    | LegacyRevoke(owner: string, id: string, now: Time)
    | Fetch(worker: string, rows: Rows)
    | Copy(worker: string)

  /** A fetch reads the legacy table of its moment, in any order; a copy may use it much later. */
  ghost predicate Possible(s: State, e: Event) {
    match e
    case Fetch(_, rows) => RowsOf(s.legacy, rows)
    case Copy(worker) => worker in s.fetched
    case _ => true
  }

  function After(s: State, e: Event): State
    requires e.Copy? ==> e.worker in s.fetched
  {
    match e
    case Create(id, row) => s.(keys := Created(s.keys, id, row))
    case Revoke(owner, id, now) => s.(keys := Revoked(s.keys, owner, id, now))
    case LegacyCreate(id, row) => s.(legacy := Created(s.legacy, id, row))
    case LegacyRevoke(owner, id, now) => s.(legacy := Revoked(s.legacy, owner, id, now))
    case Fetch(worker, rows) => s.(fetched := s.fetched[worker := rows])
    case Copy(worker) => s.(keys := Copied(s.keys, s.fetched[worker]))
  }

  /** The states of a run, one after each event. */
  ghost predicate Run(states: seq<State>, events: seq<Event>) {
    && |states| == |events| + 1
    && UniqueHashes(states[0].keys) && UniqueHashes(states[0].legacy)
    && forall i :: 0 <= i < |events| ==> Possible(states[i], events[i]) && states[i + 1] == After(states[i], events[i])
  }

  lemma EventKeeps(s: State, e: Event)
    requires Possible(s, e) && UniqueHashes(s.keys) && UniqueHashes(s.legacy)
    ensures var t := After(s, e);
            UniqueHashes(t.keys) && UniqueHashes(t.legacy) && Kept(s.keys, t.keys) && Kept(s.legacy, t.legacy)
  {
    match e
    case Create(id, row) => CreatedKeeps(s.keys, id, row);
    case Revoke(owner, id, now) => RevokedKeeps(s.keys, owner, id, now);
    case LegacyCreate(id, row) => CreatedKeeps(s.legacy, id, row);
    case LegacyRevoke(owner, id, now) => RevokedKeeps(s.legacy, owner, id, now);
    case Fetch(_, _) =>
    case Copy(worker) => if AllUpserted(s.keys, s.fetched[worker]).Ok? { AllUpsertedKeeps(s.keys, s.fetched[worker]); }
  }

  /** Over any run rows are never lost or rebound and a revocation is never undone or re-dated. */
  lemma {:induction false} RunKeeps(states: seq<State>, events: seq<Event>, i: nat, j: nat)
    requires Run(states, events) && i <= j < |states|
    ensures UniqueHashes(states[j].keys) && UniqueHashes(states[j].legacy)
    ensures Kept(states[i].keys, states[j].keys) && Kept(states[i].legacy, states[j].legacy)
    decreases j
  {
    if j > 0 {
      RunKeeps(states, events, if i < j then i else j - 1, j - 1);
      EventKeeps(states[j - 1], events[j - 1]);
    }
  }

  /** A key that is revoked at some point of a run is refused at every later point. */
  lemma RevokedForGood(states: seq<State>, events: seq<Event>, i: nat, j: nat, id: string)
    requires Run(states, events) && i <= j < |states|
    requires id in states[i].keys && states[i].keys[id].revokedAt.Some?
    ensures !Accepted(states[j].keys, states[i].keys[id].hash)
    ensures id in states[j].keys && states[j].keys[id].revokedAt == states[i].keys[id].revokedAt
  {
    RunKeeps(states, events, i, j);
  }

  /** An owner who revokes an unrevoked key of theirs has it refused at every later point, with that time. */
  lemma RevokingRefusesForGood(states: seq<State>, events: seq<Event>, i: nat, j: nat)
    requires Run(states, events) && i < j < |states| && events[i].Revoke?
    requires Revocable(states[i].keys, events[i].owner, events[i].id)
    ensures !Accepted(states[j].keys, states[i].keys[events[i].id].hash)
    ensures events[i].id in states[j].keys && states[j].keys[events[i].id].revokedAt == Some(events[i].now)
  {
    var Revoke(owner, id, now) := events[i];
    RunKeeps(states, events, i, i);
    assert states[i + 1] == After(states[i], events[i]);
    AcceptedAfterRevoking(states[i].keys, owner, id, now, states[i].keys[id].hash);
    RevokingKeepsHash(states[i].keys, owner, id, now);
    RevokedForGood(states, events, i + 1, j, id);
  }

  lemma RevokingKeepsHash(table: Table, owner: string, id: string, now: Time)
    requires UniqueHashes(table) && id in table
    ensures id in Revoked(table, owner, id, now) && Revoked(table, owner, id, now)[id].hash == table[id].hash
  {
    RevokedKeeps(table, owner, id, now);
  }

  /** A key created with an unused id and hash is its owner's from then on, whatever happens later. */
  lemma CreatedIsOwned(states: seq<State>, events: seq<Event>, i: nat, j: nat)
    requires Run(states, events) && i < j < |states| && events[i].Create?
    requires events[i].id !in states[i].keys && !HashIn(states[i].keys, events[i].row.hash)
    ensures var Create(id, row) := events[i];
            id in states[j].keys && states[j].keys[id] == row.(revokedAt := states[j].keys[id].revokedAt)
    ensures Accepted(states[i + 1].keys, events[i].row.hash)
  {
    var Create(id, row) := events[i];
    assert states[i + 1] == After(states[i], events[i]);
    AcceptedAfterCreating(states[i].keys, id, row, row.hash);
    RunKeeps(states, events, i + 1, j);
  }

  // ----- Copies succeed, and revocations arrive -----

  /** Somewhere the state has a row with this id and hash. */
  ghost predicate InState(s: State, id: string, hash: string) {
    || InTable(s.keys, id, hash) || InTable(s.legacy, id, hash)
    || exists worker :: worker in s.fetched && InRows(s.fetched[worker], id, hash)
  }

  predicate InTable(table: Table, id: string, hash: string) {
    id in table && table[id].hash == hash
  }

  predicate InRows(rows: Rows, id: string, hash: string) {
    exists i :: 0 <= i < |rows| && rows[i].0 == id && rows[i].1.hash == hash
  }

  /** A hash belongs to one id, whichever side it is on. */
  ghost predicate Consistent(s: State) {
    forall a, b, hash :: InState(s, a, hash) && InState(s, b, hash) ==> a == b
  }

  /** New keys get an id and a hash that nothing has had: random UUIDs, and hashes of random keys. */
  ghost predicate Fresh(s: State, e: Event) {
    e.Create? || e.LegacyCreate? ==> forall a, hash :: InState(s, a, hash) ==> a != e.id && hash != e.row.hash
  }

  lemma {:induction false} ConsistentCopy(table: Table, rows: Rows)
    requires forall a, b, hash :: InTable(table, a, hash) && InRows(rows, b, hash) ==> a == b
    requires forall a, b, hash :: InRows(rows, a, hash) && InRows(rows, b, hash) ==> a == b
    ensures AllUpserted(table, rows).Ok?
    ensures forall id, hash :: InTable(AllUpserted(table, rows).value, id, hash) ==>
              InTable(table, id, hash) || InRows(rows, id, hash)
  {
    if rows != [] {
      var init, last := rows[..|rows| - 1], Last(rows);
      assert forall i :: 0 <= i < |init| ==> init[i] == rows[i];
      assert forall id, hash :: InRows(init, id, hash) ==> InRows(rows, id, hash);
      assert InRows(rows, last.0, last.1.hash);
      ConsistentCopy(table, init);
      var before := AllUpserted(table, init).value;
      if last.0 !in before && HashIn(before, last.1.hash) {
        var id :| id in before && before[id].hash == last.1.hash;
        assert InTable(before, id, last.1.hash);
        assert false;
      }
    }
  }

  lemma ConsistentStep(s: State, e: Event)
    requires Possible(s, e) && Fresh(s, e) && Consistent(s)
    ensures Consistent(After(s, e))
    ensures e.Copy? ==> AllUpserted(s.keys, s.fetched[e.worker]).Ok?
  {
    var t := After(s, e);
    if e.Copy? {
      var rows := s.fetched[e.worker];
      assert forall id, hash :: InRows(rows, id, hash) ==> InState(s, id, hash);
      assert forall id, hash :: InTable(s.keys, id, hash) ==> InState(s, id, hash);
      ConsistentCopy(s.keys, rows);
    }
    forall a, b, hash | InState(t, a, hash) && InState(t, b, hash) ensures a == b {
      assert CameFrom(s, e, a, hash) && CameFrom(s, e, b, hash) by {
        StateCameFrom(s, e, a, hash);
        StateCameFrom(s, e, b, hash);
      }
    }
  }

  /** A row of the next state was there before, or the event created it. */
  ghost predicate CameFrom(s: State, e: Event, id: string, hash: string) {
    InState(s, id, hash) || ((e.Create? || e.LegacyCreate?) && id == e.id && hash == e.row.hash)
  }

  lemma StateCameFrom(s: State, e: Event, id: string, hash: string)
    requires Possible(s, e) && InState(After(s, e), id, hash)
    requires e.Copy? ==> AllUpserted(s.keys, s.fetched[e.worker]).Ok? && forall a, h ::
               InTable(AllUpserted(s.keys, s.fetched[e.worker]).value, a, h) ==>
               InTable(s.keys, a, h) || InRows(s.fetched[e.worker], a, h)
    ensures CameFrom(s, e, id, hash)
  {
  }

  ghost predicate FreshRun(states: seq<State>, events: seq<Event>) {
    && Run(states, events) && Consistent(states[0])
    && forall i :: 0 <= i < |events| ==> Fresh(states[i], events[i])
  }

  /** When new ids and hashes are fresh, no copy of a run is ever blocked. */
  lemma {:induction false} CopiesSucceed(states: seq<State>, events: seq<Event>, j: nat)
    requires FreshRun(states, events) && j < |states|
    ensures Consistent(states[j])
    ensures j < |events| && events[j].Copy? ==> AllUpserted(states[j].keys, states[j].fetched[events[j].worker]).Ok?
  {
    if j > 0 {
      CopiesSucceed(states, events, j - 1);
      ConsistentStep(states[j - 1], events[j - 1]);
    }
    if j < |events| { ConsistentStep(states[j], events[j]); }
  }

  /** Between its fetch and its copy the worker fetches nothing else. */
  predicate LastFetch(events: seq<Event>, j: nat, k: nat)
    requires j < k <= |events| && events[j].Fetch?
  {
    forall x :: j < x < k && events[x].Fetch? ==> events[x].worker != events[j].worker
  }

  lemma {:induction false} FetchedStays(states: seq<State>, events: seq<Event>, j: nat, k: nat)
    requires Run(states, events) && j < k <= |events| && events[j].Fetch? && LastFetch(events, j, k)
    ensures events[j].worker in states[k].fetched && states[k].fetched[events[j].worker] == events[j].rows
  {
    assert states[k] == After(states[k - 1], events[k - 1]);
    if j < k - 1 { FetchedStays(states, events, j, k - 1); }
  }

  /**
   * A key that an old pod has revoked is refused for good once a worker has fetched the legacy table after that
   * and copied it, whatever other workers copy, from however old a fetch, before or after.
   */
  lemma LegacyRevocationArrives(states: seq<State>, events: seq<Event>, i: nat, j: nat, k: nat, m: nat, id: string)
    requires FreshRun(states, events) && i <= j < k < m < |states|
    requires id in states[i].legacy && states[i].legacy[id].revokedAt.Some?
    requires events[j].Fetch? && events[k].Copy? && events[k].worker == events[j].worker
    requires LastFetch(events, j, k)
    ensures id in states[m].keys && states[m].keys[id].revokedAt.Some?
    ensures !Accepted(states[m].keys, states[i].legacy[id].hash)
  {
    RunKeeps(states, events, i, j);
    FetchedStays(states, events, j, k);
    CopiesSucceed(states, events, k);
    RunKeeps(states, events, k, k);
    var rows := events[j].rows;
    var r :| 0 <= r < |rows| && rows[r].0 == id;
    assert rows[r].1 == states[j].legacy[id];
    CopyContains(states[k].keys, rows);
    assert states[k + 1] == After(states[k], events[k]);
    RunKeeps(states, events, k + 1, m);
    RunKeeps(states, events, i, m);
    CopiesSucceed(states, events, m);
    var hash := states[i].legacy[id].hash;
    forall a | InTable(states[m].keys, a, hash) ensures a == id {
      assert InTable(states[m].legacy, id, hash);
      assert InState(states[m], a, hash) && InState(states[m], id, hash);
    }
    OnlyRevoked(states[m].keys, hash, id);
  }

  lemma OnlyRevoked(table: Table, hash: string, id: string)
    requires forall a :: InTable(table, a, hash) ==> a == id
    requires id in table ==> table[id].revokedAt.Some?
    ensures !Accepted(table, hash)
  {
    assert forall a :: a in table && table[a].hash == hash ==> InTable(table, a, hash);
  }

  /** The same from the moment at which the owner revokes the key through an old pod. */
  lemma LegacyRevokingArrives(states: seq<State>, events: seq<Event>, i: nat, j: nat, k: nat, m: nat)
    requires FreshRun(states, events) && i < j < k < m < |states| && events[i].LegacyRevoke?
    requires Revocable(states[i].legacy, events[i].owner, events[i].id)
    requires events[j].Fetch? && events[k].Copy? && events[k].worker == events[j].worker
    requires LastFetch(events, j, k)
    ensures !Accepted(states[m].keys, states[i].legacy[events[i].id].hash)
  {
    var LegacyRevoke(owner, id, now) := events[i];
    RunKeeps(states, events, i, i);
    assert states[i + 1] == After(states[i], events[i]);
    AcceptedAfterRevoking(states[i].legacy, owner, id, now, states[i].legacy[id].hash);
    RevokingKeepsHash(states[i].legacy, owner, id, now);
    LegacyRevocationArrives(states, events, i + 1, j, k, m, id);
  }

  /**
   * A key created through an old pod is there for good, under its owner, once a worker has fetched after that and
   * copied that fetch; if it was not there before, it is accepted from then on unless it had been revoked.
   */
  lemma LegacyCreationArrives(states: seq<State>, events: seq<Event>, i: nat, j: nat, k: nat, m: nat)
    requires FreshRun(states, events) && i < j < k < m < |states| && events[i].LegacyCreate?
    requires events[i].id !in states[i].legacy && !HashIn(states[i].legacy, events[i].row.hash)
    requires events[j].Fetch? && events[k].Copy? && events[k].worker == events[j].worker && LastFetch(events, j, k)
    ensures events[i].id in states[j].legacy && events[i].id in states[m].keys
    ensures var LegacyCreate(id, row) := events[i];
            id !in states[k].keys ==>
              && RowKept(row.(revokedAt := None), states[m].keys[id])
              && (states[j].legacy[id].revokedAt.None? ==> Accepted(states[k + 1].keys, row.hash))
  {
    var LegacyCreate(id, row) := events[i];
    assert states[i + 1] == After(states[i], events[i]);
    assert id in states[i + 1].legacy;
    RunKeeps(states, events, i + 1, j);
    assert id in states[j].legacy;
    FetchedStays(states, events, j, k);
    CopiesSucceed(states, events, k);
    RunKeeps(states, events, k, k);
    var rows := events[j].rows;
    var r :| 0 <= r < |rows| && rows[r].0 == id;
    assert rows[r].1 == states[j].legacy[id];
    RowsAreDistinct(states[j].legacy, rows);
    CopyMerges(states[k].keys, rows, r);
    assert states[k + 1] == After(states[k], events[k]);
    RunKeeps(states, events, k + 1, m);
  }
}
