/** Dataset ids: each repo is served as `<name>` (tiles) and `<name>_data` (its data group). */
module DatasetIds {
  import opened Common

  const DATA_SUFFIX := "_data"

  datatype Kind = Tiles | Data

  /** A loaded tree is determined by what it was loaded from. */
  datatype Tree = Tree(id: string, repo: string, kind: Kind, snapshot: string)

  /** What serving a dataset gives: `None` for an unknown id, an exception, or a tree. */
  datatype Outcome = Unknown | Raised | Served(tree: Tree)

  function DataId(name: string): string {
    name + DATA_SUFFIX
  }

  /** The ids one repo is served under. */
  predicate ServedAs(name: string, id: string) {
    id == name || id == DataId(name)
  }

  /** The first configured repo an id names, and how it is served: the loop of `_cfg_for_dataset_id`. */
  function Resolve(names: seq<string>, id: string): Option<(string, Kind)> {
    if names == [] then None
    else if id == names[0] then Some((names[0], Tiles))
    else if id == DataId(names[0]) then Some((names[0], Data))
    else Resolve(names[1..], id)
  }

  /** No repo name ends in `_data`, so no id can mean two repos. */
  ghost predicate Unambiguous(names: seq<string>) {
    forall n :: n in names ==> !EndsWith(n, DATA_SUFFIX)
  }

  /** The only repo an id can name when no repo name ends in `_data`. */
  function Owner(id: string): string {
    if EndsWith(id, DATA_SUFFIX) then id[..|id| - |DATA_SUFFIX|] else id
  }

  function KindOf(id: string): Kind {
    if EndsWith(id, DATA_SUFFIX) then Data else Tiles
  }

  /** Every id of the given repos: what `_evict` drops. */
  function IdsOf(names: set<string>): set<string> {
    names + set n | n in names :: DataId(n)
  }

  lemma OwnerOfServed(name: string, id: string)
    requires !EndsWith(name, DATA_SUFFIX)
    ensures ServedAs(name, id) <==> Owner(id) == name && id == (if KindOf(id) == Data then DataId(name) else name)
    ensures Owner(DataId(name)) == name && KindOf(DataId(name)) == Data
  {
  }

  /** With unambiguous names the order of the listing does not matter: an id resolves to its owner or to nothing. */
  lemma {:induction false} ResolveIsOwner(names: seq<string>, id: string)
    requires Unambiguous(names)
    ensures Resolve(names, id) == if Owner(id) in names then Some((Owner(id), KindOf(id))) else None
  {
    if names != [] {
      OwnerOfServed(names[0], id);
      ResolveIsOwner(names[1..], id);
      if EndsWith(id, DATA_SUFFIX) {
        assert id == DataId(Owner(id));
      }
    }
  }

  /** Whatever the names, an id resolves to the first repo served under it. */
  lemma {:induction false} ResolveFindsServed(names: seq<string>, id: string)
    ensures Resolve(names, id).None? <==> forall n :: n in names ==> !ServedAs(n, id)
    ensures Resolve(names, id).Some? ==>
              var (name, kind) := Resolve(names, id).value;
              name in names && ServedAs(name, id) && kind == (if id == name then Tiles else Data)
  {
    if names != [] && !ServedAs(names[0], id) {
      ResolveFindsServed(names[1..], id);
    }
  }

  /** Evicting a set of repos drops exactly the ids those repos own. */
  lemma IdsOfOwners(names: set<string>, id: string)
    requires forall n :: n in names ==> !EndsWith(n, DATA_SUFFIX)
    ensures id in IdsOf(names) <==> Owner(id) in names
  {
    if id in IdsOf(names) {
      var n :| n in names && ServedAs(n, id);
      OwnerOfServed(n, id);
    }
    if Owner(id) in names && EndsWith(id, DATA_SUFFIX) {
      assert id == DataId(Owner(id));
    }
  }
}
