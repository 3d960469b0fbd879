/** The path middleware, the ids its routes look up, and the agreement of the three places that enforce the rules. */
module RequestPaths {
  import opened Common
  import opened Text
  import opened DatasetIds
  import opened AccessRules
  import opened SessionPolicy

  const DATASETS := "/api/datasets/"
  const DATASET_VARIABLES := "/api/dataset-variables/"
  const VECTOR_TILES := "/api/vector-tiles/"
  const PMTILES := ".pmtiles"

  /** What a request reads: nothing restricted, something unrecognised, or items that must all be readable. */
  datatype Target = Unrestricted | Unrecognised | Items(kind: ItemKind, names: seq<string>)

  /** Repos a dataset id can refer to. */
  function Candidates(id: string): seq<string> {
    if EndsWith(id, DATA_SUFFIX) && id != DATA_SUFFIX then [id, id[..|id| - |DATA_SUFFIX|]] else [id]
  }

  /** Prefixes all: the source also compares two of them for equality, which changes nothing. */
  predicate DatasetRoute(rest: string) {
    "coords/" <= rest || "variable-attrs" <= rest || "metadata" <= rest || "edr/" <= rest || "tiles/" <= rest
  }

  /** What follows the first slash, or nothing: the tail of `partition("/")`. */
  function AfterSlash(s: string): string {
    if '/' in s then s[IndexOf(s, '/') + 1..] else ""
  }

  function DatasetTarget(tail: string): Target {
    var id, rest := tail[..IndexOf(tail, '/')], AfterSlash(tail);
    if id == "" || !DatasetRoute(rest) then Unrecognised else Items(Repos, Candidates(id))
  }

  function VariablesTarget(id: string): Target {
    if id == "" || '/' in id then Unrecognised else Items(Repos, Candidates(id))
  }

  function ArchiveTarget(archive: string): Target {
    if !EndsWith(archive, PMTILES) || '/' in archive || archive == PMTILES then Unrecognised
    else Items(Layers, [archive[..|archive| - |PMTILES|]])
  }

  /** The built-in list of every dataset, `/api/datasets` with or without a slash, is unrecognised. */
  function RequestTarget(path: string): Target {
    if path == DATASETS[..|DATASETS| - 1] || path == DATASETS then Unrecognised
    else if DATASETS <= path then DatasetTarget(path[|DATASETS|..])
    else if DATASET_VARIABLES <= path then VariablesTarget(path[|DATASET_VARIABLES|..])
    else if VECTOR_TILES <= path then ArchiveTarget(path[|VECTOR_TILES|..])
    else Unrestricted
  }

  predicate TargetPermitted(rules: Rules, identity: Identity, target: Target) {
    match target
    case Unrestricted => true
    case Unrecognised => false
    case Items(kind, names) => forall name :: name in names ==> IsPermitted(rules, identity, kind, name)
  }

  predicate IsRequestPermitted(rules: Rules, identity: Identity, path: string) {
    TargetPermitted(rules, identity, RequestTarget(path))
  }

  // ----- What the routes look up -----

  /** The plugins look the id up as given; the custom routes look up its data group. */
  function LookedUp(id: string, rest: string): string {
    if "edr/" <= rest || "tiles/" <= rest then id else DataId(id)
  }

  predicate ValidId(id: string) {
    id != "" && '/' !in id
  }

  /** A path under the dataset routes, for a non-empty slash-free id. */
  function DatasetPath(id: string, rest: string): string {
    DATASETS + (id + ['/'] + rest)
  }

  lemma DatasetsDispatch(tail: string)
    requires tail != ""
    ensures RequestTarget(DATASETS + tail) == DatasetTarget(tail)
  {
  }

  lemma DatasetPathTarget(id: string, rest: string)
    requires ValidId(id) && DatasetRoute(rest)
    ensures RequestTarget(DatasetPath(id, rest)) == Items(Repos, Candidates(id))
  {
    var tail := id + ['/'] + rest;
    DatasetsDispatch(tail);
    IndexOfAppended(id, '/', rest);
    assert tail[..|id|] == id && AfterSlash(tail) == rest;
  }

  lemma DatasetsDispatchAll(path: string, tail: string)
    requires DATASETS <= path && tail == path[|DATASETS|..] && RequestTarget(path) != Unrecognised
    ensures RequestTarget(path) == DatasetTarget(tail)
    ensures RequestTarget(path).Items?
  {
  }

  /** Under `/api/datasets/` nothing is permitted but the listed routes of a non-empty id. */
  lemma OnlyListedRoutes(rules: Rules, identity: Identity, path: string) returns (id: string, rest: string)
    requires IsRequestPermitted(rules, identity, path) && DATASETS <= path
    ensures ValidId(id) && DatasetRoute(rest) && path == DatasetPath(id, rest)
  {
    var tail := path[|DATASETS|..];
    id, rest := tail[..IndexOf(tail, '/')], AfterSlash(tail);
    assert DatasetTarget(tail).Items? by { DatasetsDispatchAll(path, tail); }
    assert '/' in tail;
    assert tail == id + ['/'] + rest;
    assert path == DATASETS + tail;
  }

  /** The user may read every repo the id can refer to: the one of its name, and the one it is the data group of. */
  ghost predicate MayReadAll(rules: Rules, identity: Identity, id: string) {
    && IsPermitted(rules, identity, Repos, id)
    && forall name :: name != "" && id == name + "_data" ==> IsPermitted(rules, identity, Repos, name)
  }

  lemma CandidatesExactly(rules: Rules, identity: Identity, id: string)
    ensures TargetPermitted(rules, identity, Items(Repos, Candidates(id))) <==> MayReadAll(rules, identity, id)
  {
    assert Candidates(id)[0] == id;
    if EndsWith(id, DATA_SUFFIX) && id != DATA_SUFFIX {
      var name := id[..|id| - |DATA_SUFFIX|];
      assert id == name + "_data" && Candidates(id)[1] == name;
      forall other | id == other + "_data" ensures other == name { SuffixInjective(other, name, "_data"); }
    } else {
      forall name | name != "" && id == name + "_data" ensures false {
        AppendedEndsWith(name, "_data");
      }
    }
  }

  /** Which dataset paths are permitted. */
  lemma DatasetPathsExactly(rules: Rules, identity: Identity, id: string, rest: string)
    requires '/' !in id
    ensures IsRequestPermitted(rules, identity, "/api/datasets/" + (id + "/" + rest)) <==>
            && id != "" && MayReadAll(rules, identity, id)
            && ("coords/" <= rest || "variable-attrs" <= rest || "metadata" <= rest || "edr/" <= rest || "tiles/" <= rest)
    ensures !IsRequestPermitted(rules, identity, "/api/datasets/" + id)
    ensures !IsRequestPermitted(rules, identity, "/api/datasets")
  {
    var tail := id + "/" + rest;
    DatasetsDispatch(tail);
    IndexOfAppended(id, '/', rest);
    assert tail[..|id|] == id && AfterSlash(tail) == rest;
    CandidatesExactly(rules, identity, id);
    NoRoute(rules, identity, id);
  }

  lemma NoRoute(rules: Rules, identity: Identity, id: string)
    requires '/' !in id
    ensures !IsRequestPermitted(rules, identity, "/api/datasets/" + id)
    ensures !IsRequestPermitted(rules, identity, "/api/datasets")
  {
    if id != "" { DatasetsDispatch(id); }
    assert "/api/datasets/" + "" == DATASETS;
    assert DATASETS[..|DATASETS| - 1] == "/api/datasets";
  }

  lemma VariablesPathsExactly(rules: Rules, identity: Identity, id: string)
    ensures IsRequestPermitted(rules, identity, "/api/dataset-variables/" + id) <==>
            id != "" && '/' !in id && MayReadAll(rules, identity, id)
  {
    VariablesDispatch(id);
    CandidatesExactly(rules, identity, id);
  }

  lemma ArchiveDispatch(archive: string)
    ensures RequestTarget("/api/vector-tiles/" + archive) == ArchiveTarget(archive)
  {
    var path := VECTOR_TILES + archive;
    assert path[|VECTOR_TILES|..] == archive;
    assert path[5] == 'v' && DATASETS[5] == 'd' && DATASET_VARIABLES[5] == 'd';
  }

  /** A vector-tile archive may be read exactly if it is the archive of a layer the user may read. */
  lemma ArchivePathsExactly(rules: Rules, identity: Identity, archive: string)
    ensures IsRequestPermitted(rules, identity, "/api/vector-tiles/" + archive) <==>
            exists layer :: layer != "" && '/' !in layer && archive == layer + ".pmtiles" &&
                            IsPermitted(rules, identity, Layers, layer)
  {
    ArchiveDispatch(archive);
    if EndsWith(archive, PMTILES) {
      var layer := archive[..|archive| - |PMTILES|];
      assert archive == layer + ".pmtiles";
      assert '/' in archive <==> '/' in layer;
      forall other | archive == other + ".pmtiles" ensures other == layer { SuffixInjective(other, layer, ".pmtiles"); }
      assert archive == PMTILES <==> layer == "";
      if layer != "" && '/' !in layer {
        assert ArchiveTarget(archive) == Items(Layers, [layer]);
        assert [layer][0] == layer;
      }
    } else {
      forall layer | archive == layer + ".pmtiles" ensures false { AppendedEndsWith(layer, ".pmtiles"); }
    }
  }

  /** Every other path reads nothing restricted. */
  lemma OtherPathsArePermitted(rules: Rules, identity: Identity, path: string)
    requires path != "/api/datasets" && !("/api/datasets/" <= path)
    requires !("/api/dataset-variables/" <= path) && !("/api/vector-tiles/" <= path)
    ensures IsRequestPermitted(rules, identity, path)
  {
    assert DATASETS[..|DATASETS| - 1] == "/api/datasets";
  }

  lemma ResolvedIsCandidate(names: seq<string>, id: string)
    requires "" !in names && Resolve(names, id).Some?
    ensures Resolve(names, id).value.0 in Candidates(id)
  {
  }

  /** Tiles and EDR: whatever the repos and their order, a permitted request reads a repo the user may read. */
  lemma PluginLookupCovered(rules: Rules, identity: Identity, names: seq<string>, id: string, rest: string)
    requires "" !in names && ValidId(id) && ("edr/" <= rest || "tiles/" <= rest)
    requires IsRequestPermitted(rules, identity, DatasetPath(id, rest)) && Resolve(names, LookedUp(id, rest)).Some?
    ensures IsPermitted(rules, identity, Repos, Resolve(names, LookedUp(id, rest)).value.0)
  {
    DatasetPathTarget(id, rest);
    ResolvedIsCandidate(names, id);
  }

  /** If the request is permitted, so is reading the repo it looks up. */
  predicate CoveredFor(rules: Rules, identity: Identity, names: seq<string>, path: string, lookedUp: string) {
    IsRequestPermitted(rules, identity, path) && Resolve(names, lookedUp).Some? ==>
      IsPermitted(rules, identity, Repos, Resolve(names, lookedUp).value.0)
  }

  /** Whatever the rules and whoever asks, a request reads only what was checked. */
  ghost predicate Covered(names: seq<string>, id: string, rest: string) {
    forall rules: Rules, identity: Identity :: CoveredFor(rules, identity, names, DatasetPath(id, rest), LookedUp(id, rest))
  }

  /** Rules under which nobody may read `<id>_data` and everybody may read what the middleware checks for `<id>`. */
  function HidingRules(id: string): Rules {
    Rules(None, map[DataId(id) := []], map[])
  }

  lemma HidingRulesPermitCandidates(id: string, identity: Identity)
    requires identity.IsAuthenticated()
    ensures TargetPermitted(HidingRules(id), identity, Items(Repos, Candidates(id)))
    ensures !IsPermitted(HidingRules(id), identity, Repos, DataId(id))
  {
  }

  /** Some rules and some user for whom the path of `<id>` is permitted, and `<id>_data` is not. */
  lemma CheckedButHidden(id: string, rest: string) returns (rules: Rules, identity: Identity)
    requires ValidId(id) && DatasetRoute(rest)
    ensures IsRequestPermitted(rules, identity, DatasetPath(id, rest))
    ensures !IsPermitted(rules, identity, Repos, DataId(id))
  {
    rules, identity := HidingRules(id), Identity("user", "jwt", []);
    HidingRulesPermitCandidates(id, identity);
    DatasetPathTarget(id, rest);
  }

  lemma NotCovered(rules: Rules, identity: Identity, names: seq<string>, path: string, name: string)
    requires IsRequestPermitted(rules, identity, path) && Resolve(names, name) == Some((name, Tiles))
    requires !IsPermitted(rules, identity, Repos, name)
    ensures !CoveredFor(rules, identity, names, path, name)
  {
  }

  /** A repo itself named `<id>_data` is read through `<id>`, whatever its own rule says. */
  lemma CustomLookupUncovered(names: seq<string>, id: string, rest: string)
    requires ValidId(id) && DatasetRoute(rest) && LookedUp(id, rest) == DataId(id)
    requires Resolve(names, DataId(id)) == Some((DataId(id), Tiles))
    ensures !Covered(names, id, rest)
  {
    var rules, identity := CheckedButHidden(id, rest);
    NotCovered(rules, identity, names, DatasetPath(id, rest), DataId(id));
  }

  lemma CustomLookupCovered(rules: Rules, identity: Identity, names: seq<string>, id: string, rest: string)
    requires ValidId(id) && DatasetRoute(rest)
    requires Resolve(names, DataId(id)).Some? && Resolve(names, DataId(id)) != Some((DataId(id), Tiles))
    requires IsRequestPermitted(rules, identity, DatasetPath(id, rest))
    ensures IsPermitted(rules, identity, Repos, Resolve(names, DataId(id)).value.0)
  {
    DatasetPathTarget(id, rest);
    ResolveFindsServed(names, DataId(id));
    var name := Resolve(names, DataId(id)).value.0;
    if name != DataId(id) { SuffixInjective(name, id, DATA_SUFFIX); }
    assert Candidates(id)[0] == id;
  }

  /** The list has a repo named `<id>_data`, and no repo named `<id>` before it. */
  predicate Shadowed(names: seq<string>, id: string) {
    exists k :: 0 <= k < |names| && names[k] == DataId(id) && id !in names[..k]
  }

  /** The lookup of `<id>_data` finds a repo of that very name exactly when the list shadows `<id>`. */
  lemma {:induction false} ShadowedIsResolved(names: seq<string>, id: string)
    ensures Resolve(names, DataId(id)) == Some((DataId(id), Tiles)) <==> Shadowed(names, id)
  {
    if names != [] {
      var rest := names[1..];
      ShadowedIsResolved(rest, id);
      assert DataId(id) != id;
      if DataId(id) == DataId(names[0]) { SuffixInjective(id, names[0], DATA_SUFFIX); }
      if names[0] == DataId(id) {
        assert id !in names[..0];
      } else if names[0] == id {
        assert forall k :: 0 < k <= |names| ==> id == names[..k][0];
      } else {
        ShadowedInRest(names, id);
      }
    }
  }

  lemma ShadowedInRest(names: seq<string>, id: string)
    requires names != [] && names[0] != DataId(id) && names[0] != id
    ensures Shadowed(names, id) <==> Shadowed(names[1..], id)
  {
    var rest := names[1..];
    if k :| 0 <= k < |names| && names[k] == DataId(id) && id !in names[..k] {
      assert rest[k - 1] == DataId(id) && names[..k] == [names[0]] + rest[..k - 1];
    }
    if k :| 0 <= k < |rest| && rest[k] == DataId(id) && id !in rest[..k] {
      assert names[k + 1] == DataId(id) && names[..k + 1] == [names[0]] + rest[..k];
    }
  }

  /**
   * The custom routes look up `<id>_data` but the middleware checks `<id>`: for every rule map and user a request
   * reads what was checked, exactly when the list has no repo itself named `<id>_data` before one named `<id>`.
   */
  lemma CustomLookupCoveredExactly(names: seq<string>, id: string, rest: string)
    requires ValidId(id) && DatasetRoute(rest) && !("edr/" <= rest || "tiles/" <= rest)
    ensures Covered(names, id, rest) <==> !Shadowed(names, id)
  {
    ShadowedIsResolved(names, id);
    if Shadowed(names, id) {
      CustomLookupUncovered(names, id, rest);
    } else {
      var path := DatasetPath(id, rest);
      forall rules: Rules, identity: Identity ensures CoveredFor(rules, identity, names, path, DataId(id)) {
        if IsRequestPermitted(rules, identity, path) && Resolve(names, DataId(id)).Some? {
          CustomLookupCovered(rules, identity, names, id, rest);
        }
      }
    }
  }

  /** No repo name ends in `_data`: every permitted dataset request reads a repo the user may read. */
  lemma MiddlewareCoversLookup(rules: Rules, identity: Identity, names: seq<string>, path: string)
    returns (id: string, rest: string)
    requires "" !in names && Unambiguous(names)
    requires IsRequestPermitted(rules, identity, path) && DATASETS <= path
    ensures ValidId(id) && path == DatasetPath(id, rest)
    ensures Resolve(names, LookedUp(id, rest)).Some? ==>
              IsPermitted(rules, identity, Repos, Resolve(names, LookedUp(id, rest)).value.0)
  {
    id, rest := OnlyListedRoutes(rules, identity, path);
    if Resolve(names, LookedUp(id, rest)).Some? {
      if "edr/" <= rest || "tiles/" <= rest {
        PluginLookupCovered(rules, identity, names, id, rest);
      } else {
        ResolveFindsServed(names, DataId(id));
        AppendedEndsWith(id, DATA_SUFFIX);
        CustomLookupCovered(rules, identity, names, id, rest);
      }
    }
  }

  lemma VariablesDispatch(id: string)
    ensures RequestTarget(DATASET_VARIABLES + id) == VariablesTarget(id)
  {
    var path := DATASET_VARIABLES + id;
    assert path[|DATASET_VARIABLES|..] == id;
    assert path[12] == '-' && DATASETS[12] == 's';
  }

  ghost predicate VariablesCovered(names: seq<string>, id: string) {
    forall rules: Rules, identity: Identity ::
      CoveredFor(rules, identity, names, DATASET_VARIABLES + id, DataId(id))
  }

  lemma VariablesPathTarget(id: string)
    requires ValidId(id)
    ensures RequestTarget(DATASET_VARIABLES + id) == Items(Repos, Candidates(id))
  {
    VariablesDispatch(id);
  }

  lemma VariablesCheckedButHidden(id: string) returns (rules: Rules, identity: Identity)
    requires ValidId(id)
    ensures IsRequestPermitted(rules, identity, DATASET_VARIABLES + id)
    ensures !IsPermitted(rules, identity, Repos, DataId(id))
  {
    rules, identity := HidingRules(id), Identity("user", "jwt", []);
    HidingRulesPermitCandidates(id, identity);
    VariablesPathTarget(id);
  }

  lemma VariablesLookupPermitted(rules: Rules, identity: Identity, names: seq<string>, id: string)
    requires ValidId(id) && Resolve(names, DataId(id)).Some? && !Shadowed(names, id)
    requires IsRequestPermitted(rules, identity, DATASET_VARIABLES + id)
    ensures IsPermitted(rules, identity, Repos, Resolve(names, DataId(id)).value.0)
  {
    VariablesPathTarget(id);
    ShadowedIsResolved(names, id);
    ResolveFindsServed(names, DataId(id));
    var name := Resolve(names, DataId(id)).value.0;
    if name != DataId(id) { SuffixInjective(name, id, DATA_SUFFIX); }
    assert Candidates(id)[0] == id;
  }

  /** `/api/dataset-variables/<id>` looks up `<id>_data` as well, and is covered in exactly the same case. */
  lemma VariablesLookupCoveredExactly(names: seq<string>, id: string)
    requires ValidId(id)
    ensures VariablesCovered(names, id) <==> !Shadowed(names, id)
  {
    var path := DATASET_VARIABLES + id;
    if Shadowed(names, id) {
      ShadowedIsResolved(names, id);
      var rules, identity := VariablesCheckedButHidden(id);
      NotCovered(rules, identity, names, path, DataId(id));
    } else {
      forall rules: Rules, identity: Identity ensures CoveredFor(rules, identity, names, path, DataId(id)) {
        if IsRequestPermitted(rules, identity, path) && Resolve(names, DataId(id)).Some? {
          VariablesLookupPermitted(rules, identity, names, id);
        }
      }
    }
  }

  // ----- One rules map, three enforcements -----

  /** `list_dataset_keys` and the `repos` of the credentials route. */
  function ReadableNames(rules: Rules, identity: Identity, names: seq<string>): seq<string> {
    if names == [] then []
    else (if IsPermitted(rules, identity, Repos, names[0]) then [names[0]] else []) +
         ReadableNames(rules, identity, names[1..])
  }

  lemma {:induction false} ReadableNamesAre(rules: Rules, identity: Identity, names: seq<string>, name: string)
    ensures name in ReadableNames(rules, identity, names) <==> name in names && IsPermitted(rules, identity, Repos, name)
  {
    if names != [] { ReadableNamesAre(rules, identity, names[1..], name); }
  }

  /**
   * For a configured repo (one path segment, not ending in `_data`) the filtered listing, the path middleware
   * and the generated session policy all say the same.
   */
  lemma EnforcementsAgree(rules: Rules, identity: Identity, names: seq<string>, repo: string, rest: string,
                          bucket: string, prefix: string, suffix: string)
    requires identity.IsAuthenticated() && Sane(rules, identity, bucket, prefix)
    requires repo in names && ValidId(repo) && !EndsWith(repo, DATA_SUFFIX) && DatasetRoute(rest)
    ensures IsRequestPermitted(rules, identity, DatasetPath(repo, rest)) <==>
            repo in ReadableNames(rules, identity, names)
    ensures Allows(PolicyOf(rules, identity, bucket, prefix), GetObject(bucket, RepoPrefix(prefix, repo) + suffix)) <==>
            repo in ReadableNames(rules, identity, names)
  {
    DatasetPathTarget(repo, rest);
    assert Candidates(repo) == [repo];
    ReadableNamesAre(rules, identity, names, repo);
    PolicyMeansRules(rules, identity, bucket, prefix, repo, suffix);
  }
}
