/** Who may read which repo or vector-tile layer. */
module AccessRules {
  import opened Common
  import opened Text

  datatype Identity = Identity(subject: string, authType: string, roles: seq<string>) {
    predicate IsAuthenticated() {
      authType == "jwt"
    }
  }

  datatype ItemKind = Repos | Layers

  /** `None` for no default: unlisted items are open to every logged-in user. */
  datatype Rules = Rules(default: Option<seq<string>>, repos: map<string, seq<string>>, layers: map<string, seq<string>>) {
    function Items(kind: ItemKind): map<string, seq<string>> {
      match kind
      case Repos => repos
      case Layers => layers
    }
  }

  predicate HoldsAny(identity: Identity, roles: seq<string>) {
    exists role :: role in roles && role in identity.roles
  }

  predicate HasDefault(rules: Rules, identity: Identity) {
    identity.IsAuthenticated() && (rules.default.None? || HoldsAny(identity, rules.default.value))
  }

  predicate IsPermitted(rules: Rules, identity: Identity, kind: ItemKind, name: string) {
    if !identity.IsAuthenticated() then false
    else if name in rules.Items(kind) then HoldsAny(identity, rules.Items(kind)[name])
    else HasDefault(rules, identity)
  }

  function ReadableListed(rules: Rules, identity: Identity, kind: ItemKind): seq<string> {
    Sorted(set name | name in rules.Items(kind) && HoldsAny(identity, rules.Items(kind)[name]))
  }

  function UnreadableListed(rules: Rules, identity: Identity, kind: ItemKind): seq<string> {
    Sorted(set name | name in rules.Items(kind) && !HoldsAny(identity, rules.Items(kind)[name]))
  }

  /** The mode (true for deny mode) and the repos of one user's credential policy. */
  function PolicyFor(rules: Rules, identity: Identity): (bool, seq<string>) {
    if HasDefault(rules, identity) then (true, UnreadableListed(rules, identity, Repos))
    else (false, ReadableListed(rules, identity, Repos))
  }

  /** In deny mode a user may read exactly the repos not named; in allow mode exactly the ones named. */
  lemma PolicyForIsIsPermitted(rules: Rules, identity: Identity, name: string)
    requires identity.IsAuthenticated()
    ensures var (deny, repos) := PolicyFor(rules, identity);
            IsPermitted(rules, identity, Repos, name) <==> (if deny then name !in repos else name in repos)
  {
  }

  /**
   * A logged-in user may read a listed item exactly with one of its roles, and an unlisted one exactly if there is no
   * default or with one of the default's roles. Nobody else may read anything.
   */
  lemma PermittedExactly(rules: Rules, identity: Identity, kind: ItemKind, name: string)
    ensures var listed := if kind == Repos then rules.repos else rules.layers;
            IsPermitted(rules, identity, kind, name) <==>
              && identity.authType == "jwt"
              && (name in listed ==> exists i, j ::
                    0 <= i < |listed[name]| && 0 <= j < |identity.roles| && listed[name][i] == identity.roles[j])
              && (name !in listed ==> rules.default.None? || exists i, j ::
                    0 <= i < |rules.default.value| && 0 <= j < |identity.roles| &&
                    rules.default.value[i] == identity.roles[j])
  {
    var listed := if kind == Repos then rules.repos else rules.layers;
    if name in listed { SharedRole(identity, listed[name]); }
    if rules.default.Some? { SharedRole(identity, rules.default.value); }
  }

  lemma SharedRole(identity: Identity, roles: seq<string>)
    ensures HoldsAny(identity, roles) <==>
            exists i, j :: 0 <= i < |roles| && 0 <= j < |identity.roles| && roles[i] == identity.roles[j]
  {
    if i, j :| 0 <= i < |roles| && 0 <= j < |identity.roles| && roles[i] == identity.roles[j] {
      assert roles[i] in roles && roles[i] in identity.roles;
    }
    if role :| role in roles && role in identity.roles {
      var i :| 0 <= i < |roles| && roles[i] == role;
      var j :| 0 <= j < |identity.roles| && identity.roles[j] == role;
      assert roles[i] == identity.roles[j];
    }
  }

  /** Another role never takes a permission away. */
  lemma RolesOnlyAdd(rules: Rules, identity: Identity, kind: ItemKind, name: string, more: seq<string>)
    requires IsPermitted(rules, identity, kind, name)
    ensures IsPermitted(rules, identity.(roles := identity.roles + more), kind, name)
  {
    var wider := identity.(roles := identity.roles + more);
    forall roles | HoldsAny(identity, roles) ensures HoldsAny(wider, roles) {
      var role :| role in roles && role in identity.roles;
      assert role in wider.roles;
    }
  }
}
