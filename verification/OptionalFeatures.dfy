/** The check that an optional feature's requirement is installed: a depth-first search over
    requirements whose extras bring further requirements, with one shared set of seen keys. */
module OptionalFeatures {
  import opened Wrappers

  // Names and extras are in canonical form.

  datatype Requirement = Requirement(
    name: string,
    extras: seq<string>,
    marker: Option<string>,
    specifier: Option<string>)

  /** `provided` is the Provides-Extra metadata; an unparsable dependency line is None. */
  datatype Distribution = Distribution(
    version: string,
    provided: set<string>,
    dependencies: seq<Option<Requirement>>)

  /** The installed distributions, and how packaging evaluates a marker under an extra and a
      specifier on a version. */
  datatype Environment = Environment(
    installed: map<string, Distribution>,
    holds: (string, string) -> bool,
    admits: (string, string) -> bool)

  /** The sorted list of extras stands for the multiset of them. */
  datatype Key = Key(name: string, extras: multiset<string>)

  function KeyOf(r: Requirement): Key {
    Key(r.name, multiset(r.extras))
  }

  predicate Active(env: Environment, r: Requirement, extra: string) {
    r.marker.None? || env.holds(r.marker.value, extra)
  }

  predicate Admitted(env: Environment, r: Requirement)
    requires r.name in env.installed
  {
    r.specifier.None? || env.admits(r.specifier.value, env.installed[r.name].version)
  }

  // ----- the search as a function of the seen keys ---------------------------------

  /** All keys the search can meet: the root's and those of every dependency line. */
  ghost function Universe(env: Environment, root: Requirement): set<Key> {
    {KeyOf(root)} +
    set n, i | n in env.installed && 0 <= i < |env.installed[n].dependencies|
               && env.installed[n].dependencies[i].Some? :: KeyOf(env.installed[n].dependencies[i].value)
  }

  ghost predicate KeysIn(deps: seq<Option<Requirement>>, u: set<Key>) {
    forall i | 0 <= i < |deps| && deps[i].Some? :: KeyOf(deps[i].value) in u
  }

  ghost predicate Closed(env: Environment, u: set<Key>) {
    forall n | n in env.installed :: KeysIn(env.installed[n].dependencies, u)
  }

  lemma UniverseIsClosed(env: Environment, root: Requirement)
    ensures Closed(env, Universe(env, root)) && KeyOf(root) in Universe(env, root)
  {
  }

  datatype Outcome = Outcome(ok: bool, seen: set<Key>, matched: bool)

  ghost function CheckRequirement(env: Environment, u: set<Key>, r: Requirement, extra: string, seen: set<Key>)
      : (o: Outcome)
    requires Closed(env, u) && KeyOf(r) in u
    ensures seen <= o.seen
    decreases u - seen, 0, 0
  {
    if !Active(env, r, extra) || KeyOf(r) in seen then Outcome(true, seen, false)
    else if r.name !in env.installed || !Admitted(env, r) then Outcome(false, seen + {KeyOf(r)}, false)
    else CheckExtras(env, u, env.installed[r.name], r.extras, seen + {KeyOf(r)})
  }

  ghost function CheckExtras(env: Environment, u: set<Key>, dist: Distribution, extras: seq<string>, seen: set<Key>)
      : (o: Outcome)
    requires Closed(env, u) && KeysIn(dist.dependencies, u)
    ensures seen <= o.seen
    decreases u - seen, 3, |extras|
  {
    if extras == [] then Outcome(true, seen, false) else
      var o := CheckExtra(env, u, dist, extras[0], seen);
      if o.ok then CheckExtras(env, u, dist, extras[1..], o.seen) else o
  }

  ghost function CheckExtra(env: Environment, u: set<Key>, dist: Distribution, extra: string, seen: set<Key>)
      : (o: Outcome)
    requires Closed(env, u) && KeysIn(dist.dependencies, u)
    ensures seen <= o.seen
    decreases u - seen, 2, 0
  {
    if dist.provided != {} && extra !in dist.provided then Outcome(false, seen, false) else
      var o := CheckDependencies(env, u, dist.dependencies, extra, seen);
      o.(ok := o.ok && (o.matched || dist.provided != {}))
  }

  /** The dependency lines one after another; `matched` says that one of them was active. */
  ghost function CheckDependencies(env: Environment, u: set<Key>, deps: seq<Option<Requirement>>, extra: string,
                                   seen: set<Key>): (o: Outcome)
    requires Closed(env, u) && KeysIn(deps, u)
    ensures seen <= o.seen
    decreases u - seen, 1, |deps|
  {
    if deps == [] then Outcome(true, seen, false)
    else if deps[0].None? || !Active(env, deps[0].value, extra) then
      CheckDependencies(env, u, deps[1..], extra, seen)
    else
      var first := CheckRequirement(env, u, deps[0].value, extra, seen);
      if !first.ok then first.(matched := true)
      else CheckDependencies(env, u, deps[1..], extra, first.seen).(matched := true)
  }

  // ----- the search as the program runs it ------------------------------------------

  /** The set that all calls of one search share. */
  class SeenSet {
    var keys: set<Key>

    constructor ()
      ensures keys == {}
    {
      keys := {};
    }

    method Add(key: Key)
      modifies this
      ensures keys == old(keys) + {key}
    {
      keys := keys + {key};
    }
  }

  method RequirementInstalledIn(env: Environment, ghost u: set<Key>, r: Requirement, extra: string, seen: SeenSet)
    returns (ok: bool)
    requires Closed(env, u) && KeyOf(r) in u
    modifies seen
    ensures var o := CheckRequirement(env, u, r, extra, old(seen.keys)); ok == o.ok && seen.keys == o.seen
    decreases u - seen.keys, 0, 0
  {
    if r.marker.Some? && !env.holds(r.marker.value, extra) {
      return true;
    }
    if KeyOf(r) in seen.keys {
      return true;
    }
    seen.Add(KeyOf(r));
    if r.name !in env.installed {
      return false;
    }
    var dist := env.installed[r.name];
    if r.specifier.Some? && !env.admits(r.specifier.value, dist.version) {
      return false;
    }
    ghost var start := seen.keys;
    for i := 0 to |r.extras|
      invariant start <= seen.keys
      invariant CheckExtras(env, u, dist, r.extras, start) == CheckExtras(env, u, dist, r.extras[i..], seen.keys)
    {
      var installed := ExtraDependenciesInstalled(env, u, dist, r.extras[i], seen);
      if !installed {
        return false;
      }
      assert r.extras[i..][1..] == r.extras[i + 1..];
    }
    ok := true;
  }

  method ExtraDependenciesInstalled(env: Environment, ghost u: set<Key>, dist: Distribution, extra: string, seen: SeenSet)
    returns (ok: bool)
    requires Closed(env, u) && KeysIn(dist.dependencies, u)
    modifies seen
    ensures var o := CheckExtra(env, u, dist, extra, old(seen.keys)); ok == o.ok && seen.keys == o.seen
    decreases u - seen.keys, 2, 0
  {
    if dist.provided != {} && extra !in dist.provided {
      return false;
    }
    var matched, deps := false, dist.dependencies;
    for i := 0 to |deps|
      invariant old(seen.keys) <= seen.keys
      invariant var rest := CheckDependencies(env, u, deps[i..], extra, seen.keys);
                CheckDependencies(env, u, deps, extra, old(seen.keys)) == rest.(matched := matched || rest.matched)
    {
      assert deps[i..][1..] == deps[i + 1..];
      if deps[i].Some? {
        var r := deps[i].value;
        if Active(env, r, extra) {
          matched := true;
          var installed := RequirementInstalledIn(env, u, r, extra, seen);
          if !installed {
            return false;
          }
        }
      }
    }
    ok := matched || dist.provided != {};
  }

  /** The check of one requirement, starting with nothing seen. */
  ghost predicate Installed(env: Environment, r: Requirement, extra: string) {
    UniverseIsClosed(env, r);
    CheckRequirement(env, Universe(env, r), r, extra, {}).ok
  }

  method RequirementInstalled(env: Environment, r: Requirement, extra: string) returns (ok: bool)
    ensures ok == Installed(env, r, extra)
  {
    UniverseIsClosed(env, r);
    var seen := new SeenSet();
    ok := RequirementInstalledIn(env, Universe(env, r), r, extra, seen);
  }

  /** None stands for a feature without dependency metadata. */
  method ExtraInstalled(env: Environment, extra: string, deps: Option<seq<Requirement>>) returns (ok: bool)
    ensures ok <==> deps.None? || forall d | d in deps.value :: Installed(env, d, extra)
  {
    if deps.None? {
      return true;
    }
    for i := 0 to |deps.value|
      invariant forall j | 0 <= j < i :: Installed(env, deps.value[j], extra)
    {
      var installed := RequirementInstalled(env, deps.value[i], extra);
      if !installed {
        return false;
      }
    }
    ok := true;
  }

  // ----- what the check is meant to decide --------------------------------------------

  /** A requirement as it is met under an extra. */
  datatype Node = Node(req: Requirement, extra: string)

  /** The distribution offers the extra: it lists it, or it lists none and has lines for it. */
  ghost predicate Offers(env: Environment, dist: Distribution, extra: string) {
    && (dist.provided != {} ==> extra in dist.provided)
    && (dist.provided == {} ==> HasActive(env, dist.dependencies, extra))
  }

  ghost predicate HasActive(env: Environment, deps: seq<Option<Requirement>>, extra: string) {
    exists i :: 0 <= i < |deps| && deps[i].Some? &&
                (deps[i].value.marker.None? || env.holds(deps[i].value.marker.value, extra))
  }

  ghost predicate Good(env: Environment, k: Key) {
    k.name in env.installed && forall e | e in k.extras :: Offers(env, env.installed[k.name], e)
  }

  ghost predicate Met(env: Environment, r: Requirement) {
    Good(env, Key(r.name, multiset(r.extras))) && VersionFits(env, r)
  }

  /** The installed version is one that the requirement's specifier, if it has one, admits. */
  ghost predicate VersionFits(env: Environment, r: Requirement) {
    r.name in env.installed && (r.specifier.Some? ==> env.admits(r.specifier.value, env.installed[r.name].version))
  }

  /** An active dependency line that one of the key's extras brings in. */
  ghost predicate Edge(env: Environment, k: Key, n: Node) {
    && k.name in env.installed
    && n.extra in k.extras
    && Some(n.req) in env.installed[k.name].dependencies
    && Applies(env, n)
  }

  /** The requirement has no marker, or one that holds under the extra. */
  ghost predicate Applies(env: Environment, n: Node) {
    n.req.marker.Some? ==> env.holds(n.req.marker.value, n.extra)
  }

  ghost predicate IsPath(env: Environment, root: Node, path: seq<Node>) {
    && path != []
    && path[0] == root
    && Applies(env, root)
    && forall i | 0 < i < |path| :: Edge(env, KeyOf(path[i - 1].req), path[i])
  }

  ghost predicate Reachable(env: Environment, root: Node, n: Node) {
    exists path :: IsPath(env, root, path) && path[|path| - 1] == n
  }

  lemma ReachableSelf(env: Environment, root: Node)
    requires Applies(env, root)
    ensures Reachable(env, root, root)
  {
    assert IsPath(env, root, [root]);
  }

  lemma ReachableStep(env: Environment, root: Node, n: Node, next: Node)
    requires Reachable(env, root, n) && Edge(env, KeyOf(n.req), next)
    ensures Reachable(env, root, next)
  {
    var path :| IsPath(env, root, path) && path[|path| - 1] == n;
    var longer := path + [next];
    assert IsPath(env, root, longer) && longer[|longer| - 1] == next;
  }

  // ----- soundness --------------------------------------------------------------------

  /** Some reachable requirement with this key had its version admitted. */
  ghost predicate Witnessed(env: Environment, root: Node, k: Key) {
    exists n :: Reachable(env, root, n) && KeyOf(n.req) == k && VersionFits(env, n.req)
  }

  /** A key that needs no more work once the keys in `seen` are settled. */
  ghost predicate Settled(env: Environment, root: Node, k: Key, seen: set<Key>) {
    && Good(env, k)
    && Witnessed(env, root, k)
    && forall n | Edge(env, k, n) :: KeyOf(n.req) in seen
  }

  ghost predicate AllSettled(env: Environment, root: Node, keys: set<Key>, seen: set<Key>) {
    forall k | k in keys :: Settled(env, root, k, seen)
  }

  lemma {:induction false} RequirementSound(env: Environment, u: set<Key>, root: Node, n: Node, seen: set<Key>)
    requires Closed(env, u) && KeyOf(n.req) in u
    requires Active(env, n.req, n.extra) ==> Reachable(env, root, n)
    requires CheckRequirement(env, u, n.req, n.extra, seen).ok
    ensures var after := CheckRequirement(env, u, n.req, n.extra, seen).seen;
            AllSettled(env, root, after - seen, after) && (Active(env, n.req, n.extra) ==> KeyOf(n.req) in after)
    decreases u - seen, 0, 0
  {
    var k := KeyOf(n.req);
    if Active(env, n.req, n.extra) && k !in seen {
      var dist, start := env.installed[n.req.name], seen + {k};
      ExtrasSound(env, u, root, n, n.req.extras, start);
      var after := CheckExtras(env, u, dist, n.req.extras, start).seen;
      assert Settled(env, root, k, after);
      assert after - seen == (after - start) + {k};
    }
  }

  lemma {:induction false} ExtrasSound(env: Environment, u: set<Key>, root: Node, n: Node, extras: seq<string>, seen: set<Key>)
    requires Closed(env, u) && n.req.name in env.installed
    requires Reachable(env, root, n) && forall e | e in extras :: e in n.req.extras
    requires CheckExtras(env, u, env.installed[n.req.name], extras, seen).ok
    ensures var dist := env.installed[n.req.name];
            var after := CheckExtras(env, u, dist, extras, seen).seen;
            && AllSettled(env, root, after - seen, after)
            && (forall e | e in extras :: Offers(env, dist, e))
            && (forall m | Edge(env, KeyOf(n.req), m) && m.extra in extras :: KeyOf(m.req) in after)
    decreases u - seen, 3, |extras|
  {
    if extras != [] {
      var dist := env.installed[n.req.name];
      var middle := CheckExtra(env, u, dist, extras[0], seen).seen;
      ExtraSound(env, u, root, n, extras[0], seen);
      ExtrasSound(env, u, root, n, extras[1..], middle);
      var after := CheckExtras(env, u, dist, extras, seen).seen;
      assert after - seen == (after - middle) + (middle - seen);
    }
  }

  lemma {:induction false} ExtraSound(env: Environment, u: set<Key>, root: Node, n: Node, extra: string, seen: set<Key>)
    requires Closed(env, u) && n.req.name in env.installed
    requires Reachable(env, root, n) && extra in n.req.extras
    requires CheckExtra(env, u, env.installed[n.req.name], extra, seen).ok
    ensures var dist := env.installed[n.req.name];
            var after := CheckExtra(env, u, dist, extra, seen).seen;
            && AllSettled(env, root, after - seen, after)
            && Offers(env, dist, extra)
            && (forall m | Edge(env, KeyOf(n.req), m) && m.extra == extra :: KeyOf(m.req) in after)
    decreases u - seen, 2, 0
  {
    DependenciesSound(env, u, root, n, env.installed[n.req.name].dependencies, extra, seen);
  }

  lemma {:induction false} DependenciesSound(env: Environment, u: set<Key>, root: Node, n: Node,
                                             deps: seq<Option<Requirement>>, extra: string, seen: set<Key>)
    requires Closed(env, u) && KeysIn(deps, u) && n.req.name in env.installed
    requires Reachable(env, root, n) && extra in n.req.extras
    requires forall d | d in deps :: d in env.installed[n.req.name].dependencies
    requires CheckDependencies(env, u, deps, extra, seen).ok
    ensures var o := CheckDependencies(env, u, deps, extra, seen);
            && AllSettled(env, root, o.seen - seen, o.seen)
            && (o.matched ==> HasActive(env, deps, extra))
            && (forall r | Some(r) in deps && Active(env, r, extra) :: KeyOf(r) in o.seen)
    decreases u - seen, 1, |deps|
  {
    if deps != [] {
      var rest := deps[1..];
      assert deps == [deps[0]] + rest;
      var o := CheckDependencies(env, u, deps, extra, seen);
      if deps[0].None? || !Active(env, deps[0].value, extra) {
        DependenciesSound(env, u, root, n, rest, extra, seen);
        ActiveLater(env, deps, extra);
      } else {
        var m := Node(deps[0].value, extra);
        assert Edge(env, KeyOf(n.req), m);
        ReachableStep(env, root, n, m);
        RequirementSound(env, u, root, m, seen);
        var middle := CheckRequirement(env, u, m.req, extra, seen).seen;
        DependenciesSound(env, u, root, n, rest, extra, middle);
        assert o.seen - seen == (o.seen - middle) + (middle - seen);
      }
    }
  }

  lemma ActiveLater(env: Environment, deps: seq<Option<Requirement>>, extra: string)
    requires deps != []
    ensures HasActive(env, deps[1..], extra) ==> HasActive(env, deps, extra)
  {
    if HasActive(env, deps[1..], extra) {
      var i :| 0 <= i < |deps[1..]| && deps[1..][i].Some? && Active(env, deps[1..][i].value, extra);
      assert deps[i + 1] == deps[1..][i];
    }
  }

  lemma {:induction false} PathStaysSeen(env: Environment, root: Node, seen: set<Key>, path: seq<Node>)
    requires AllSettled(env, root, seen, seen) && KeyOf(root.req) in seen && IsPath(env, root, path)
    ensures KeyOf(path[|path| - 1].req) in seen
  {
    if |path| > 1 {
      var shorter := path[..|path| - 1];
      PathStaysSeen(env, root, seen, shorter);
      var k := KeyOf(shorter[|shorter| - 1].req);
      assert Settled(env, root, k, seen) && Edge(env, k, path[|path| - 1]);
    }
  }

  /** True means that every reachable requirement, around cycles too, has an installed
      distribution that offers its extras, and that some requirement reached with the same
      name and extras had its version admitted. */
  lemma InstalledIsSound(env: Environment, root: Node, n: Node)
    requires Installed(env, root.req, root.extra) && Reachable(env, root, n)
    ensures Good(env, KeyOf(n.req)) && Witnessed(env, root, KeyOf(n.req))
  {
    var u := Universe(env, root.req);
    UniverseIsClosed(env, root.req);
    var path :| IsPath(env, root, path) && path[|path| - 1] == n;
    ReachableSelf(env, root);
    RequirementSound(env, u, root, root, {});
    var after := CheckRequirement(env, u, root.req, root.extra, {}).seen;
    assert after - {} == after;
    PathStaysSeen(env, root, after, path);
    assert Settled(env, root, KeyOf(n.req), after);
  }

  // ----- completeness -----------------------------------------------------------------

  ghost predicate AllMet(env: Environment, root: Node) {
    forall n | Reachable(env, root, n) :: Met(env, n.req)
  }

  lemma {:induction false} RequirementComplete(env: Environment, u: set<Key>, root: Node, n: Node, seen: set<Key>)
    requires Closed(env, u) && KeyOf(n.req) in u && AllMet(env, root)
    requires Active(env, n.req, n.extra) ==> Reachable(env, root, n)
    ensures CheckRequirement(env, u, n.req, n.extra, seen).ok
    decreases u - seen, 0, 0
  {
    var k := KeyOf(n.req);
    if Active(env, n.req, n.extra) && k !in seen {
      assert Met(env, n.req);
      forall e | e in n.req.extras ensures Offers(env, env.installed[n.req.name], e) {
        assert e in k.extras;
      }
      ExtrasComplete(env, u, root, n, n.req.extras, seen + {k});
    }
  }

  lemma {:induction false} ExtrasComplete(env: Environment, u: set<Key>, root: Node, n: Node, extras: seq<string>, seen: set<Key>)
    requires Closed(env, u) && n.req.name in env.installed && AllMet(env, root) && Reachable(env, root, n)
    requires forall e | e in extras :: e in n.req.extras && Offers(env, env.installed[n.req.name], e)
    ensures CheckExtras(env, u, env.installed[n.req.name], extras, seen).ok
    decreases u - seen, 3, |extras|
  {
    if extras != [] {
      var dist := env.installed[n.req.name];
      DependenciesComplete(env, u, root, n, dist.dependencies, extras[0], seen);
      ExtrasComplete(env, u, root, n, extras[1..], CheckExtra(env, u, dist, extras[0], seen).seen);
    }
  }

  lemma {:induction false} DependenciesComplete(env: Environment, u: set<Key>, root: Node, n: Node,
                                                deps: seq<Option<Requirement>>, extra: string, seen: set<Key>)
    requires Closed(env, u) && KeysIn(deps, u) && n.req.name in env.installed && AllMet(env, root)
    requires Reachable(env, root, n) && extra in n.req.extras
    requires forall d | d in deps :: d in env.installed[n.req.name].dependencies
    ensures var o := CheckDependencies(env, u, deps, extra, seen);
            o.ok && (HasActive(env, deps, extra) ==> o.matched)
    decreases u - seen, 1, |deps|
  {
    if deps != [] {
      var rest := deps[1..];
      assert deps == [deps[0]] + rest;
      if deps[0].None? || !Active(env, deps[0].value, extra) {
        DependenciesComplete(env, u, root, n, rest, extra, seen);
        ActiveNow(env, deps, extra);
      } else {
        var m := Node(deps[0].value, extra);
        assert Edge(env, KeyOf(n.req), m);
        ReachableStep(env, root, n, m);
        RequirementComplete(env, u, root, m, seen);
        DependenciesComplete(env, u, root, n, rest, extra, CheckRequirement(env, u, m.req, extra, seen).seen);
      }
    }
  }

  lemma ActiveNow(env: Environment, deps: seq<Option<Requirement>>, extra: string)
    requires deps != [] && (deps[0].None? || !Active(env, deps[0].value, extra))
    ensures HasActive(env, deps, extra) ==> HasActive(env, deps[1..], extra)
  {
    if HasActive(env, deps, extra) {
      var i :| 0 <= i < |deps| && deps[i].Some? && Active(env, deps[i].value, extra);
      assert deps[1..][i - 1] == deps[i];
    }
  }

  /** Requirements that are all met, around cycles too, are never reported missing. */
  lemma InstalledIsComplete(env: Environment, root: Node)
    requires AllMet(env, root)
    ensures Installed(env, root.req, root.extra)
  {
    UniverseIsClosed(env, root.req);
    if Active(env, root.req, root.extra) {
      ReachableSelf(env, root);
    }
    RequirementComplete(env, Universe(env, root.req), root, root, {});
  }

  /** Requirements reached with one name and one set of extras agree on the installed version. */
  ghost predicate SpecifiersAgree(env: Environment, root: Node) {
    forall m, n | Reachable(env, root, m) && Reachable(env, root, n)
                  && KeyOf(m.req) == KeyOf(n.req) && m.req.name in env.installed ::
      VersionFits(env, m.req) == VersionFits(env, n.req)
  }

  /** Where specifiers agree, the check decides whether everything reachable is met. Where they
      do not, something reachable is not met, whatever the check says. */
  lemma ExactWhenSpecifiersAgree(env: Environment, root: Node)
    ensures SpecifiersAgree(env, root) ==> (Installed(env, root.req, root.extra) <==> AllMet(env, root))
    ensures !SpecifiersAgree(env, root) ==> !AllMet(env, root)
  {
    if AllMet(env, root) {
      InstalledIsComplete(env, root);
    }
    if Installed(env, root.req, root.extra) && SpecifiersAgree(env, root) {
      forall n | Reachable(env, root, n) ensures Met(env, n.req) {
        InstalledIsSound(env, root, n);
      }
    }
  }

  // ----- markers ----------------------------------------------------------------------------

  /** A missing dependency that an extra brings in is found: a line whose marker holds under the
      requested extra, for a name that is not installed. */
  lemma MissingDependencyIsFound(env: Environment, root: Node, extra: string, line: Requirement)
    requires root.req.marker.Some? ==> env.holds(root.req.marker.value, root.extra)
    requires extra in root.req.extras && line.name !in env.installed
    requires root.req.name in env.installed ==>
               && Some(line) in env.installed[root.req.name].dependencies
               && (line.marker.Some? ==> env.holds(line.marker.value, extra))
    ensures !Installed(env, root.req, root.extra)
  {
    ReachableSelf(env, root);
    if Installed(env, root.req, root.extra) {
      InstalledIsSound(env, root, root);
      assert extra in KeyOf(root.req).extras;
      ReachableStep(env, root, root, Node(line, extra));
      InstalledIsSound(env, root, Node(line, extra));
    }
  }

  /** A line whose marker does not hold under the extra is not looked at: with another in its place
      for which the same is true, the search is the same, whatever it requires. */
  lemma {:induction false} InactiveLineIsSkipped(env: Environment, u: set<Key>, deps: seq<Option<Requirement>>, i: nat,
                                                 extra: string, seen: set<Key>)
    requires Closed(env, u) && KeysIn(deps, u) && i < |deps|
    requires deps[i].Some? ==> deps[i].value.marker.Some? && !env.holds(deps[i].value.marker.value, extra)
    ensures KeysIn(deps[..i] + deps[i + 1..], u)
    ensures CheckDependencies(env, u, deps, extra, seen)
            == CheckDependencies(env, u, deps[..i] + deps[i + 1..], extra, seen)
    decreases i
  {
    var fewer := deps[..i] + deps[i + 1..];
    if i == 0 {
      assert fewer == deps[1..];
    } else {
      assert fewer[0] == deps[0] && fewer[1..] == deps[1..][..i - 1] + deps[1..][i..];
      forall s: set<Key> ensures KeysIn(fewer[1..], u) &&
        CheckDependencies(env, u, deps[1..], extra, s) == CheckDependencies(env, u, fewer[1..], extra, s) {
        InactiveLineIsSkipped(env, u, deps[1..], i - 1, extra, s);
      }
    }
  }

  /** A requirement whose marker does not hold under its extra counts as installed. */
  lemma InactiveIsInstalled(env: Environment, r: Requirement, extra: string)
    requires r.marker.Some? && !env.holds(r.marker.value, extra)
    ensures Installed(env, r, extra)
  {
    UniverseIsClosed(env, r);
  }

  function ClashEnvironment(holds: (string, string) -> bool): Environment {
    Environment(
      map["app" := Distribution("1", {"x"}, [Some(Lib("fits")), Some(Lib("clashes"))]),
          "lib" := Distribution("1", {}, [])],
      holds,
      (specifier, version) => specifier == "fits")
  }

  function Lib(specifier: string): Requirement {
    Requirement("lib", [], None, Some(specifier))
  }

  /** A reachable requirement that is not met, and a check that says True. */
  lemma SecondSpecifierIsIgnored(holds: (string, string) -> bool)
    ensures var env, root := ClashEnvironment(holds), Node(Requirement("app", ["x"], None, None), "");
            Installed(env, root.req, root.extra) && !AllMet(env, root)
  {
    var env, root := ClashEnvironment(holds), Node(Requirement("app", ["x"], None, None), "");
    var first, second := Lib("fits"), Lib("clashes");
    assert env.installed["app"].dependencies == [Some(first), Some(second)];
    assert "x" in KeyOf(root.req).extras;
    ReachableSelf(env, root);
    ReachableStep(env, root, root, Node(second, "x"));
    assert !Met(env, second);
    UniverseIsClosed(env, root.req);
    var u, seen := Universe(env, root.req), {} + {KeyOf(root.req)};
    LibIsSearched(env, u, seen);
    var app := env.installed["app"];
    assert "x" in app.provided;
    assert CheckExtra(env, u, app, "x", seen).ok;
    assert ["x"][1..] == [];
    assert CheckExtras(env, u, app, ["x"], seen).ok;
    assert KeyOf(root.req) !in {};
    assert CheckRequirement(env, u, root.req, "", {}) == CheckExtras(env, u, app, ["x"], seen);
  }

  lemma LibIsSearched(env: Environment, u: set<Key>, seen: set<Key>)
    requires env == ClashEnvironment(env.holds) && Closed(env, u)
    requires KeyOf(Lib("fits")) in u && KeyOf(Lib("fits")) !in seen
    ensures KeysIn([Some(Lib("fits")), Some(Lib("clashes"))], u)
    ensures CheckDependencies(env, u, [Some(Lib("fits")), Some(Lib("clashes"))], "x", seen).ok
  {
    var first, second := Lib("fits"), Lib("clashes");
    var later := seen + {KeyOf(first)};
    var deps := [Some(first), Some(second)];
    assert KeyOf(second) == KeyOf(first);
    assert deps[1..] == [Some(second)] && deps[1..][1..] == [];
    assert CheckRequirement(env, u, first, "x", seen) == CheckExtras(env, u, env.installed["lib"], [], later);
    assert CheckDependencies(env, u, [], "x", later).ok;
    assert CheckDependencies(env, u, [Some(second)], "x", later).ok;
  }
}
