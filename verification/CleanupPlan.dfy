/**
 The dry-run cleanup planner: which image versions a release manifest, tags, the recency floor
 and age protect, and which are left as candidates. Versions arrive in the normalised order of
 the validated inventory; instants are microseconds.
 */
module CleanupPlan {
  const DAY := 86_400_000_000

  datatype Version = Version(repository: string, package: string, digest: string, tags: seq<string>, createdAt: string)

  datatype Target = Target(name: string, repository: string, digest: string)

  datatype Resource = Resource(kind: string, name: string, digest: string)

  datatype Inventory = Inventory(complete: bool, resources: seq<Resource>, versions: seq<Version>)

  datatype Manifest = Manifest(
    active: seq<Target>, rollback: seq<Target>, floor: nat, minAgeDays: nat, retentionDays: nat, restoreVerifiedAt: int)

  /** What the manifest protects by: package names are not part of it. */
  type Ref = (string, string)

  type Package = (string, string)

  function RefOf(v: Version): Ref {
    (v.repository, v.digest)
  }

  function PackageOf(v: Version): Package {
    (v.repository, v.package)
  }

  function TargetRef(t: Target): Ref {
    (t.repository, t.digest)
  }

  // --------------------------------------------------------- validation

  ghost predicate DistinctVersions(versions: seq<Version>) {
    forall i, j :: 0 <= i < j < |versions| ==>
      (versions[i].repository, versions[i].package, versions[i].digest)
      != (versions[j].repository, versions[j].package, versions[j].digest)
  }

  ghost predicate DistinctNames(targets: seq<Target>) {
    forall i, j :: 0 <= i < j < |targets| ==> targets[i].name != targets[j].name
  }

  /** `validate_inventory` grows a key set and reports every repeated version. */
  method ValidateVersions(versions: seq<Version>) returns (repeats: nat)
    ensures repeats == 0 <==> DistinctVersions(versions)
  {
    repeats := 0;
    var keys: set<(string, string, string)> := {};
    var k := 0;
    while k < |versions|
      invariant 0 <= k <= |versions|
      invariant keys == set i | 0 <= i < k :: (versions[i].repository, versions[i].package, versions[i].digest)
      invariant repeats == 0 <==> DistinctVersions(versions[..k])
    {
      var key := (versions[k].repository, versions[k].package, versions[k].digest);
      if key in keys {
        repeats := repeats + 1;
        var i :| 0 <= i < k && key == (versions[i].repository, versions[i].package, versions[i].digest);
        assert versions[..k + 1][i] == versions[i] && versions[..k + 1][k] == versions[k];
      } else {
        DistinctMore(versions, k);
      }
      keys := keys + {key};
      k := k + 1;
    }
    assert versions[..k] == versions;
  }

  lemma DistinctMore(versions: seq<Version>, k: nat)
    requires k < |versions|
    requires forall i :: 0 <= i < k ==>
      (versions[i].repository, versions[i].package, versions[i].digest)
      != (versions[k].repository, versions[k].package, versions[k].digest)
    ensures DistinctVersions(versions[..k + 1]) <==> DistinctVersions(versions[..k])
  {
    if DistinctVersions(versions[..k + 1]) {
      forall i, j | 0 <= i < j < k
        ensures (versions[i].repository, versions[i].package, versions[i].digest)
             != (versions[j].repository, versions[j].package, versions[j].digest)
      {
        assert versions[..k + 1][i] == versions[i] && versions[..k + 1][j] == versions[j];
      }
    }
  }

  /** What the planner relies on once both inputs have been validated. */
  ghost predicate Validated(inv: Inventory, m: Manifest) {
    && DistinctVersions(inv.versions) && DistinctNames(m.active) && DistinctNames(m.rollback)
    && m.active != [] && m.rollback != []
    && (forall t :: t in m.active ==> exists r :: r in m.rollback && r.name == t.name)
    && m.floor >= 1 && m.minAgeDays >= 1 && m.retentionDays >= 1
  }

  // --------------------------------------------------- the recency floor

  /** Text order, the order `created_at` strings are sorted by. */
  predicate Less(a: string, b: string) {
    if b == "" then false
    else if a == "" then true
    else a[0] < b[0] || (a[0] == b[0] && Less(a[1..], b[1..]))
  }

  lemma {:induction false} LessTransitive(a: string, b: string, c: string)
    requires !Less(a, b) && !Less(b, c)
    ensures !Less(a, c)
  {
    if a != "" && b != "" && c != "" && a[0] == b[0] == c[0] { LessTransitive(a[1..], b[1..], c[1..]); }
  }

  lemma {:induction false} LessAsymmetric(a: string, b: string)
    requires Less(a, b)
    ensures !Less(b, a)
  {
    if a != "" && b != "" && a[0] == b[0] { LessAsymmetric(a[1..], b[1..]); }
  }

  function OfPackage(versions: seq<Version>, package: Package): seq<Version> {
    if versions == [] then []
    else
      var last := versions[|versions| - 1];
      OfPackage(versions[..|versions| - 1], package) + if PackageOf(last) == package then [last] else []
  }

  /** A stable descending sort by creation text, one version at a time. */
  function Insert(sorted: seq<Version>, v: Version): seq<Version> {
    if sorted == [] then [v]
    else if Less(sorted[0].createdAt, v.createdAt) then [v] + sorted
    else [sorted[0]] + Insert(sorted[1..], v)
  }

  function NewestFirst(versions: seq<Version>): seq<Version> {
    if versions == [] then [] else Insert(NewestFirst(versions[..|versions| - 1]), versions[|versions| - 1])
  }

  ghost predicate Descending(versions: seq<Version>) {
    forall i, j :: 0 <= i < j < |versions| ==> !Less(versions[i].createdAt, versions[j].createdAt)
  }

  ghost predicate Leads(v: Version, rest: seq<Version>) {
    forall w :: w in rest ==> !Less(v.createdAt, w.createdAt)
  }

  lemma Uncons(sorted: seq<Version>)
    requires sorted != [] && Descending(sorted)
    ensures Descending(sorted[1..]) && Leads(sorted[0], sorted[1..])
  {
    hide Less;
  }

  lemma Cons(v: Version, rest: seq<Version>)
    requires Descending(rest) && Leads(v, rest)
    ensures Descending([v] + rest) && multiset([v] + rest) == multiset(rest) + multiset{v}
  {
    hide Less;
  }

  lemma {:induction false} InsertSorts(sorted: seq<Version>, v: Version)
    requires Descending(sorted)
    ensures Descending(Insert(sorted, v)) && multiset(Insert(sorted, v)) == multiset(sorted) + multiset{v}
  {
    hide Less, Descending;
    if sorted == [] {
      Single(v);
    } else {
      var first, rest := sorted[0], sorted[1..];
      assert sorted == [first] + rest;
      Uncons(sorted);
      if Less(first.createdAt, v.createdAt) {
        LessAsymmetric(first.createdAt, v.createdAt);
        forall w | w in sorted ensures !Less(v.createdAt, w.createdAt) {
          if w != first { LessTransitive(v.createdAt, first.createdAt, w.createdAt); }
        }
        Cons(v, sorted);
      } else {
        InsertSorts(rest, v);
        forall w | w in Insert(rest, v) ensures !Less(first.createdAt, w.createdAt) {
          assert w in multiset(Insert(rest, v));
        }
        Cons(first, Insert(rest, v));
      }
    }
  }

  lemma Single(v: Version)
    ensures Descending([v])
  {
  }

  lemma {:induction false} NewestFirstSorts(versions: seq<Version>)
    ensures Descending(NewestFirst(versions)) && multiset(NewestFirst(versions)) == multiset(versions)
  {
    if versions != [] {
      var n := |versions| - 1;
      NewestFirstSorts(versions[..n]);
      InsertSorts(NewestFirst(versions[..n]), versions[n]);
      assert versions == versions[..n] + [versions[n]];
    }
  }

  /** The first `floor` of a package in that order. */
  function Newest(versions: seq<Version>, package: Package, floor: nat): seq<Version> {
    var sorted := NewestFirst(OfPackage(versions, package));
    if |sorted| <= floor then sorted else sorted[..floor]
  }

  function RecentRefs(versions: seq<Version>, floor: nat): set<Ref> {
    set v | v in versions && v in Newest(versions, PackageOf(v), floor) :: RefOf(v)
  }

  // -------------------------------------------------------- one version

  datatype Reason =
    | ActiveManifest | RollbackManifest | SemanticKeepTag | RecentVersionFloor | FutureDated
    | NonCleanupTag | MinimumAgeNotMet | UntaggedAgeEligible

  datatype Action = Protect | Retain | Candidate

  datatype Entry = Entry(version: Version, ageDays: int, action: Action, reasons: set<Reason>)

  predicate Named(targets: seq<Target>, ref: Ref) {
    exists i :: 0 <= i < |targets| && TargetRef(targets[i]) == ref
  }

  predicate SemanticKeep(tag: string) {
    tag == "prod-current" || tag == "prod-previous" || "rollback-" <= tag
  }

  function AgeDays(asOf: int, createdAt: int): int {
    (asOf - createdAt) / DAY
  }

  function Protections(v: Version, m: Manifest, recent: set<Ref>, age: int): set<Reason> {
    (if Named(m.active, RefOf(v)) then {ActiveManifest} else {})
    + (if Named(m.rollback, RefOf(v)) then {RollbackManifest} else {})
    + (if exists i :: 0 <= i < |v.tags| && SemanticKeep(v.tags[i]) then {SemanticKeepTag} else {})
    + (if RefOf(v) in recent then {RecentVersionFloor} else {})
    + (if age < 0 then {FutureDated} else {})
  }

  function EntryOf(v: Version, m: Manifest, recent: set<Ref>, age: int): Entry {
    var protections := Protections(v, m, recent, age);
    if protections != {} then Entry(v, age, Protect, protections)
    else if v.tags != [] then Entry(v, age, Retain, {NonCleanupTag})
    else if age < m.minAgeDays then Entry(v, age, Retain, {MinimumAgeNotMet})
    else Entry(v, age, Candidate, {UntaggedAgeEligible})
  }

  // ---------------------------------------------------------- blockers

  datatype Blocker =
    | InventoryIncomplete | RestoreInFuture | RestoreTooOld
    | ActiveMissing(name: string) | DigestMismatch(name: string) | RollbackMissing(name: string)
    | AbsentFromInventory(name: string)

  predicate IsActive(r: Resource) {
    r.kind == "cloud_run_service" || r.kind == "cloud_run_job"
  }

  function ByName(targets: seq<Target>): map<string, Target> {
    if targets == [] then map[]
    else ByName(targets[..|targets| - 1])[targets[|targets| - 1].name := targets[|targets| - 1]]
  }

  function ResourceBlockers(r: Resource, m: Manifest): seq<Blocker> {
    if !IsActive(r) then []
    else
      (if r.name !in ByName(m.active) then [ActiveMissing(r.name)]
       else if ByName(m.active)[r.name].digest != r.digest then [DigestMismatch(r.name)] else [])
      + if r.name !in ByName(m.rollback) then [RollbackMissing(r.name)] else []
  }

  function AllResourceBlockers(resources: seq<Resource>, m: Manifest): seq<Blocker> {
    if resources == [] then []
    else AllResourceBlockers(resources[..|resources| - 1], m) + ResourceBlockers(resources[|resources| - 1], m)
  }

  predicate Present(versions: seq<Version>, ref: Ref) {
    exists i :: 0 <= i < |versions| && RefOf(versions[i]) == ref
  }

  function AbsentTargets(targets: seq<Target>, versions: seq<Version>): seq<Blocker> {
    if targets == [] then []
    else
      var last := targets[|targets| - 1];
      AbsentTargets(targets[..|targets| - 1], versions)
      + if Present(versions, TargetRef(last)) then [] else [AbsentFromInventory(last.name)]
  }

  function Blockers(inv: Inventory, m: Manifest, asOf: int): seq<Blocker> {
    (if !inv.complete then [InventoryIncomplete] else [])
    + (if asOf < m.restoreVerifiedAt then [RestoreInFuture] else [])
    + (if asOf - m.restoreVerifiedAt > m.retentionDays * DAY then [RestoreTooOld] else [])
    + AllResourceBlockers(inv.resources, m)
    + AbsentTargets(m.active, inv.versions) + AbsentTargets(m.rollback, inv.versions)
  }

  datatype Plan = Plan(complete: bool, blockers: seq<Blocker>, entries: seq<Entry>)

  function Entries(inv: Inventory, m: Manifest, asOf: int, instant: string -> int): (entries: seq<Entry>)
    ensures |entries| == |inv.versions|
  {
    seq(|inv.versions|, i requires 0 <= i < |inv.versions| =>
      EntryOf(inv.versions[i], m, RecentRefs(inv.versions, m.floor), AgeDays(asOf, instant(inv.versions[i].createdAt))))
  }

  /** The plan for a validated inventory and manifest; `instant` parses a creation text. */
  function PlanOf(inv: Inventory, m: Manifest, asOf: int, instant: string -> int): Plan {
    Plan(Blockers(inv, m, asOf) == [], Blockers(inv, m, asOf), Entries(inv, m, asOf, instant))
  }

  // ------------------------------------------------------------ theorems

  /** A version is a candidate exactly when nothing names it, it carries no tag, it is old enough and it is not recent. */
  lemma CandidateExactly(inv: Inventory, m: Manifest, asOf: int, instant: string -> int, i: nat)
    requires Validated(inv, m) && i < |inv.versions|
    ensures var v, entry := inv.versions[i], PlanOf(inv, m, asOf, instant).entries[i];
            && entry.version == v
            && (entry.action == Candidate <==>
                  && v.tags == [] && !Named(m.active, RefOf(v)) && !Named(m.rollback, RefOf(v))
                  && asOf - instant(v.createdAt) >= m.minAgeDays * DAY && RefOf(v) !in RecentRefs(inv.versions, m.floor))
  {
    hide RecentRefs, Named, Blockers;
    var v := inv.versions[i];
    var age := AgeDays(asOf, instant(v.createdAt));
    assert age >= m.minAgeDays <==> asOf - instant(v.createdAt) >= m.minAgeDays * DAY;
    var protections := Protections(v, m, RecentRefs(inv.versions, m.floor), age);
    assert Named(m.active, RefOf(v)) ==> ActiveManifest in protections;
    assert Named(m.rollback, RefOf(v)) ==> RollbackManifest in protections;
    assert RefOf(v) in RecentRefs(inv.versions, m.floor) ==> RecentVersionFloor in protections;
    assert age < 0 ==> FutureDated in protections;
  }

  lemma {:induction false} OfPackageMembers(versions: seq<Version>, package: Package, v: Version)
    ensures v in OfPackage(versions, package) <==> v in versions && PackageOf(v) == package
  {
    if versions != [] { OfPackageMembers(versions[..|versions| - 1], package, v); }
  }

  lemma {:induction false} OfPackageDistinct(versions: seq<Version>, package: Package)
    requires DistinctVersions(versions)
    ensures forall i, j :: 0 <= i < j < |OfPackage(versions, package)| ==>
              OfPackage(versions, package)[i] != OfPackage(versions, package)[j]
  {
    if versions != [] {
      var front, last := versions[..|versions| - 1], versions[|versions| - 1];
      OfPackageDistinct(front, package);
      forall i | 0 <= i < |OfPackage(front, package)| ensures OfPackage(front, package)[i] != last {
        OfPackageMembers(front, package, OfPackage(front, package)[i]);
      }
    }
  }

  lemma CountOfMore(vs: seq<Version>, v: Version)
    requires vs != []
    ensures multiset(vs)[v] == multiset(vs[..|vs| - 1])[v] + if v == vs[|vs| - 1] then 1 else 0
  {
    assert vs == vs[..|vs| - 1] + [vs[|vs| - 1]];
  }

  lemma {:induction false} DistinctByCount(vs: seq<Version>)
    requires forall v :: multiset(vs)[v] <= 1
    ensures forall i, j :: 0 <= i < j < |vs| ==> vs[i] != vs[j]
  {
    if vs != [] {
      var n := |vs| - 1;
      forall v ensures multiset(vs[..n])[v] <= 1 { CountOfMore(vs, v); }
      DistinctByCount(vs[..n]);
      CountOfMore(vs, vs[n]);
      assert vs[n] !in multiset(vs[..n]);
      assert forall i :: 0 <= i < n ==> vs[..n][i] == vs[i] && vs[i] in multiset(vs[..n]);
    }
  }

  lemma {:induction false} CountByDistinct(vs: seq<Version>)
    requires forall i, j :: 0 <= i < j < |vs| ==> vs[i] != vs[j]
    ensures forall v :: multiset(vs)[v] <= 1
  {
    if vs != [] {
      var n := |vs| - 1;
      CountByDistinct(vs[..n]);
      assert vs[n] !in multiset(vs[..n]);
      forall v ensures multiset(vs)[v] <= 1 { CountOfMore(vs, v); }
    }
  }

  ghost predicate AllDifferent(vs: seq<Version>) {
    forall i, j :: 0 <= i < j < |vs| ==> vs[i] != vs[j]
  }

  /** The sorted package is a permutation of it without repeats. */
  lemma SortedPackage(versions: seq<Version>, package: Package)
    requires DistinctVersions(versions)
    ensures var group, sorted := OfPackage(versions, package), NewestFirst(OfPackage(versions, package));
            && Descending(sorted) && AllDifferent(sorted) && |sorted| == |group|
            && forall v :: v in sorted <==> v in group
  {
    var group := OfPackage(versions, package);
    var sorted := NewestFirst(group);
    NewestFirstSorts(group);
    OfPackageDistinct(versions, package);
    hide OfPackage, NewestFirst, DistinctVersions, Descending;
    CountByDistinct(group);
    DistinctByCount(sorted);
    assert |sorted| == |group| by { assert |multiset(sorted)| == |multiset(group)|; }
    forall v ensures v in sorted <==> v in group { assert v in multiset(sorted) <==> v in multiset(group); }
  }

  lemma NewestMeans(versions: seq<Version>, package: Package, floor: nat)
    requires DistinctVersions(versions)
    ensures var group, kept := OfPackage(versions, package), Newest(versions, package, floor);
            && |kept| == (if |group| <= floor then |group| else floor) && AllDifferent(kept)
            && (forall v :: v in kept ==> v in group)
            && forall v, w :: v in kept && w in group && w !in kept ==> !Less(v.createdAt, w.createdAt)
  {
    var group, kept := OfPackage(versions, package), Newest(versions, package, floor);
    var sorted := NewestFirst(group);
    SortedPackage(versions, package);
    assert forall j :: 0 <= j < |kept| ==> kept[j] == sorted[j];
    hide OfPackage, NewestFirst, DistinctVersions, Less;
    forall v | v in kept ensures v in group { assert v in sorted; }
    forall v, w | v in kept && w in group && w !in kept ensures !Less(v.createdAt, w.createdAt) {
      assert w in sorted;
      var i :| 0 <= i < |kept| && kept[i] == v;
      var j :| 0 <= j < |sorted| && sorted[j] == w;
      DescendingAt(sorted, kept, i, j);
    }
  }

  lemma DescendingAt(sorted: seq<Version>, kept: seq<Version>, i: nat, j: nat)
    requires Descending(sorted) && kept <= sorted && i < |kept| && j < |sorted| && sorted[j] !in kept
    ensures i < j && !Less(kept[i].createdAt, sorted[j].createdAt)
  {
    hide Less;
    assert j >= |kept|;
  }

  /**
   Every package keeps at least the smaller of the floor and its size: the versions returned are
   that many, distinct, not candidates, and no other version of the package sorts newer.
   */
  lemma FloorIsKept(inv: Inventory, m: Manifest, asOf: int, instant: string -> int,
      package: Package) returns (kept: seq<Version>)
    requires Validated(inv, m)
    ensures var size := |OfPackage(inv.versions, package)|; |kept| == if size <= m.floor then size else m.floor
    ensures AllDifferent(kept)
    ensures forall v :: v in kept ==> v in inv.versions && PackageOf(v) == package
    ensures forall v, w :: v in kept && w in inv.versions && PackageOf(w) == package && w !in kept ==>
              !Less(v.createdAt, w.createdAt)
    ensures forall i :: 0 <= i < |inv.versions| && inv.versions[i] in kept ==>
              PlanOf(inv, m, asOf, instant).entries[i].action == Protect
  {
    kept := Newest(inv.versions, package, m.floor);
    NewestMeans(inv.versions, package, m.floor);
    hide OfPackage, Newest, DistinctVersions, Blockers, Named;
    forall v ensures v in OfPackage(inv.versions, package) <==> v in inv.versions && PackageOf(v) == package {
      OfPackageMembers(inv.versions, package, v);
    }
    forall i | 0 <= i < |inv.versions| && inv.versions[i] in kept
      ensures PlanOf(inv, m, asOf, instant).entries[i].action == Protect
    {
      var v := inv.versions[i];
      assert RefOf(v) in RecentRefs(inv.versions, m.floor);
      assert RecentVersionFloor in Protections(v, m, RecentRefs(inv.versions, m.floor), AgeDays(asOf, instant(v.createdAt)));
    }
  }

  lemma {:induction false} ByNameMeans(targets: seq<Target>, name: string)
    ensures name in ByName(targets) ==>
              ByName(targets)[name] in targets && ByName(targets)[name].name == name
    ensures name !in ByName(targets) ==> forall i :: 0 <= i < |targets| ==> targets[i].name != name
  {
    if targets != [] { ByNameMeans(targets[..|targets| - 1], name); }
  }

  lemma {:induction false} NoAbsentTarget(targets: seq<Target>, versions: seq<Version>, t: Target)
    requires AbsentTargets(targets, versions) == [] && t in targets
    ensures Present(versions, TargetRef(t))
  {
    hide Present;
    var n := |targets| - 1;
    if t != targets[n] { NoAbsentTarget(targets[..n], versions, t); }
  }

  lemma {:induction false} NoResourceBlocked(resources: seq<Resource>, m: Manifest, r: Resource)
    requires AllResourceBlockers(resources, m) == [] && r in resources
    ensures ResourceBlockers(r, m) == []
  {
    hide ResourceBlockers;
    var n := |resources| - 1;
    if r != resources[n] { NoResourceBlocked(resources[..n], m, r); }
  }

  lemma NamedIsProtected(inv: Inventory, m: Manifest, asOf: int, instant: string -> int, t: Target)
    requires t in m.active || t in m.rollback
    ensures forall i :: 0 <= i < |inv.versions| && RefOf(inv.versions[i]) == TargetRef(t) ==>
              PlanOf(inv, m, asOf, instant).entries[i].action == Protect
  {
    hide Blockers, RecentRefs;
    var ref := TargetRef(t);
    assert Named(m.active, ref) || Named(m.rollback, ref);
    hide Named;
    forall i | 0 <= i < |inv.versions| && RefOf(inv.versions[i]) == ref
      ensures PlanOf(inv, m, asOf, instant).entries[i].action == Protect
    {
      var v := inv.versions[i];
      var protections := Protections(v, m, RecentRefs(inv.versions, m.floor), AgeDays(asOf, instant(v.createdAt)));
      assert ActiveManifest in protections || RollbackManifest in protections;
    }
  }

  /**
   In a complete plan every running compute resource runs the digest its manifest target names, and
   that target and its rollback are in the inventory with every version of theirs protected.
   */
  lemma RunningImagesAreProtected(inv: Inventory, m: Manifest, asOf: int, instant: string -> int, r: Resource)
    returns (running: Target, rollback: Target)
    requires Validated(inv, m) && PlanOf(inv, m, asOf, instant).complete && r in inv.resources && IsActive(r)
    ensures running in m.active && running.name == r.name && running.digest == r.digest
    ensures rollback in m.rollback && rollback.name == r.name
    ensures Present(inv.versions, TargetRef(running)) && Present(inv.versions, TargetRef(rollback))
    ensures forall i :: 0 <= i < |inv.versions| && RefOf(inv.versions[i]) in {TargetRef(running), TargetRef(rollback)} ==>
              PlanOf(inv, m, asOf, instant).entries[i].action == Protect
  {
    NoBlockers(inv, m, asOf);
    NoResourceBlocked(inv.resources, m, r);
    ByNameMeans(m.active, r.name);
    ByNameMeans(m.rollback, r.name);
    hide Blockers, Present, PlanOf, ByName;
    running, rollback := ByName(m.active)[r.name], ByName(m.rollback)[r.name];
    NoAbsentTarget(m.active, inv.versions, running);
    NoAbsentTarget(m.rollback, inv.versions, rollback);
    NamedIsProtected(inv, m, asOf, instant, running);
    NamedIsProtected(inv, m, asOf, instant, rollback);
  }

  lemma NoBlockers(inv: Inventory, m: Manifest, asOf: int)
    requires Blockers(inv, m, asOf) == []
    ensures inv.complete && m.restoreVerifiedAt <= asOf <= m.restoreVerifiedAt + m.retentionDays * DAY
    ensures AllResourceBlockers(inv.resources, m) == []
    ensures AbsentTargets(m.active, inv.versions) == [] && AbsentTargets(m.rollback, inv.versions) == []
  {
  }

  // ------------------------------------------------- text order and time

  lemma {:induction false} LessTotal(a: string, b: string)
    requires a != b
    ensures Less(a, b) || Less(b, a)
  {
    if a != "" && b != "" && a[0] == b[0] {
      assert a == [a[0]] + a[1..] && b == [b[0]] + b[1..];
      LessTotal(a[1..], b[1..]);
    }
  }

  /** The versions kept for recency are the latest in time. */
  ghost predicate Chronological(versions: seq<Version>, package: Package, floor: nat, instant: string -> int) {
    forall v, w :: v in Newest(versions, package, floor) && w in OfPackage(versions, package) && w !in Newest(versions, package, floor)
                   ==> instant(w.createdAt) <= instant(v.createdAt)
  }

  /** Within a package a later instant has the greater text, as when all texts share one offset and precision. */
  ghost predicate TextsAgree(versions: seq<Version>, package: Package, instant: string -> int) {
    forall v, w :: (v in OfPackage(versions, package) && w in OfPackage(versions, package)
                    && instant(v.createdAt) < instant(w.createdAt)) ==> Less(v.createdAt, w.createdAt)
  }

  lemma KeptInTime(versions: seq<Version>, package: Package, floor: nat, instant: string -> int)
    requires DistinctVersions(versions) && TextsAgree(versions, package, instant)
    ensures Chronological(versions, package, floor, instant)
  {
    NewestMeans(versions, package, floor);
    hide OfPackage, Newest, Less, DistinctVersions;
  }

  lemma LateButDropped(versions: seq<Version>, package: Package, instant: string -> int, v: Version,
      w: Version) returns (floor: nat)
    requires DistinctVersions(versions) && v in OfPackage(versions, package) && w in OfPackage(versions, package)
    requires instant(v.createdAt) < instant(w.createdAt) && !Less(v.createdAt, w.createdAt)
    ensures floor >= 1 && !Chronological(versions, package, floor, instant)
  {
    var sorted := NewestFirst(OfPackage(versions, package));
    SortedPackage(versions, package);
    LessTotal(v.createdAt, w.createdAt);
    hide NewestFirst, Less, DistinctVersions;
    var i :| 0 <= i < |sorted| && sorted[i] == v;
    var j :| 0 <= j < |sorted| && sorted[j] == w;
    floor := i + 1;
    CutBetween(sorted, i, j);
    assert Newest(versions, package, floor) == sorted[..floor];
    hide Newest, OfPackage, Descending, AllDifferent;
    assert v in sorted[..floor] && w !in sorted[..floor];
  }

  lemma CutBetween(sorted: seq<Version>, i: nat, j: nat)
    requires Descending(sorted) && AllDifferent(sorted) && i < |sorted| && j < |sorted|
    requires Less(sorted[j].createdAt, sorted[i].createdAt)
    ensures sorted[i] in sorted[..i + 1] && sorted[j] !in sorted[..i + 1]
  {
    LessAsymmetric(sorted[j].createdAt, sorted[i].createdAt);
    hide Less;
    var kept := sorted[..i + 1];
    assert kept[i] == sorted[i];
    forall k | 0 <= k < |kept| ensures kept[k] != sorted[j] {
      assert kept[k] == sorted[k];
    }
  }

  /** The recency floor keeps the latest in time, whatever the floor, exactly when text order agrees with time. */
  lemma ChronologicalExactly(versions: seq<Version>, package: Package, instant: string -> int)
    requires DistinctVersions(versions)
    ensures (forall floor: nat :: floor >= 1 ==> Chronological(versions, package, floor, instant)) <==>
            TextsAgree(versions, package, instant)
  {
    hide Chronological, OfPackage, Less, DistinctVersions;
    if TextsAgree(versions, package, instant) {
      forall floor: nat | floor >= 1 ensures Chronological(versions, package, floor, instant) {
        KeptInTime(versions, package, floor, instant);
      }
    } else {
      var v, w :| v in OfPackage(versions, package) && w in OfPackage(versions, package)
                  && instant(v.createdAt) < instant(w.createdAt) && !Less(v.createdAt, w.createdAt);
      var floor := LateButDropped(versions, package, instant, v, w);
    }
  }

  // ------------------------------------------------- two texts that disagree

  /** A whole-second RFC 3339 text, with `Z` or a numeric offset. */
  predicate Rfc3339(text: string) {
    && |text| >= 20 && text[4] == '-' && text[7] == '-' && text[10] == 'T' && text[13] == ':' && text[16] == ':'
    && TwoDigits(text, 0) && TwoDigits(text, 2) && TwoDigits(text, 5) && TwoDigits(text, 8)
    && TwoDigits(text, 11) && TwoDigits(text, 14) && TwoDigits(text, 17)
    && IsDate(Number(text, 0, 4), Number(text, 5, 7), Number(text, 8, 10))
    && Number(text, 11, 13) < 24 && Number(text, 14, 16) < 60 && Number(text, 17, 19) < 60
    && ((|text| == 20 && text[19] == 'Z')
        || (&& |text| == 25 && (text[19] == '+' || text[19] == '-') && text[22] == ':' && TwoDigits(text, 20) && TwoDigits(text, 23)
            && Number(text, 20, 22) < 24 && Number(text, 23, 25) < 60))
  }

  predicate TwoDigits(text: string, at: nat)
    requires at + 2 <= |text|
  {
    '0' <= text[at] <= '9' && '0' <= text[at + 1] <= '9'
  }

  function Number(text: string, from: nat, to: nat): int
    requires from <= to <= |text|
  {
    if from == to then 0 else 10 * Number(text, from, to - 1) + text[to - 1] as int - '0' as int
  }

  /** Days of the year before the month, the thirteenth being the whole year. */
  function DaysBeforeMonth(year: int, month: int): int
    requires 1 <= month <= 13
  {
    var leap := if month > 2 && year % 4 == 0 && (year % 100 != 0 || year % 400 == 0) then 1 else 0;
    leap + [0, 31, 59, 90, 120, 151, 181, 212, 243, 273, 304, 334, 365][month - 1]
  }

  predicate IsDate(year: int, month: int, day: int) {
    1 <= year && 1 <= month <= 12 && 1 <= day <= DaysBeforeMonth(year, month + 1) - DaysBeforeMonth(year, month)
  }

  /** Days since the first day of year one in the proleptic Gregorian calendar. */
  function DayNumber(year: int, month: int, day: int): int
    requires IsDate(year, month, day)
  {
    var past := year - 1;
    past * 365 + past / 4 - past / 100 + past / 400 + DaysBeforeMonth(year, month) + day - 1
  }

  function SecondOfDay(text: string): int
    requires |text| >= 20
  {
    3600 * Number(text, 11, 13) + 60 * Number(text, 14, 16) + Number(text, 17, 19)
  }

  function Offset(text: string): int
    requires Rfc3339(text)
  {
    if |text| == 20 then 0
    else (if text[19] == '+' then 60 else -60) * (60 * Number(text, 20, 22) + Number(text, 23, 25))
  }

  /** The instant such a text names, in microseconds. */
  function InstantOf(text: string): int
    requires Rfc3339(text)
  {
    1_000_000 * (86_400 * DayNumber(Number(text, 0, 4), Number(text, 5, 7), Number(text, 8, 10))
                 + SecondOfDay(text) - Offset(text))
  }

  /** A parser that reads every such text as RFC 3339 has it. */
  ghost predicate ReadsRfc3339(instant: string -> int) {
    forall text :: Rfc3339(text) ==> instant(text) == InstantOf(text)
  }

  const SEOUL := "2026-01-01T09:00:00+09:00"
  const UTC := "2026-01-01T08:30:00Z"

  lemma {:induction false} LessAt(a: string, b: string, k: nat)
    requires k < |a| && k < |b| && a[..k] == b[..k] && a[k] < b[k]
    ensures Less(a, b) && !Less(b, a)
  {
    if k > 0 {
      assert a[0] == a[..k][0] == b[..k][0] == b[0];
      assert a[1..][..k - 1] == a[..k][1..] == b[1..][..k - 1];
      LessAt(a[1..], b[1..], k - 1);
    }
  }

  lemma ReadSeoul()
    ensures Rfc3339(SEOUL) && |SEOUL| == 25 && SecondOfDay(SEOUL) == Offset(SEOUL)
    ensures Number(SEOUL, 5, 7) == 1 && Number(SEOUL, 8, 10) == 1
  {
    hide Number, IsDate;
    FirstOfJanuary(SEOUL);
    NumberOfTwo(SEOUL, 11);
    NumberOfTwo(SEOUL, 14);
    NumberOfTwo(SEOUL, 17);
    NumberOfTwo(SEOUL, 20);
    NumberOfTwo(SEOUL, 23);
  }

  lemma ReadUtc()
    ensures Rfc3339(UTC) && |UTC| == 20 && SecondOfDay(UTC) == 30_600 && Offset(UTC) == 0
    ensures Number(UTC, 5, 7) == 1 && Number(UTC, 8, 10) == 1
  {
    hide Number, IsDate;
    FirstOfJanuary(UTC);
    NumberOfTwo(UTC, 11);
    NumberOfTwo(UTC, 14);
    NumberOfTwo(UTC, 17);
  }

  lemma FirstOfJanuary(text: string)
    requires |text| >= 10 && text[..10] == "2026-01-01"
    ensures Number(text, 5, 7) == 1 && Number(text, 8, 10) == 1 && IsDate(Number(text, 0, 4), Number(text, 5, 7), Number(text, 8, 10))
  {
    assert forall i :: 0 <= i < 10 ==> text[i] == text[..10][i];
    NumberOfTwo(text, 0);
    NumberOfTwo(text, 5);
    NumberOfTwo(text, 8);
    assert Number(text, 0, 3) == 10 * Number(text, 0, 2) + text[2] as int - '0' as int;
    assert Number(text, 0, 4) == 10 * Number(text, 0, 3) + text[3] as int - '0' as int;
  }

  lemma NumberOfTwo(text: string, from: nat)
    requires from + 2 <= |text|
    ensures Number(text, from, from + 2) == 10 * (text[from] as int - '0' as int) + text[from + 1] as int - '0' as int
  {
    assert Number(text, from, from) == 0;
    assert Number(text, from, from + 1) == text[from] as int - '0' as int;
  }

  /** Half past eight in UTC is later than nine in Seoul, and sorts before it. */
  lemma EarlierSortsLater()
    ensures Rfc3339(SEOUL) && Rfc3339(UTC)
    ensures InstantOf(UTC) - InstantOf(SEOUL) == 1_000_000 * 30_600
    ensures Less(UTC, SEOUL) && !Less(SEOUL, UTC)
  {
    hide Number, DayNumber, Less, Rfc3339, SecondOfDay, Offset;
    ReadSeoul();
    ReadUtc();
    SameNumber(SEOUL, UTC, 0, 4);
    LessAt(UTC, SEOUL, 12);
  }

  lemma {:induction false} SameNumber(a: string, b: string, from: nat, to: nat)
    requires from <= to <= |a| && to <= |b| && a[from..to] == b[from..to]
    ensures Number(a, from, to) == Number(b, from, to)
  {
    if from < to {
      assert a[from..to - 1] == a[from..to][..to - 1 - from] == b[from..to - 1];
      assert a[to - 1] == a[from..to][to - 1 - from] == b[to - 1];
      SameNumber(a, b, from, to - 1);
    }
  }

  /**
   Whenever of two creation texts the earlier does not sort below the later, there is a validated
   inventory and manifest without blockers whose recency floor keeps the earlier version of a
   package and leaves the later one a candidate for deletion.
   */
  lemma FloorPrefersText(instant: string -> int, a: string, b: string) returns (inv: Inventory, m: Manifest, asOf: int)
    requires instant(a) < instant(b) && !Less(a, b)
    ensures Validated(inv, m) && |inv.versions| == 3 && m.floor == 1
    ensures var earlier, later := inv.versions[1], inv.versions[2];
            && PackageOf(earlier) == PackageOf(later) && earlier.createdAt == a && later.createdAt == b
            && PlanOf(inv, m, asOf, instant).complete
            && PlanOf(inv, m, asOf, instant).entries[1].reasons == {RecentVersionFloor}
            && PlanOf(inv, m, asOf, instant).entries[2].action == Candidate
  {
    hide Less;
    var named := Version("docker", "base", "d0", [], a);
    var earlier, later := Version("docker", "app", "d1", [], a), Version("docker", "app", "d2", [], b);
    asOf := instant(b) + 2 * DAY;
    var target := Target("web", "docker", "d0");
    inv := Inventory(true, [], [named, earlier, later]);
    m := Manifest([target], [target], 1, 1, 30, asOf);
    RecentOfTwo(named, earlier, later);
    hide RecentRefs;
    assert RefOf(inv.versions[0]) == TargetRef(target);
    assert Present(inv.versions, TargetRef(target));
    NoneAbsent(m.active, inv.versions);
    assert !Named(m.active, RefOf(earlier)) && !Named(m.rollback, RefOf(earlier));
    CandidateExactly(inv, m, asOf, instant, 2);
    var age := AgeDays(asOf, instant(a));
    assert age >= 0;
    assert Protections(earlier, m, RecentRefs(inv.versions, 1), age) == {RecentVersionFloor};
    assert Blockers(inv, m, asOf) == [];
  }

  /** It happens with texts that validation accepts, however else the parser reads times. */
  lemma LaterVersionIsCandidate(instant: string -> int) returns (inv: Inventory, m: Manifest, asOf: int)
    requires ReadsRfc3339(instant)
    ensures Validated(inv, m) && |inv.versions| == 3 && m.floor == 1
    ensures var earlier, later := inv.versions[1], inv.versions[2];
            && PackageOf(earlier) == PackageOf(later) && earlier.createdAt == SEOUL && later.createdAt == UTC
            && instant(earlier.createdAt) < instant(later.createdAt)
            && PlanOf(inv, m, asOf, instant).entries[1].reasons == {RecentVersionFloor}
            && PlanOf(inv, m, asOf, instant).entries[2].action == Candidate
  {
    hide Less, Rfc3339, InstantOf, PlanOf, Validated;
    EarlierSortsLater();
    inv, m, asOf := FloorPrefersText(instant, SEOUL, UTC);
  }

  lemma {:induction false} NoneAbsent(targets: seq<Target>, versions: seq<Version>)
    requires forall t :: t in targets ==> Present(versions, TargetRef(t))
    ensures AbsentTargets(targets, versions) == []
  {
    hide Present;
    if targets != [] { NoneAbsent(targets[..|targets| - 1], versions); }
  }

  lemma RecentOfTwo(named: Version, earlier: Version, later: Version)
    requires PackageOf(earlier) == PackageOf(later) != PackageOf(named) && !Less(earlier.createdAt, later.createdAt)
    requires earlier != later && RefOf(later) != RefOf(earlier) && RefOf(later) != RefOf(named)
    ensures RefOf(earlier) in RecentRefs([named, earlier, later], 1) && RefOf(later) !in RecentRefs([named, earlier, later], 1)
  {
    hide Less;
    var versions, package := [named, earlier, later], PackageOf(earlier);
    OfPackageMore([], named, package);
    OfPackageMore([named], earlier, package);
    OfPackageMore([named, earlier], later, package);
    assert [] + [named] == [named] && [named] + [earlier] == [named, earlier] && [named, earlier] + [later] == versions;
    assert OfPackage(versions, package) == [earlier, later];
    TwoSorted(earlier, later);
    assert Newest(versions, package, 1) == [earlier];
    assert earlier in versions;
  }

  lemma OfPackageMore(versions: seq<Version>, v: Version, package: Package)
    ensures OfPackage(versions + [v], package) == OfPackage(versions, package) + if PackageOf(v) == package then [v] else []
  {
    assert (versions + [v])[..|versions|] == versions;
  }

  lemma TwoSorted(first: Version, second: Version)
    requires !Less(first.createdAt, second.createdAt)
    ensures NewestFirst([first, second]) == [first, second]
  {
    hide Less;
    var both := [first, second];
    assert both[..1] == [first] && [first][..0] == [];
    assert NewestFirst([first][..0]) == [];
    assert NewestFirst([first]) == Insert([], first) == [first];
    assert Insert([first], second) == [first] + Insert([first][1..], second);
  }

  // ------------------------------------------------------------ the loops

  method ByNameLoop(targets: seq<Target>) returns (byName: map<string, Target>)
    ensures byName == ByName(targets)
  {
    byName := map[];
    var k := 0;
    while k < |targets|
      invariant 0 <= k <= |targets| && byName == ByName(targets[..k])
    {
      assert targets[..k + 1][..k] == targets[..k];
      byName := byName[targets[k].name := targets[k]];
      k := k + 1;
    }
    assert targets[..k] == targets;
  }

  method CheckResource(r: Resource, m: Manifest, active: map<string, Target>, rollback: map<string, Target>)
    returns (blockers: seq<Blocker>)
    requires active == ByName(m.active) && rollback == ByName(m.rollback)
    ensures blockers == ResourceBlockers(r, m)
  {
    hide ByName;
    blockers := [];
    if IsActive(r) {
      if r.name !in active {
        blockers := [ActiveMissing(r.name)];
      } else if active[r.name].digest != r.digest {
        blockers := [DigestMismatch(r.name)];
      }
      if r.name !in rollback {
        blockers := blockers + [RollbackMissing(r.name)];
      }
    }
  }

  method CheckResources(resources: seq<Resource>, m: Manifest) returns (blockers: seq<Blocker>)
    ensures blockers == AllResourceBlockers(resources, m)
  {
    var active := ByNameLoop(m.active);
    var rollback := ByNameLoop(m.rollback);
    hide ByName, ResourceBlockers;
    blockers := [];
    var k := 0;
    while k < |resources|
      invariant 0 <= k <= |resources| && blockers == AllResourceBlockers(resources[..k], m)
    {
      assert resources[..k + 1][..k] == resources[..k];
      var found := CheckResource(resources[k], m, active, rollback);
      blockers := blockers + found;
      k := k + 1;
    }
    assert resources[..k] == resources;
  }

  method CheckTargets(targets: seq<Target>, known: set<Ref>, versions: seq<Version>) returns (blockers: seq<Blocker>)
    requires forall ref :: ref in known <==> Present(versions, ref)
    ensures blockers == AbsentTargets(targets, versions)
  {
    hide Present;
    blockers := [];
    var k := 0;
    while k < |targets|
      invariant 0 <= k <= |targets| && blockers == AbsentTargets(targets[..k], versions)
    {
      assert targets[..k + 1][..k] == targets[..k];
      blockers := blockers + if TargetRef(targets[k]) in known then [] else [AbsentFromInventory(targets[k].name)];
      k := k + 1;
    }
    assert targets[..k] == targets;
  }

  /** The two dictionaries the entries are read from: versions by package, then the recent keys. */
  method GroupByPackage(versions: seq<Version>) returns (byPackage: map<Package, seq<Version>>)
    ensures forall p :: p in byPackage <==> OfPackage(versions, p) != []
    ensures forall p :: p in byPackage ==> byPackage[p] == OfPackage(versions, p)
  {
    byPackage := map[];
    var k := 0;
    while k < |versions|
      invariant 0 <= k <= |versions|
      invariant forall p :: p in byPackage <==> OfPackage(versions[..k], p) != []
      invariant forall p :: p in byPackage ==> byPackage[p] == OfPackage(versions[..k], p)
    {
      hide OfPackage;
      forall p ensures OfPackage(versions[..k + 1], p) ==
                       OfPackage(versions[..k], p) + if PackageOf(versions[k]) == p then [versions[k]] else []
      {
        OfPackageStep(versions, k, p);
      }
      var package := PackageOf(versions[k]);
      byPackage := byPackage[package := (if package in byPackage then byPackage[package] else []) + [versions[k]]];
      k := k + 1;
    }
    assert versions[..k] == versions;
  }

  lemma OfPackageStep(versions: seq<Version>, k: nat, package: Package)
    requires k < |versions|
    ensures OfPackage(versions[..k + 1], package) ==
            OfPackage(versions[..k], package) + if PackageOf(versions[k]) == package then [versions[k]] else []
  {
    assert versions[..k + 1][..k] == versions[..k];
  }

  method SortNewestFirst(versions: seq<Version>) returns (sorted: seq<Version>)
    ensures sorted == NewestFirst(versions)
  {
    hide Insert;
    sorted := [];
    var k := 0;
    while k < |versions|
      invariant 0 <= k <= |versions| && sorted == NewestFirst(versions[..k])
    {
      assert versions[..k + 1][..k] == versions[..k];
      sorted := Insert(sorted, versions[k]);
      k := k + 1;
    }
    assert versions[..k] == versions;
  }

  method CollectRecent(versions: seq<Version>, floor: nat) returns (recent: set<Ref>)
    ensures recent == RecentRefs(versions, floor)
  {
    hide OfPackage, NewestFirst;
    var byPackage := GroupByPackage(versions);
    recent := {};
    var left := byPackage.Keys;
    while left != {}
      invariant left <= byPackage.Keys
      invariant forall ref :: ref in recent <==>
                  exists p, v :: p in byPackage && p !in left && v in Newest(versions, p, floor) && RefOf(v) == ref
    {
      var package :| package in left;
      var sorted := SortNewestFirst(byPackage[package]);
      var newest := if |sorted| <= floor then sorted else sorted[..floor];
      recent := recent + set v | v in newest :: RefOf(v);
      left := left - {package};
    }
    RecentByPackage(versions, floor, byPackage.Keys, recent);
  }

  lemma NewestMembers(versions: seq<Version>, package: Package, floor: nat, v: Version)
    requires v in Newest(versions, package, floor)
    ensures v in versions && PackageOf(v) == package
  {
    NewestFirstSorts(OfPackage(versions, package));
    OfPackageMembers(versions, package, v);
    hide OfPackage, NewestFirst;
    assert v in multiset(NewestFirst(OfPackage(versions, package)));
  }

  lemma RecentByPackage(versions: seq<Version>, floor: nat, packages: set<Package>, recent: set<Ref>)
    requires forall p :: p in packages <==> OfPackage(versions, p) != []
    requires forall ref :: ref in recent <==> exists p, v :: p in packages && v in Newest(versions, p, floor) && RefOf(v) == ref
    ensures recent == RecentRefs(versions, floor)
  {
    hide Newest, OfPackage;
    forall ref ensures ref in recent <==> ref in RecentRefs(versions, floor) {
      if ref in recent {
        var p, v :| p in packages && v in Newest(versions, p, floor) && RefOf(v) == ref;
        NewestMembers(versions, p, floor, v);
      }
      if ref in RecentRefs(versions, floor) {
        var v :| v in versions && v in Newest(versions, PackageOf(v), floor) && RefOf(v) == ref;
        OfPackageMembers(versions, PackageOf(v), v);
        assert v in OfPackage(versions, PackageOf(v));
      }
    }
  }

  /** `plan_artifact_cleanup` on validated inputs. */
  method PlanArtifactCleanup(inv: Inventory, m: Manifest, asOf: int, instant: string -> int) returns (plan: Plan)
    requires Validated(inv, m)
    ensures plan == PlanOf(inv, m, asOf, instant)
  {
    hide AllResourceBlockers, AbsentTargets, RecentRefs, Protections, DistinctVersions, DistinctNames;
    var blockers: seq<Blocker> := [];
    blockers := blockers + if !inv.complete then [InventoryIncomplete] else [];
    blockers := blockers + if asOf < m.restoreVerifiedAt then [RestoreInFuture] else [];
    blockers := blockers + if asOf - m.restoreVerifiedAt > m.retentionDays * DAY then [RestoreTooOld] else [];
    var resources := CheckResources(inv.resources, m);
    var known := set v | v in inv.versions :: RefOf(v);
    forall ref ensures ref in known <==> Present(inv.versions, ref) {
      if Present(inv.versions, ref) {
        var i :| 0 <= i < |inv.versions| && RefOf(inv.versions[i]) == ref;
        assert inv.versions[i] in inv.versions;
      }
    }
    var active := CheckTargets(m.active, known, inv.versions);
    var rollback := CheckTargets(m.rollback, known, inv.versions);
    blockers := blockers + resources + active + rollback;
    assert blockers == Blockers(inv, m, asOf);
    hide Blockers, Present;
    var recent := CollectRecent(inv.versions, m.floor);
    var entries: seq<Entry> := [];
    var k := 0;
    while k < |inv.versions|
      invariant 0 <= k <= |inv.versions| == |Entries(inv, m, asOf, instant)|
      invariant entries == Entries(inv, m, asOf, instant)[..k]
    {
      var v := inv.versions[k];
      var age := AgeDays(asOf, instant(v.createdAt));
      var reasons := Protections(v, m, recent, age);
      var action := Protect;
      if reasons == {} {
        if v.tags != [] {
          action, reasons := Retain, {NonCleanupTag};
        } else if age < m.minAgeDays {
          action, reasons := Retain, {MinimumAgeNotMet};
        } else {
          action, reasons := Candidate, {UntaggedAgeEligible};
        }
      }
      entries := entries + [Entry(v, age, action, reasons)];
      k := k + 1;
    }
    plan := Plan(blockers == [], blockers, entries);
  }
}
