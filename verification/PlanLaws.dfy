/**
 What a cleanup plan says of each version and when it is complete, said of the inventory, the
 manifest and the clock alone.
 */
module PlanLaws {
  import opened CleanupPlan

  /** One of these targets has the version's repository and digest. */
  predicate NamedBy(targets: seq<Target>, v: Version) {
    exists i :: 0 <= i < |targets| && targets[i].repository == v.repository && targets[i].digest == v.digest
  }

  /** The version carries a tag that marks it as deployed or as a rollback. */
  predicate Marked(v: Version) {
    exists i :: 0 <= i < |v.tags| &&
      (v.tags[i] == "prod-current" || v.tags[i] == "prod-previous"
       || (|v.tags[i]| >= 9 && v.tags[i][..9] == "rollback-"))
  }

  /** Its repository and digest are those of one of the newest versions of a package. */
  predicate Recent(versions: seq<Version>, floor: nat, v: Version) {
    exists i :: 0 <= i < |versions| && versions[i].repository == v.repository && versions[i].digest == v.digest
                && versions[i] in Newest(versions, (versions[i].repository, versions[i].package), floor)
  }

  lemma MarkedIs(v: Version)
    ensures Marked(v) <==> exists i :: 0 <= i < |v.tags| && SemanticKeep(v.tags[i])
  {
    forall tag: string
      ensures SemanticKeep(tag) <==>
                tag == "prod-current" || tag == "prod-previous" || (|tag| >= 9 && tag[..9] == "rollback-")
    {
      PrefixIs("rollback-", tag);
    }
  }

  lemma PrefixIs(prefix: string, text: string)
    ensures prefix <= text <==> |text| >= |prefix| && text[..|prefix|] == prefix
  {
  }

  lemma NamedIs(targets: seq<Target>, v: Version)
    ensures Named(targets, RefOf(v)) <==> NamedBy(targets, v)
  {
  }

  lemma RecentIs(versions: seq<Version>, floor: nat, v: Version)
    ensures RefOf(v) in RecentRefs(versions, floor) <==> Recent(versions, floor, v)
  {
    hide Newest;
    if RefOf(v) in RecentRefs(versions, floor) {
      var u :| u in versions && u in Newest(versions, PackageOf(u), floor) && RefOf(u) == RefOf(v);
      var i :| 0 <= i < |versions| && versions[i] == u;
    }
    if i :| 0 <= i < |versions| && versions[i].repository == v.repository && versions[i].digest == v.digest
            && versions[i] in Newest(versions, (versions[i].repository, versions[i].package), floor) {
      assert versions[i] in versions && versions[i] in Newest(versions, PackageOf(versions[i]), floor);
    }
  }

  /** Each reason for protection, exactly when it applies. */
  ghost predicate ReasonsOf(entry: Entry, inv: Inventory, m: Manifest, asOf: int, created: int, v: Version) {
    && (ActiveManifest in entry.reasons <==> NamedBy(m.active, v))
    && (RollbackManifest in entry.reasons <==> NamedBy(m.rollback, v))
    && (SemanticKeepTag in entry.reasons <==> Marked(v))
    && (RecentVersionFloor in entry.reasons <==> Recent(inv.versions, m.floor, v))
    && (FutureDated in entry.reasons <==> asOf < created)
  }

  /** What is done with the version: protected for a reason, else kept for a tag or its age, else a candidate. */
  ghost predicate ActionOf(entry: Entry, inv: Inventory, m: Manifest, asOf: int, created: int, v: Version) {
    if NamedBy(m.active, v) || NamedBy(m.rollback, v) || Marked(v) || Recent(inv.versions, m.floor, v) || asOf < created then
      entry.action == Protect && entry.reasons <= {ActiveManifest, RollbackManifest, SemanticKeepTag, RecentVersionFloor, FutureDated}
    else if v.tags != [] then entry.action == Retain && entry.reasons == {NonCleanupTag}
    else if asOf - created < m.minAgeDays * 86_400_000_000 then entry.action == Retain && entry.reasons == {MinimumAgeNotMet}
    else entry.action == Candidate && entry.reasons == {UntaggedAgeEligible}
  }

  /** The whole entry of every version. */
  lemma EntryExactly(inv: Inventory, m: Manifest, asOf: int, instant: string -> int, i: nat)
    requires i < |inv.versions|
    ensures var entry, v := PlanOf(inv, m, asOf, instant).entries[i], inv.versions[i];
            && entry.version == v
            && entry.ageDays * 86_400_000_000 <= asOf - instant(v.createdAt) < (entry.ageDays + 1) * 86_400_000_000
            && ReasonsOf(entry, inv, m, asOf, instant(v.createdAt), v)
            && ActionOf(entry, inv, m, asOf, instant(v.createdAt), v)
  {
    hide Blockers, RecentRefs, Named, NamedBy, Marked, Recent, SemanticKeep;
    var v := inv.versions[i];
    NamedIs(m.active, v);
    NamedIs(m.rollback, v);
    MarkedIs(v);
    RecentIs(inv.versions, m.floor, v);
    AgeIs(asOf, instant(v.createdAt), m.minAgeDays);
    ReasonsHold(v, m, RecentRefs(inv.versions, m.floor), AgeDays(asOf, instant(v.createdAt)));
    hide AgeDays, EntryOf;
    assert PlanOf(inv, m, asOf, instant).entries[i] ==
           EntryOf(v, m, RecentRefs(inv.versions, m.floor), AgeDays(asOf, instant(v.createdAt)));
  }

  lemma AgeIs(asOf: int, created: int, days: nat)
    ensures var age := AgeDays(asOf, created);
            && age * 86_400_000_000 <= asOf - created < (age + 1) * 86_400_000_000
            && (age < 0 <==> asOf < created) && (age < days <==> asOf - created < days * 86_400_000_000)
  {
  }

  lemma ReasonsHold(v: Version, m: Manifest, recent: set<Ref>, age: int)
    ensures var entry := EntryOf(v, m, recent, age);
            var marked := exists i :: 0 <= i < |v.tags| && SemanticKeep(v.tags[i]);
            && entry.version == v && entry.ageDays == age
            && (ActiveManifest in entry.reasons <==> Named(m.active, RefOf(v)))
            && (RollbackManifest in entry.reasons <==> Named(m.rollback, RefOf(v)))
            && (SemanticKeepTag in entry.reasons <==> marked)
            && (RecentVersionFloor in entry.reasons <==> RefOf(v) in recent)
            && (FutureDated in entry.reasons <==> age < 0)
            && (if Named(m.active, RefOf(v)) || Named(m.rollback, RefOf(v)) || marked || RefOf(v) in recent || age < 0 then
                  entry.action == Protect
                  && entry.reasons <= {ActiveManifest, RollbackManifest, SemanticKeepTag, RecentVersionFloor, FutureDated}
                else if v.tags != [] then entry.action == Retain && entry.reasons == {NonCleanupTag}
                else if age < m.minAgeDays then entry.action == Retain && entry.reasons == {MinimumAgeNotMet}
                else entry.action == Candidate && entry.reasons == {UntaggedAgeEligible})
  {
    hide Named, SemanticKeep;
    var protections := Protections(v, m, recent, age);
    assert ActiveManifest in protections <==> Named(m.active, RefOf(v));
    assert RollbackManifest in protections <==> Named(m.rollback, RefOf(v));
    assert SemanticKeepTag in protections <==> exists i :: 0 <= i < |v.tags| && SemanticKeep(v.tags[i]);
    assert RecentVersionFloor in protections <==> RefOf(v) in recent;
    assert FutureDated in protections <==> age < 0;
    assert NonCleanupTag !in protections && MinimumAgeNotMet !in protections && UntaggedAgeEligible !in protections;
    hide Protections;
  }

  // ---------------------------------------------------------- completeness

  predicate Runs(r: Resource) {
    r.kind == "cloud_run_service" || r.kind == "cloud_run_job"
  }

  predicate HasName(targets: seq<Target>, name: string) {
    exists i :: 0 <= i < |targets| && targets[i].name == name
  }

  /** A target of this name with this digest. */
  predicate Assigns(targets: seq<Target>, name: string, digest: string) {
    exists i :: 0 <= i < |targets| && targets[i].name == name && targets[i].digest == digest
  }

  predicate Stocked(versions: seq<Version>, t: Target) {
    exists i :: 0 <= i < |versions| && versions[i].repository == t.repository && versions[i].digest == t.digest
  }

  lemma OneOfName(targets: seq<Target>, j: nat, k: nat)
    requires DistinctNames(targets) && j < |targets| && k < |targets| && targets[j].name == targets[k].name
    ensures j == k
  {
  }

  lemma ByNameHas(targets: seq<Target>, name: string)
    requires DistinctNames(targets)
    ensures name in ByName(targets) <==> HasName(targets, name)
    ensures name in ByName(targets) ==> forall digest :: ByName(targets)[name].digest == digest <==> Assigns(targets, name, digest)
  {
    ByNameMeans(targets, name);
    if name in ByName(targets) {
      var t := ByName(targets)[name];
      var k :| 0 <= k < |targets| && targets[k] == t;
      assert HasName(targets, name) && Assigns(targets, name, t.digest);
      forall digest | Assigns(targets, name, digest) ensures t.digest == digest {
        var j :| 0 <= j < |targets| && targets[j].name == name && targets[j].digest == digest;
        OneOfName(targets, j, k);
      }
    }
  }

  /** A running resource has an active target of its digest and a rollback target. */
  predicate Covered(r: Resource, m: Manifest) {
    Runs(r) ==> Assigns(m.active, r.name, r.digest) && HasName(m.rollback, r.name)
  }

  lemma ResourceCovered(r: Resource, m: Manifest)
    requires DistinctNames(m.active) && DistinctNames(m.rollback)
    ensures ResourceBlockers(r, m) == [] <==> Covered(r, m)
  {
    ByNameHas(m.active, r.name);
    ByNameHas(m.rollback, r.name);
    hide ByName, HasName, Assigns, DistinctNames;
    if Runs(r) && r.name !in ByName(m.active) {
      assert !Assigns(m.active, r.name, r.digest) by { NoNameNoDigest(m.active, r.name, r.digest); }
    }
  }

  lemma NoNameNoDigest(targets: seq<Target>, name: string, digest: string)
    requires !HasName(targets, name)
    ensures !Assigns(targets, name, digest)
  {
  }

  lemma {:induction false} AllCovered(resources: seq<Resource>, m: Manifest)
    requires DistinctNames(m.active) && DistinctNames(m.rollback)
    ensures AllResourceBlockers(resources, m) == [] <==> forall i :: 0 <= i < |resources| ==> Covered(resources[i], m)
  {
    hide Covered, ResourceBlockers, DistinctNames;
    if resources != [] {
      var n := |resources| - 1;
      AllCovered(resources[..n], m);
      ResourceCovered(resources[n], m);
      assert forall i :: 0 <= i < n ==> resources[i] == resources[..n][i];
    }
  }

  lemma {:induction false} AllStocked(targets: seq<Target>, versions: seq<Version>)
    ensures AbsentTargets(targets, versions) == [] <==> forall i :: 0 <= i < |targets| ==> Stocked(versions, targets[i])
  {
    hide Present, Stocked;
    if targets != [] {
      var n := |targets| - 1;
      AllStocked(targets[..n], versions);
      assert Present(versions, TargetRef(targets[n])) <==> Stocked(versions, targets[n]) by { StockedIs(versions, targets[n]); }
      assert forall i :: 0 <= i < n ==> targets[i] == targets[..n][i];
    }
  }

  lemma StockedIs(versions: seq<Version>, t: Target)
    ensures Present(versions, TargetRef(t)) <==> Stocked(versions, t)
  {
  }

  /**
   A plan is complete exactly with a complete inventory, a restore verified in the past and within the
   retention days, every running resource covered, and every target in stock.
   */
  lemma CompleteExactly(inv: Inventory, m: Manifest, asOf: int, instant: string -> int)
    requires DistinctNames(m.active) && DistinctNames(m.rollback)
    ensures PlanOf(inv, m, asOf, instant).complete <==>
              && inv.complete && m.restoreVerifiedAt <= asOf
              && asOf <= m.restoreVerifiedAt + m.retentionDays * 86_400_000_000
              && (forall i :: 0 <= i < |inv.resources| ==> Covered(inv.resources[i], m))
              && (forall i :: 0 <= i < |m.active| ==> Stocked(inv.versions, m.active[i]))
              && (forall i :: 0 <= i < |m.rollback| ==> Stocked(inv.versions, m.rollback[i]))
  {
    AllCovered(inv.resources, m);
    AllStocked(m.active, inv.versions);
    AllStocked(m.rollback, inv.versions);
    hide AllResourceBlockers, AbsentTargets, Covered, Stocked, Entries, DistinctNames;
  }
}
