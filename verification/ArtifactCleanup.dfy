/**
 Executing an approved image cleanup: the specification and its approval are checked, the live
 registry is compared with them, each approved image is deleted by digest, and the registry is
 looked at again. Other actors may change the registry between any two looks.
 */
module ArtifactCleanup {
  import opened Names
  import opened Wrappers

  /** A package within its repository, and a digest. */
  datatype Image = Image(package: string, digest: string)

  type Groups = seq<(string, seq<string>)>

  datatype Reference = Reference(target: string, image: Image)

  datatype Spec = Spec(
    retain: Groups, removal: Groups, references: seq<Reference>,
    versions: int, retainVersions: int, removalVersions: int, wellMarked: bool)

  /** `sameSpec` says whether the hash it carries is that of the specification. */
  datatype Approval = Approval(sameSpec: bool, byOwner: bool, allTargets: bool, count: int, sameExclusions: bool)

  /** One look at the registry: the images found and their tags. */
  datatype Look = Look(found: set<Image>, tagged: set<Image>)

  datatype Error = InvalidSpec | InvalidApproval | WrongBranch | QueryFailed | Unsafe | DeleteFailed | PostCheckFailed

  datatype Outcome = DryRunPass(approved: int) | Applied(approved: int, deleted: seq<Image>)

  // ---------------------------------------------------------- validation

  function Flatten(groups: Groups): set<Image> {
    set g, d | g in groups && d in g.1 :: Image(g.0, d)
  }

  ghost predicate Keyed(groups: Groups) {
    forall i, j :: 0 <= i < j < |groups| ==> groups[i].0 != groups[j].0
  }

  /** Packages are the keys of a map, each with a non-empty list of distinct digests. */
  ghost predicate GroupsOk(groups: Groups) {
    groups != [] && Keyed(groups) && forall i :: 0 <= i < |groups| ==> groups[i].1 != [] && Distinct(groups[i].1)
  }

  ghost predicate SpecOk(s: Spec) {
    var retained, removable := Flatten(s.retain), Flatten(s.removal);
    && s.wellMarked && GroupsOk(s.retain) && GroupsOk(s.removal)
    && |retained| == s.retainVersions && |removable| == s.removalVersions && |retained + removable| == s.versions
    && retained * removable == {}
    && ReferencesOk(s.references, retained, removable)
  }

  /** Every protected reference is retained and not removed, and there is one. */
  ghost predicate ReferencesOk(references: seq<Reference>, retained: set<Image>, removable: set<Image>) {
    references != []
    && forall i :: 0 <= i < |references| ==> references[i].image in retained && references[i].image !in removable
  }

  predicate ApprovalOk(a: Approval, s: Spec) {
    a.sameSpec && a.byOwner && a.allTargets && a.sameExclusions && a.count == |Flatten(s.removal)|
  }

  /** The nested loops over packages and digests that `_flatten` stands for. */
  method FlattenGroups(groups: Groups) returns (images: set<Image>)
    ensures images == Flatten(groups)
  {
    images := {};
    var k := 0;
    while k < |groups|
      invariant 0 <= k <= |groups| && images == Flatten(groups[..k])
    {
      var package, digests := groups[k].0, groups[k].1;
      images := images + set d | d in digests :: Image(package, d);
      FlattenMore(groups[..k], groups[k]);
      assert groups[..k + 1] == groups[..k] + [groups[k]];
      k := k + 1;
    }
    assert groups[..k] == groups;
  }

  lemma FlattenMore(groups: Groups, group: (string, seq<string>))
    ensures Flatten(groups + [group]) == Flatten(groups) + set d | d in group.1 :: Image(group.0, d)
  {
    var more := set d | d in group.1 :: Image(group.0, d);
    forall image ensures image in Flatten(groups + [group]) <==> image in Flatten(groups) || image in more {
      if image in Flatten(groups + [group]) {
        var g, d :| g in groups + [group] && d in g.1 && Image(g.0, d) == image;
        if g != group { assert g in groups; }
      }
      if image in more { assert group in groups + [group]; }
    }
  }

  /** One group map: its faults are counted, a repeated digest through a set as `len(set(…))` does. */
  method CountGroupFaults(groups: Groups) returns (faults: nat)
    requires Keyed(groups)
    ensures faults == 0 <==> GroupsOk(groups)
  {
    faults := if groups == [] then 1 else 0;
    var k := 0;
    while k < |groups|
      invariant 0 <= k <= |groups|
      invariant faults == 0 <==> groups != [] && forall i :: 0 <= i < k ==> groups[i].1 != [] && Distinct(groups[i].1)
    {
      var digests := groups[k].1;
      if digests == [] {
        faults := faults + 1;
      } else {
        UniqueCount(digests);
        if |digests| != |Unique(digests)| {
          faults := faults + 1;
        }
      }
      k := k + 1;
    }
  }

  method ReferencesRetained(references: seq<Reference>, retained: set<Image>, removable: set<Image>) returns (ok: bool)
    ensures ok <==> ReferencesOk(references, retained, removable)
  {
    var errors, k := 0, 0;
    while k < |references|
      invariant 0 <= k <= |references| && errors >= 0
      invariant errors == 0 <==>
                  forall i :: 0 <= i < k ==> references[i].image in retained && references[i].image !in removable
    {
      if references[k].image !in retained || references[k].image in removable {
        errors := errors + 1;
      }
      k := k + 1;
    }
    ok := references != [] && errors == 0;
  }

  /** `validate_artifact_cleanup_spec`: every check is made, and any error refuses the specification. */
  method ValidateSpec(s: Spec) returns (ok: bool)
    requires Keyed(s.retain) && Keyed(s.removal)
    ensures ok <==> SpecOk(s)
  {
    var retainFaults := CountGroupFaults(s.retain);
    var removalFaults := CountGroupFaults(s.removal);
    hide GroupsOk, Flatten, ReferencesOk, Keyed;
    var retained := FlattenGroups(s.retain);
    var removable := FlattenGroups(s.removal);
    var referred := ReferencesRetained(s.references, retained, removable);
    ok := s.wellMarked && retainFaults + removalFaults == 0
          && |retained| == s.retainVersions && |removable| == s.removalVersions && |retained + removable| == s.versions
          && retained * removable == {} && referred;
  }

  /** The sizes in an accepted specification add up, and every protected reference survives the removal. */
  lemma SpecConserves(s: Spec)
    requires SpecOk(s)
    ensures s.versions == s.retainVersions + s.removalVersions
    ensures forall i :: 0 <= i < |s.references| ==> s.references[i].image in Flatten(s.retain) - Flatten(s.removal)
  {
    var retained, removable := Flatten(s.retain), Flatten(s.removal);
    assert |retained + removable| == |retained| + |removable|;
  }

  // ----------------------------------------------------------- the registry

  /** The images in the registry, the tagged ones, and those that services and jobs run, at one moment. */
  datatype State = State(images: set<Image>, tagged: set<Image>, live: set<Image>) {
    function Seen(): Look {
      Look(images, images * tagged)
    }

    function Amid(v: Visit): State {
      State(images - v.removes + v.adds, v.tagged, v.live)
    }
  }

  /** One of our calls: what the others did since the one before, and whether the call raises. */
  datatype Visit = Visit(adds: set<Image>, removes: set<Image>, tagged: set<Image>, live: set<Image>, raises: bool)

  /** What each of our calls will meet. */
  datatype World = World(look: Visit, services: Visit, delete: nat -> Visit, recheck: Visit)

  /** What a call reported, or the deletion it ordered; a raising query reports nothing. */
  datatype Event = Listed(look: Look) | SawLive(references: set<Image>) | Raised | Ordered(image: Image, done: bool)

  /** The registry and everything our calls have seen and ordered, oldest first. */
  datatype Session = Session(state: State, log: seq<Event>) {
    function List(v: Visit): Session {
      var now := state.Amid(v);
      Session(now, log + [if v.raises then Raised else Listed(now.Seen())])
    }

    function AskLive(v: Visit): Session {
      var now := state.Amid(v);
      Session(now, log + [if v.raises then Raised else SawLive(now.live)])
    }

    /** Deleting by digest: a command that raises leaves the image where it was. */
    function Order(v: Visit, image: Image): Session {
      var now := state.Amid(v);
      Session(if v.raises then now else now.(images := now.images - {image}), log + [Ordered(image, !v.raises)])
    }
  }

  /** `log` remembers what each call reported or ordered; no method reads it. */
  class Registry {
    var images: set<Image>
    var tagged: set<Image>
    var live: set<Image>
    ghost var log: seq<Event>

    ghost function Now(): Session
      reads this
    {
      Session(State(images, tagged, live), log)
    }

    constructor (images: set<Image>, tagged: set<Image>, live: set<Image>)
      ensures Now() == Session(State(images, tagged, live), [])
    {
      this.images, this.tagged, this.live, log := images, tagged, live, [];
    }

    /** Somebody else changes images, tags or running services. */
    method Interfere(v: Visit)
      modifies this`images, this`tagged, this`live
      ensures Now() == old(Now()).(state := old(Now()).state.Amid(v))
    {
      images, tagged, live := images - v.removes + v.adds, v.tagged, v.live;
    }

    method List(v: Visit) returns (look: Option<Look>)
      modifies this
      ensures Now() == old(Now()).List(v)
      ensures look == if v.raises then None else Some(Now().state.Seen())
    {
      Interfere(v);
      look := if v.raises then None else Some(Look(images, images * tagged));
      log := log + [if v.raises then Raised else Listed(look.value)];
    }

    method LiveReferences(v: Visit) returns (references: Option<set<Image>>)
      modifies this
      ensures Now() == old(Now()).AskLive(v)
      ensures references == if v.raises then None else Some(live)
    {
      Interfere(v);
      references := if v.raises then None else Some(live);
      log := log + [if v.raises then Raised else SawLive(references.value)];
    }

    method Delete(v: Visit, image: Image) returns (done: bool)
      modifies this
      ensures Now() == old(Now()).Order(v, image) && done == !v.raises
    {
      Interfere(v);
      done := !v.raises;
      if done {
        images := images - {image};
      }
      log := log + [Ordered(image, done)];
    }
  }

  ghost predicate Enumerates(targets: seq<Image>, images: set<Image>) {
    (forall i, j :: 0 <= i < j < |targets| ==> targets[i] != targets[j]) && forall image :: image in targets <==> image in images
  }

  lemma {:induction false} EnumerationSize(targets: seq<Image>, images: set<Image>)
    requires Enumerates(targets, images)
    ensures |targets| == |images|
  {
    if targets == [] {
      assert images == {};
    } else {
      var n := |targets| - 1;
      assert targets == targets[..n] + [targets[n]];
      assert targets[n] in images;
      EnumerationSize(targets[..n], images - {targets[n]});
    }
  }

  // ------------------------------------------------------- the execution

  /** A stage of the execution: the session it leaves, and the exception it ended with, if any. */
  datatype Stage = Stage(session: Session, error: Option<Error>)

  /** The look before anything is deleted: the listing, then the running services. */
  predicate Safe(first: Look, running: set<Image>, retained: set<Image>, removable: set<Image>) {
    first.found == retained + removable && removable * first.tagged == {} && running <= retained
  }

  predicate Clean(last: Look, retained: set<Image>, removable: set<Image>) {
    removable * last.found == {} && retained <= last.found
  }

  function Observed(x: Session, w: World, retained: set<Image>, removable: set<Image>): Stage {
    var listed := x.List(w.look);
    if w.look.raises then Stage(listed, Some(QueryFailed))
    else
      var asked := listed.AskLive(w.services);
      if w.services.raises then Stage(asked, Some(QueryFailed))
      else Stage(asked, if Safe(listed.state.Seen(), asked.state.live, retained, removable) then None else Some(Unsafe))
  }

  /** The deletions of `order` one by one, stopping at the first that raises. */
  function Deletions(x: Session, w: World, order: seq<Image>): Stage {
    if order == [] then Stage(x, None)
    else
      var n := |order| - 1;
      var before := Deletions(x, w, order[..n]);
      if before.error.Some? then before
      else Stage(before.session.Order(w.delete(n), order[n]), if w.delete(n).raises then Some(DeleteFailed) else None)
  }

  function Rechecked(x: Session, w: World, retained: set<Image>, removable: set<Image>): Stage {
    var listed := x.List(w.recheck);
    Stage(listed,
          if w.recheck.raises then Some(QueryFailed)
          else if Clean(listed.state.Seen(), retained, removable) then None else Some(PostCheckFailed))
  }

  datatype Course = Course(outcome: Result<Outcome, Error>, session: Session)

  /** `execute_artifact_cleanup` on the registry as it is at the start; `order` lists the removable images. */
  ghost function Execution(
    s: Spec, a: Approval, apply: bool, onMaster: bool, x: Session, w: World, order: seq<Image>): Course
  {
    var retained, removable := Flatten(s.retain), Flatten(s.removal);
    if !SpecOk(s) then Course(Err(InvalidSpec), x)
    else if !ApprovalOk(a, s) then Course(Err(InvalidApproval), x)
    else if apply && !onMaster then Course(Err(WrongBranch), x)
    else
      var observed := Observed(x, w, retained, removable);
      if observed.error.Some? then Course(Err(observed.error.value), observed.session)
      else if !apply then Course(Ok(DryRunPass(|order|)), observed.session)
      else
        var deleted := Deletions(observed.session, w, order);
        if deleted.error.Some? then Course(Err(deleted.error.value), deleted.session)
        else
          var rechecked := Rechecked(deleted.session, w, retained, removable);
          Course(if rechecked.error.Some? then Err(rechecked.error.value) else Ok(Applied(a.count, order)), rechecked.session)
  }

  method Observe(registry: Registry, w: World, retained: set<Image>, removable: set<Image>) returns (error: Option<Error>)
    modifies registry
    ensures Stage(registry.Now(), error) == Observed(old(registry.Now()), w, retained, removable)
  {
    var look := registry.List(w.look);
    if look.None? {
      return Some(QueryFailed);
    }
    var live := registry.LiveReferences(w.services);
    if live.None? {
      return Some(QueryFailed);
    }
    var errors := 0;
    if look.value.found != retained + removable {
      errors := errors + 1;
    }
    if removable * look.value.tagged != {} {
      errors := errors + 1;
    }
    if !(live.value <= retained) {
      errors := errors + 1;
    }
    error := if errors > 0 then Some(Unsafe) else None;
  }

  /** One delete command per image in order, stopping at the first that raises. */
  method DeleteInOrder(registry: Registry, w: World, order: seq<Image>) returns (error: Option<Error>, deleted: seq<Image>)
    modifies registry
    ensures Stage(registry.Now(), error) == Deletions(old(registry.Now()), w, order)
    ensures error.None? ==> deleted == order
  {
    deleted := [];
    var k := 0;
    while k < |order|
      invariant 0 <= k <= |order| && deleted == order[..k]
      invariant Deletions(old(registry.Now()), w, order[..k]) == Stage(registry.Now(), None)
    {
      assert order[..k + 1][..k] == order[..k];
      var done := registry.Delete(w.delete(k), order[k]);
      if !done {
        DeletionsStop(old(registry.Now()), w, order, k + 1);
        return Some(DeleteFailed), deleted;
      }
      deleted := deleted + [order[k]];
      k := k + 1;
    }
    assert order[..k] == order;
    error := None;
  }

  /** Once a command has raised, the rest of the order changes nothing. */
  lemma {:induction false} DeletionsStop(x: Session, w: World, order: seq<Image>, k: nat)
    requires k <= |order| && Deletions(x, w, order[..k]).error.Some?
    ensures Deletions(x, w, order) == Deletions(x, w, order[..k])
  {
    if k == |order| {
      assert order[..k] == order;
    } else {
      assert order[..|order| - 1][..k] == order[..k];
      DeletionsStop(x, w, order[..|order| - 1], k);
    }
  }

  method Recheck(registry: Registry, w: World, retained: set<Image>, removable: set<Image>) returns (error: Option<Error>)
    modifies registry
    ensures Stage(registry.Now(), error) == Rechecked(old(registry.Now()), w, retained, removable)
  {
    var look := registry.List(w.recheck);
    if look.None? {
      return Some(QueryFailed);
    }
    var stillPresent, missingRetained := removable * look.value.found, retained - look.value.found;
    NoneMissing(retained, look.value.found);
    error := if stillPresent != {} || missingRetained != {} then Some(PostCheckFailed) else None;
  }

  lemma NoneMissing(wanted: set<Image>, found: set<Image>)
    ensures wanted - found == {} <==> wanted <= found
  {
    if wanted - found == {} {
      forall image | image in wanted ensures image in found { assert image !in wanted - found; }
    }
  }

  /** `order` is the sorted list of removable images, which `sorted` makes from their set. */
  method ExecuteArtifactCleanup(
    s: Spec, a: Approval, apply: bool, onMaster: bool, registry: Registry, w: World, order: seq<Image>)
    returns (outcome: Result<Outcome, Error>)
    requires Keyed(s.retain) && Keyed(s.removal) && Enumerates(order, Flatten(s.removal))
    modifies registry
    ensures Course(outcome, registry.Now()) == Execution(s, a, apply, onMaster, old(registry.Now()), w, order)
  {
    hide Flatten, Keyed, SpecOk, Enumerates, Observed, Deletions, Rechecked;
    var ok := ValidateSpec(s);
    if !ok {
      return Err(InvalidSpec);
    }
    if !ApprovalOk(a, s) {
      return Err(InvalidApproval);
    }
    if apply && !onMaster {
      return Err(WrongBranch);
    }
    var retained := FlattenGroups(s.retain);
    var removable := FlattenGroups(s.removal);
    var error := Observe(registry, w, retained, removable);
    if error.Some? {
      return Err(error.value);
    }
    if !apply {
      return Ok(DryRunPass(|order|));
    }
    var deleted;
    error, deleted := DeleteInOrder(registry, w, order);
    if error.Some? {
      return Err(error.value);
    }
    error := Recheck(registry, w, retained, removable);
    if error.Some? {
      return Err(error.value);
    }
    outcome := Ok(Applied(a.count, deleted));
  }

  // ------------------------------------------- what an execution amounts to

  /** The deletions append one order each, all done but possibly the last. */
  lemma {:induction false} DeletionsLog(x: Session, w: World, order: seq<Image>)
    ensures x.log <= Deletions(x, w, order).session.log
    ensures var d := Deletions(x, w, order);
            var orders := d.session.log[|x.log|..];
            && |orders| <= |order| && (d.error.None? ==> |orders| == |order|)
            && forall i :: 0 <= i < |orders| ==> orders[i] == Ordered(order[i], d.error.None? || i < |orders| - 1)
    ensures Deletions(x, w, order).error in {None, Some(DeleteFailed)}
  {
    if order != [] {
      var n := |order| - 1;
      DeletionsLog(x, w, order[..n]);
      var before := Deletions(x, w, order[..n]);
      if before.error.None? {
        var last := Ordered(order[n], !w.delete(n).raises);
        assert (before.session.log + [last])[|x.log|..] == before.session.log[|x.log|..] + [last];
      }
    }
  }

  /** What the log holds once the look before the deletions has passed. */
  ghost predicate Cleared(x: Session, w: World, retained: set<Image>, removable: set<Image>, log: seq<Event>) {
    && |log| >= 2 && log[0].Listed? && log[1].SawLive?
    && log[0].look == x.state.Amid(w.look).Seen() && log[0].look.found == retained + removable
    && removable * log[0].look.tagged == {}
    && log[1].references == x.state.Amid(w.look).Amid(w.services).live <= retained
  }

  lemma ObservedLog(x: Session, w: World, retained: set<Image>, removable: set<Image>)
    requires x.log == []
    ensures var o := Observed(x, w, retained, removable);
            && (forall i :: 0 <= i < |o.session.log| ==> !o.session.log[i].Ordered?)
            && (o.error.None? ==> |o.session.log| == 2 && Cleared(x, w, retained, removable, o.session.log))
  {
  }

  /** An execution orders deletions only between a passed look and a recheck. */
  lemma OrdersComeFrom(s: Spec, a: Approval, apply: bool, onMaster: bool, x: Session, w: World, order: seq<Image>, i: nat)
    requires x.log == [] && i < |Execution(s, a, apply, onMaster, x, w, order).session.log|
    requires Execution(s, a, apply, onMaster, x, w, order).session.log[i].Ordered?
    ensures apply && onMaster && SpecOk(s) && ApprovalOk(a, s)
    ensures var log := Execution(s, a, apply, onMaster, x, w, order).session.log;
            var observed := Observed(x, w, Flatten(s.retain), Flatten(s.removal));
            var deleted := Deletions(observed.session, w, order).session.log;
            observed.error.None? && deleted <= log && 2 <= i < |deleted| && |observed.session.log| == 2
  {
    hide Flatten, SpecOk, ApprovalOk, Deletions, Observed, Clean;
    var observed := Observed(x, w, Flatten(s.retain), Flatten(s.removal));
    ObservedLog(x, w, Flatten(s.retain), Flatten(s.removal));
    DeletionsLog(observed.session, w, order);
  }

  /**
   In every execution, whatever the others do: each order stands in the log after a listing of the
   registry as it then was and a look at what was then running; the listing is the specification's
   images exactly, and the image ordered gone was listed untagged, was not running, and is neither
   retained nor a protected reference. Orders follow the approved list, each image once.
   */
  lemma OrdersAreSafe(s: Spec, a: Approval, apply: bool, onMaster: bool, x: Session, w: World, order: seq<Image>, i: nat)
    requires Enumerates(order, Flatten(s.removal)) && x.log == []
    requires i < |Execution(s, a, apply, onMaster, x, w, order).session.log|
    requires Execution(s, a, apply, onMaster, x, w, order).session.log[i].Ordered?
    ensures apply && onMaster && SpecOk(s) && ApprovalOk(a, s)
    ensures var log := Execution(s, a, apply, onMaster, x, w, order).session.log;
            && Cleared(x, w, Flatten(s.retain), Flatten(s.removal), log)
            && 2 <= i < 2 + |order| && log[i].image == order[i - 2]
            && log[i].image in log[0].look.found && log[i].image !in log[0].look.tagged
            && log[i].image !in log[1].references && log[i].image !in Flatten(s.retain)
    ensures var log := Execution(s, a, apply, onMaster, x, w, order).session.log;
            && (forall k :: 0 <= k < |s.references| ==> s.references[k].image != log[i].image)
            && (forall k :: 2 <= k < i ==> log[k].Ordered? && log[k].done && log[k].image != log[i].image)
  {
    hide Flatten, SpecOk, ApprovalOk, Deletions, Observed, Execution, Enumerates;
    var retained, removable := Flatten(s.retain), Flatten(s.removal);
    OrdersComeFrom(s, a, apply, onMaster, x, w, order, i);
    ObservedLog(x, w, retained, removable);
    var observed := Observed(x, w, retained, removable).session;
    DeletionsLog(observed, w, order);
    var log, deleted := Execution(s, a, apply, onMaster, x, w, order).session.log, Deletions(observed, w, order).session.log;
    assert log[..2] == observed.log;
    forall k | 2 <= k <= i ensures log[k] == deleted[2..][k - 2] {}
    SpecSeparates(s, order, i - 2);
    InListing(log[0].look, retained, removable, order[i - 2]);
    forall k | 2 <= k < i ensures log[k].Ordered? && log[k].done && log[k].image != order[i - 2] {
      ListedOnce(order, removable, k - 2, i - 2);
    }
  }

  lemma InListing(look: Look, retained: set<Image>, removable: set<Image>, image: Image)
    requires look.found == retained + removable && removable * look.tagged == {} && image in removable
    ensures image in look.found && image !in look.tagged
  {
    assert image !in removable * look.tagged;
  }

  lemma ListedOnce(order: seq<Image>, images: set<Image>, i: nat, j: nat)
    requires Enumerates(order, images) && i < j < |order|
    ensures order[i] != order[j]
  {
  }

  /**
   `Applied` means: the checks had passed, every removable image was ordered gone and reported done,
   as many as approved, and the listing that ended the execution is the registry it leaves, with no
   removed image in it and every retained one.
   */
  lemma AppliedMeansGone(s: Spec, a: Approval, apply: bool, onMaster: bool, x: Session, w: World, order: seq<Image>)
    requires Enumerates(order, Flatten(s.removal)) && x.log == []
    requires var c := Execution(s, a, apply, onMaster, x, w, order); c.outcome.Ok? && c.outcome.value.Applied?
    ensures apply && onMaster && SpecOk(s) && ApprovalOk(a, s)
    ensures var c := Execution(s, a, apply, onMaster, x, w, order);
            var log, images := c.session.log, c.session.state.images;
            && c.outcome.value == Applied(|order|, order)
            && |log| == |order| + 3 && Cleared(x, w, Flatten(s.retain), Flatten(s.removal), log)
            && (forall i :: 0 <= i < |order| ==> log[2 + i] == Ordered(order[i], true))
            && log[|order| + 2].Listed? && log[|order| + 2].look.found == images
            && Flatten(s.removal) * images == {} && Flatten(s.retain) <= images
  {
    hide Flatten, SpecOk, Deletions, Observed, Enumerates;
    var observed := Observed(x, w, Flatten(s.retain), Flatten(s.removal)).session;
    ObservedLog(x, w, Flatten(s.retain), Flatten(s.removal));
    DeletionsLog(observed, w, order);
    EnumerationSize(order, Flatten(s.removal));
    var log, deleted := Execution(s, a, apply, onMaster, x, w, order).session.log, Deletions(observed, w, order).session.log;
    assert log[..|order| + 2] == deleted && deleted[..2] == observed.log;
    forall i | 0 <= i < |order| ensures log[2 + i] == deleted[2..][i] {}
  }

  /** Nobody else acts and no call raises. */
  ghost predicate Still(v: Visit, state: State) {
    v == Visit({}, {}, state.tagged, state.live, false)
  }

  ghost predicate Quiet(w: World, state: State) {
    && Still(w.look, state) && Still(w.services, state) && Still(w.recheck, state)
    && forall k :: Still(w.delete(k), state)
  }

  lemma QuietOrder(x: Session, v: Visit, image: Image)
    requires Still(v, x.state)
    ensures x.Order(v, image).state == x.state.(images := x.state.images - {image})
  {
    assert x.state.Amid(v).images == x.state.images;
  }

  lemma WithoutOneMore(images: set<Image>, order: seq<Image>, image: Image)
    ensures images - (set i | i in order) - {image} == images - set i | i in order + [image]
  {
  }

  lemma {:induction false} QuietDeletions(x: Session, w: World, order: seq<Image>)
    requires Quiet(w, x.state)
    ensures var d := Deletions(x, w, order);
            d.error.None? && d.session.state == x.state.(images := x.state.images - set i | i in order)
  {
    if order == [] {
      assert x.state.images == x.state.images - set i | i in order;
    } else {
      hide Session.Order;
      var n := |order| - 1;
      assert order == order[..n] + [order[n]];
      QuietDeletions(x, w, order[..n]);
      assert Still(w.delete(n), x.state);
      QuietOrder(Deletions(x, w, order[..n]).session, w.delete(n), order[n]);
      WithoutOneMore(x.state.images, order[..n], order[n]);
    }
  }

  /**
   Left to itself an execution passes exactly when every gate does, and is all or nothing: an apply
   that passes leaves exactly the retained images, and anything else leaves the registry alone.
   */
  lemma UndisturbedExecution(s: Spec, a: Approval, apply: bool, onMaster: bool, x: Session, w: World, order: seq<Image>)
    requires Enumerates(order, Flatten(s.removal)) && Quiet(w, x.state)
    ensures var c, retained, removable := Execution(s, a, apply, onMaster, x, w, order), Flatten(s.retain), Flatten(s.removal);
            && (c.outcome.Ok? <==>
                  && SpecOk(s) && ApprovalOk(a, s) && (apply ==> onMaster) && x.state.images == retained + removable
                  && removable * x.state.tagged == {} && x.state.live <= retained)
            && c.session.state == if apply && c.outcome.Ok? then x.state.(images := retained) else x.state
  {
    hide Flatten, GroupsOk, ReferencesOk, ApprovalOk, Deletions;
    var retained, removable := Flatten(s.retain), Flatten(s.removal);
    assert Still(w.look, x.state) && Still(w.services, x.state) && Still(w.recheck, x.state);
    var state := x.state;
    assert state.Amid(w.look) == state && state.Amid(w.services) == state;
    if state.images == retained + removable {
      UntaggedEither(state, retained, removable);
      QuietDeletions(Observed(x, w, retained, removable).session, w, order);
      if SpecOk(s) { RetainedLeft(retained, removable, order); }
    }
  }

  lemma UntaggedEither(state: State, retained: set<Image>, removable: set<Image>)
    requires state.images == retained + removable
    ensures removable * (state.images * state.tagged) == {} <==> removable * state.tagged == {}
  {
    assert removable * (state.images * state.tagged) == removable * state.tagged;
  }

  lemma RetainedLeft(retained: set<Image>, removable: set<Image>, order: seq<Image>)
    requires Enumerates(order, removable) && retained * removable == {}
    ensures retained + removable - (set image | image in order) == retained
  {
    assert (set image | image in order) == removable;
    forall image | image in retained ensures image !in removable { assert image !in retained * removable; }
  }

  lemma {:induction false} DeletionsSpare(x: Session, w: World, order: seq<Image>, image: Image)
    requires image in x.state.images && image !in order && forall k :: image !in w.delete(k).removes
    ensures image in Deletions(x, w, order).session.state.images
  {
    if order != [] {
      var n := |order| - 1;
      DeletionsSpare(x, w, order[..n], image);
      assert image !in w.delete(n).removes && order[n] in order;
    }
  }

  /** However an execution ends, an image not approved for removal that nobody else removes is still there. */
  lemma OthersAreSpared(
    s: Spec, a: Approval, apply: bool, onMaster: bool, x: Session, w: World, order: seq<Image>, image: Image)
    requires Enumerates(order, Flatten(s.removal)) && image in x.state.images && image !in Flatten(s.removal)
    requires image !in w.look.removes && image !in w.services.removes && image !in w.recheck.removes
    requires forall k :: image !in w.delete(k).removes
    ensures image in Execution(s, a, apply, onMaster, x, w, order).session.state.images
  {
    hide Flatten, SpecOk, ApprovalOk, Deletions, Safe, Clean;
    var observed := Observed(x, w, Flatten(s.retain), Flatten(s.removal));
    assert image in observed.session.state.images;
    DeletionsSpare(observed.session, w, order, image);
  }

  /** Nobody else removes the image before the last look. */
  ghost predicate LeftAlone(image: Image, w: World) {
    image !in w.look.removes && image !in w.services.removes && forall j :: image !in w.delete(j).removes
  }

  /** A deletion that raises removes nothing: its image is the last ordered, and is still there unless others removed it. */
  lemma FailedDeleteKeepsImage(s: Spec, a: Approval, apply: bool, onMaster: bool, x: Session, w: World, order: seq<Image>)
    requires Enumerates(order, Flatten(s.removal)) && x.log == []
    requires Execution(s, a, apply, onMaster, x, w, order).outcome == Err(DeleteFailed)
    ensures var c := Execution(s, a, apply, onMaster, x, w, order);
            && 2 < |c.session.log| <= 2 + |order|
            && var k := |c.session.log| - 3;
               && c.session.log[k + 2] == Ordered(order[k], false) && w.delete(k).raises
               && (LeftAlone(order[k], w) && order[k] in x.state.images ==> order[k] in c.session.state.images)
  {
    hide Flatten, SpecOk, ApprovalOk, Deletions, Safe;
    var observed := Observed(x, w, Flatten(s.retain), Flatten(s.removal));
    ObservedLog(x, w, Flatten(s.retain), Flatten(s.removal));
    var k := FailedDeletions(observed.session, w, order);
    ListedApart(order, Flatten(s.removal), k);
    hide Enumerates;
    if order[k] in observed.session.state.images && forall j :: order[k] !in w.delete(j).removes {
      DeletionsSpare(observed.session, w, order[..k], order[k]);
    }
  }

  lemma ListedApart(order: seq<Image>, images: set<Image>, k: nat)
    requires Enumerates(order, images) && k < |order|
    ensures order[k] !in order[..k]
  {
  }

  /** Where the deletions failed: all before were done, and this one raised. */
  lemma {:induction false} FailedDeletions(x: Session, w: World, order: seq<Image>) returns (k: nat)
    requires Deletions(x, w, order).error.Some?
    ensures k < |order| && w.delete(k).raises && Deletions(x, w, order[..k]).error.None?
    ensures Deletions(x, w, order).session == Deletions(x, w, order[..k]).session.Order(w.delete(k), order[k])
    ensures |Deletions(x, w, order).session.log| == |x.log| + k + 1
  {
    var n := |order| - 1;
    if Deletions(x, w, order[..n]).error.Some? {
      k := FailedDeletions(x, w, order[..n]);
      assert order[..n][..k] == order[..k];
    } else {
      k := n;
      DeletionsLog(x, w, order[..n]);
    }
  }

  lemma SpecSeparates(s: Spec, order: seq<Image>, i: nat)
    requires SpecOk(s) && Enumerates(order, Flatten(s.removal)) && i < |order|
    ensures order[i] in Flatten(s.removal) && order[i] !in Flatten(s.retain)
    ensures forall k :: 0 <= k < |s.references| ==> s.references[k].image != order[i]
  {
    hide Flatten, GroupsOk;
    assert order[i] in order;
    assert order[i] !in Flatten(s.retain) * Flatten(s.removal);
  }
}
