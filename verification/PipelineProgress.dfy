/**
 That an owed run gets on: from any valid tables a call with enough life resumes the run where its
 succeeded stages end, and completes it or fails in the first stage that cannot be recorded.
 */
module PipelineProgress {
  import opened Names
  import opened Pipeline
  import opened Wrappers

  /** The calls that these stages' handlers return. */
  function Returned(call: Call, names: seq<string>): int {
    if names == [] then 0
    else
      var h := call.handle(names[|names| - 1]);
      Returned(call, names[..|names| - 1]) + if h.Returns? then h.calls else 0
  }

  /** With this count before it, the handler returns within the budget and its evidence is written. */
  predicate Records(call: Call, stage: string, counted: int) {
    var h := call.handle(stage);
    h.Returns? && counted + h.calls <= call.definition.budget && h.evidence == Recorded
  }

  /** The stages from `p` up to `q` are recorded one after the other. */
  predicate AllRecord(call: Call, counted: int, p: nat, q: nat)
    requires p <= q <= |call.definition.stages|
  {
    forall j :: p <= j < q ==> Records(call, call.definition.stages[j], counted + Returned(call, call.definition.stages[p..j]))
  }

  lemma ReturnedMore(call: Call, names: seq<string>, name: string)
    requires call.handle(name).Returns?
    ensures Returned(call, names + [name]) == Returned(call, names) + call.handle(name).calls
  {
    assert (names + [name])[..|names|] == names;
  }

  lemma ReturnedFirst(call: Call, p: nat, q: nat)
    requires p < q <= |call.definition.stages| && call.handle(call.definition.stages[p]).Returns?
    ensures var names := call.definition.stages;
            Returned(call, names[p..q]) == call.handle(names[p]).calls + Returned(call, names[p + 1..q])
    decreases q
  {
    var names := call.definition.stages;
    if p + 1 == q {
      assert names[p..q] == [] + [names[p]];
      ReturnedMore(call, [], names[p]);
      assert names[p + 1..q] == [];
    } else {
      ReturnedFirst(call, p, q - 1);
      assert names[p..q][..q - 1 - p] == names[p..q - 1] && names[p + 1..q][..q - 2 - p] == names[p + 1..q - 1];
    }
  }

  /** After a recorded stage the rest is recorded from the new count on. */
  lemma RecordOnward(call: Call, counted: int, p: nat, q: nat)
    requires p < q <= |call.definition.stages| && AllRecord(call, counted, p, q)
    ensures var h := call.handle(call.definition.stages[p]);
            && Records(call, call.definition.stages[p], counted)
            && AllRecord(call, counted + h.calls, p + 1, q)
            && counted + Returned(call, call.definition.stages[p..q]) ==
                 counted + h.calls + Returned(call, call.definition.stages[p + 1..q])
  {
    var names := call.definition.stages;
    assert names[p..p] == [];
    assert Records(call, names[p], counted + Returned(call, names[p..p]));
    ReturnedFirst(call, p, q);
    forall j | p + 1 <= j < q
      ensures Records(call, names[j], counted + call.handle(names[p]).calls + Returned(call, names[p + 1..j]))
    {
      ReturnedFirst(call, p, j);
      assert Records(call, names[j], counted + Returned(call, names[p..j]));
    }
  }

  /** One recorded stage: three units of life, one more stage succeeded, its calls counted. */
  lemma RecordedAttempt(call: Call, run: RunId, t: Tables, counted: int, life: nat, invoked: seq<string>, p: nat)
    requires Underway(call.definition, t, call.LogicalKey(), run, counted, p) && p < |call.definition.stages|
    requires Records(call, call.definition.stages[p], counted) && life >= 3
    ensures var stage := call.definition.stages[p];
            var turn := Attempt(call, run, stage, t, counted, life, invoked);
            && turn.GoesOn? && turn.life == life - 3 && turn.invoked == invoked + [stage]
            && turn.counted == counted + call.handle(stage).calls
            && Underway(call.definition, turn.tables, call.LogicalKey(), run, turn.counted, p + 1)
  {
    var d, stage := call.definition, call.definition.stages[p];
    var done := StageRow(Succeeded, Restarted(t, run, stage).attempt, call.handle(stage).calls);
    MarkNext(d, t, call.LogicalKey(), run, counted, p, done);
    var begun := t.MarkStage(run, stage, Restarted(t, run, stage));
    assert begun.MarkStage(run, stage, done) == t.MarkStage(run, stage, done);
    hide Underway, Advances;
  }

  /** One stage that cannot be recorded, with life for its writes: the call fails there, and only that stage is marked. */
  lemma UnrecordedAttempt(call: Call, run: RunId, t: Tables, counted: int, life: nat, invoked: seq<string>, p: nat)
    requires Underway(call.definition, t, call.LogicalKey(), run, counted, p) && p < |call.definition.stages|
    requires !Records(call, call.definition.stages[p], counted) && life >= 5
    ensures var stage := call.definition.stages[p];
            var turn := Attempt(call, run, stage, t, counted, life, invoked);
            && turn.Ends? && turn.pass.ending == StageFailed(run, stage) && turn.pass.invoked == invoked + [stage]
            && (run, stage) in turn.pass.tables.stages && turn.pass.tables.stages[(run, stage)].status == Failed
            && Prefix(turn.pass.tables, run, call.definition.stages, p)
  {
    hide Tables.SucceededCalls;
  }

  /** One turn of the stage loop at a stage that is recorded. */
  lemma StageRecorded(call: Call, run: RunId, reused: bool, t: Tables, counted: int, life: nat, invoked: seq<string>, p: nat)
    returns (t': Tables)
    requires Underway(call.definition, t, call.LogicalKey(), run, counted, p) && p < |call.definition.stages|
    requires Records(call, call.definition.stages[p], counted) && life >= 3
    ensures var stage := call.definition.stages[p];
            var counted' := counted + call.handle(stage).calls;
            && Underway(call.definition, t', call.LogicalKey(), run, counted', p + 1) && call.LogicalKey() in t'.runs
            && Stages(call, run, reused, p, t, counted, life, invoked) ==
                 Stages(call, run, reused, p + 1, t', counted', life - 3, invoked + [stage])
  {
    hide Underway, Attempt, Records;
    KeyThere(call, run, t, counted, p);
    RecordedAttempt(call, run, t, counted, life, invoked, p);
    StageOwed(call, run, t, counted, p);
    var turn := Attempt(call, run, call.definition.stages[p], t, counted, life, invoked);
    t' := turn.tables;
    KeyThere(call, run, t', turn.counted, p + 1);
  }

  /** Where the stage loop goes when every owed stage up to `q` is recorded. */
  lemma {:induction false} StagesReach(call: Call, run: RunId, reused: bool, k: nat, t: Tables, counted: int, life: nat,
      invoked: seq<string>, p: nat, q: nat) returns (t': Tables)
    requires Underway(call.definition, t, call.LogicalKey(), run, counted, p) && k <= p <= q <= |call.definition.stages|
    requires AllRecord(call, counted, p, q) && life >= 3 * (q - p) && call.LogicalKey() in t.runs
    ensures var counted' := counted + Returned(call, call.definition.stages[p..q]);
            && Underway(call.definition, t', call.LogicalKey(), run, counted', q) && call.LogicalKey() in t'.runs
            && Stages(call, run, reused, k, t, counted, life, invoked) ==
                 Stages(call, run, reused, q, t', counted', life - 3 * (q - p), invoked + call.definition.stages[p..q])
    decreases q - p, p - k
  {
    var names := call.definition.stages;
    hide Underway, Attempt, Records, AllRecord, Prefix;
    if k < p {
      StageSkipped(call, run, t, counted, k, p);
      t' := StagesReach(call, run, reused, k + 1, t, counted, life, invoked, p, q);
    } else if p == q {
      t' := t;
      assert names[p..q] == [] && invoked + [] == invoked;
    } else {
      RecordOnward(call, counted, p, q);
      var t1 := StageRecorded(call, run, reused, t, counted, life, invoked, p);
      hide Stages;
      t' := StagesReach(call, run, reused, p + 1, t1, counted + call.handle(names[p]).calls, life - 3,
                        invoked + [names[p]], p + 1, q);
      assert invoked + [names[p]] + names[p + 1..q] == invoked + names[p..q];
    }
  }

  lemma StageSkipped(call: Call, run: RunId, t: Tables, counted: int, k: nat, p: nat)
    requires Underway(call.definition, t, call.LogicalKey(), run, counted, p) && k < p
    ensures k < |call.definition.stages| && t.StageSucceeded(run, call.definition.stages[k])
  {
  }

  lemma StageOwed(call: Call, run: RunId, t: Tables, counted: int, p: nat)
    requires Underway(call.definition, t, call.LogicalKey(), run, counted, p) && p < |call.definition.stages|
    ensures !t.StageSucceeded(run, call.definition.stages[p])
  {
  }

  lemma KeyThere(call: Call, run: RunId, t: Tables, counted: int, p: nat)
    requires Underway(call.definition, t, call.LogicalKey(), run, counted, p)
    ensures call.LogicalKey() in t.runs && t.runs[call.LogicalKey()].runId == run
  {
  }

  // ------------------------------------------------------- the whole call

  lemma PrefixUnique(t: Tables, run: RunId, names: seq<string>, p: nat, q: nat)
    requires Prefix(t, run, names, p) && Prefix(t, run, names, q)
    ensures p == q
  {
    var k := if p < q then p else q;
    if k < |names| { assert t.StageSucceeded(run, names[k]) <==> k < p; }
  }

  /** What a completed call leaves: these stages invoked, all succeeded, the row with the sum. */
  ghost predicate Completes(call: Call, run: RunId, reused: bool, r: Pass, p: nat, total: int)
    requires p <= |call.definition.stages|
  {
    && r.ending == Completed(run, reused, total) && r.invoked == call.definition.stages[p..]
    && Prefix(r.tables, run, call.definition.stages, |call.definition.stages|)
    && call.LogicalKey() in r.tables.runs && r.tables.runs[call.LogicalKey()] == RunRow(run, Succeeded, total)
  }

  /** What a call leaves that failed at position `i`, having begun at `p`. */
  ghost predicate FailsAt(call: Call, run: RunId, r: Pass, p: nat, i: nat)
    requires p <= i < |call.definition.stages|
  {
    && r.ending == StageFailed(run, call.definition.stages[i]) && r.invoked == call.definition.stages[p..i + 1]
    && Prefix(r.tables, run, call.definition.stages, i)
  }

  lemma LastWrite(call: Call, run: RunId, reused: bool, t: Tables, counted: int, life: nat, invoked: seq<string>)
    requires Underway(call.definition, t, call.LogicalKey(), run, counted, |call.definition.stages|) && life > 0
    ensures var n := |call.definition.stages|;
            var r := Stages(call, run, reused, n, t, counted, life, invoked);
            && r == Pass(t.MarkRun(call.LogicalKey(), RunRow(run, Succeeded, counted)), Completed(run, reused, counted), invoked)
            && Prefix(r.tables, run, call.definition.stages, n)
  {
    var names, t' := call.definition.stages, t.MarkRun(call.LogicalKey(), RunRow(run, Succeeded, counted));
    hide Tables.SucceededCalls, Distinct;
    forall i | 0 <= i < |names| ensures t'.StageSucceeded(run, names[i]) { assert t.StageSucceeded(run, names[i]); }
  }

  lemma StagesComplete(call: Call, run: RunId, reused: bool, t: Tables, counted: int, life: nat, p: nat)
    requires Underway(call.definition, t, call.LogicalKey(), run, counted, p) && p <= |call.definition.stages|
    requires AllRecord(call, counted, p, |call.definition.stages|) && life >= 3 * (|call.definition.stages| - p) + 1
    ensures Completes(call, run, reused, Stages(call, run, reused, 0, t, counted, life, []), p,
                      counted + Returned(call, call.definition.stages[p..]))
  {
    hide Underway, AllRecord, Prefix, Stages, Returned;
    var n := |call.definition.stages|;
    KeyThere(call, run, t, counted, p);
    var t' := StagesReach(call, run, reused, 0, t, counted, life, [], p, n);
    assert call.definition.stages[p..n] == call.definition.stages[p..];
    assert [] + call.definition.stages[p..] == call.definition.stages[p..];
    LastWrite(call, run, reused, t', counted + Returned(call, call.definition.stages[p..]), life - 3 * (n - p),
              call.definition.stages[p..]);
  }

  lemma StagesFail(call: Call, run: RunId, reused: bool, t: Tables, counted: int, life: nat, p: nat, i: nat)
    requires Underway(call.definition, t, call.LogicalKey(), run, counted, p) && p <= i < |call.definition.stages|
    requires AllRecord(call, counted, p, i) && life >= 3 * (i - p) + 5
    requires !Records(call, call.definition.stages[i], counted + Returned(call, call.definition.stages[p..i]))
    ensures FailsAt(call, run, Stages(call, run, reused, 0, t, counted, life, []), p, i)
  {
    hide Underway, AllRecord, Prefix, Records, Attempt;
    var d := call.definition;
    KeyThere(call, run, t, counted, p);
    var t' := StagesReach(call, run, reused, 0, t, counted, life, [], p, i);
    var counted' := counted + Returned(call, d.stages[p..i]);
    KeyThere(call, run, t', counted', i);
    StageOwed(call, run, t', counted', i);
    UnrecordedAttempt(call, run, t', counted', life - 3 * (i - p), [] + d.stages[p..i], i);
    assert [] + d.stages[p..i] + [d.stages[i]] == d.stages[p..i + 1];
  }

  /** The rows a call finds for its key: the succeeded stages are the first `p`, worth `counted` calls. */
  ghost predicate Owed(call: Call, t: Tables, p: nat, counted: int) {
    var key := call.LogicalKey();
    && p <= |call.definition.stages| && key in t.runs && t.runs[key].status != Succeeded
    && Prefix(t, t.runs[key].runId, call.definition.stages, p)
    && counted == t.SucceededCalls(t.runs[key].runId, call.definition.stages)
  }

  lemma OwedUnderway(catalog: map<(string, string), Definition>, call: Call, t: Tables, p: nat, counted: int)
    requires Fixed(catalog) && Follows(catalog, call) && Valid(catalog, t) && Owed(call, t, p, counted)
    ensures var row := t.runs[call.LogicalKey()];
            Underway(call.definition, t.MarkRun(call.LogicalKey(), row.(status := Running)), call.LogicalKey(), row.runId, counted, p)
  {
    hide Valid, Underway, Advances, Fixed, Tables.SucceededCalls, Prefix;
    var row := t.runs[call.LogicalKey()];
    var q := Reopened(catalog, call.definition, t, call.LogicalKey(), row);
    PrefixUnique(t, row.runId, call.definition.stages, p, q);
  }

  /**
   From any valid tables in which a run is running or failed with its first `p` stages succeeded: a
   call with life for the owed stages, all of whose handlers are recorded within the budget, runs
   exactly the owed stages and completes with the exact sum, reusing the run.
   */
  lemma OwedRunCompletes(catalog: map<(string, string), Definition>, call: Call, t: Tables, p: nat, counted: int)
    requires Fixed(catalog) && Follows(catalog, call) && Valid(catalog, t) && Owed(call, t, p, counted)
    requires AllRecord(call, counted, p, |call.definition.stages|) && call.life >= 3 * (|call.definition.stages| - p) + 3
    ensures Completes(call, t.runs[call.LogicalKey()].runId, true, RunCall(call, t), p,
                      counted + Returned(call, call.definition.stages[p..]))
  {
    hide Valid, Fixed, Follows, Prefix, AllRecord, Underway, Completes, Stages;
    var row := t.runs[call.LogicalKey()];
    OwedUnderway(catalog, call, t, p, counted);
    StagesComplete(call, row.runId, true, t.MarkRun(call.LogicalKey(), row.(status := Running)), counted, call.life - 2, p);
  }

  /** The first owed stage whose handler raises, goes over the budget or cannot be recorded is where the call fails. */
  lemma OwedRunFails(catalog: map<(string, string), Definition>, call: Call, t: Tables, p: nat, counted: int, i: nat)
    requires Fixed(catalog) && Follows(catalog, call) && Valid(catalog, t) && Owed(call, t, p, counted)
    requires p <= i < |call.definition.stages| && AllRecord(call, counted, p, i) && call.life >= 3 * (i - p) + 7
    requires !Records(call, call.definition.stages[i], counted + Returned(call, call.definition.stages[p..i]))
    ensures FailsAt(call, t.runs[call.LogicalKey()].runId, RunCall(call, t), p, i)
  {
    hide Valid, Fixed, Follows, Prefix, AllRecord, Underway, FailsAt, Stages, Records;
    var row := t.runs[call.LogicalKey()];
    OwedUnderway(catalog, call, t, p, counted);
    StagesFail(call, row.runId, true, t.MarkRun(call.LogicalKey(), row.(status := Running)), counted, call.life - 2, p, i);
  }

  /** A call that completes an open run begins three writes and handlers for every stage it invokes, and three besides. */
  lemma CompletionTakesLife(call: Call, t: Tables)
    requires RunCall(call, t).ending.Completed?
    requires call.LogicalKey() in t.runs ==> t.runs[call.LogicalKey()].status != Succeeded
    ensures call.life >= 3 * |RunCall(call, t).invoked| + if call.LogicalKey() in t.runs then 3 else 4
  {
    hide Stages;
    var key := call.LogicalKey();
    var first := RunRow(call.FreshId(), Running, 0);
    var open := if key in t.runs then t else t.MarkRun(key, first);
    var row := open.runs[key];
    var life := if key in t.runs then call.life - 2 else call.life - 3;
    if life >= 0 {
      StagesTakeLife(call, row.runId, key in t.runs, 0, open.MarkRun(key, row.(status := Running)),
                     open.SucceededCalls(row.runId, call.definition.stages), life, []);
    }
  }

  lemma {:induction false} StagesTakeLife(call: Call, run: RunId, reused: bool, k: nat, t: Tables, counted: int, life: nat,
      invoked: seq<string>)
    requires call.LogicalKey() in t.runs && k <= |call.definition.stages|
    ensures var r := Stages(call, run, reused, k, t, counted, life, invoked);
            r.ending.Completed? ==> life >= 3 * (|r.invoked| - |invoked|) + 1
    decreases |call.definition.stages| - k
  {
    if k < |call.definition.stages| {
      var stage := call.definition.stages[k];
      var turn := Attempt(call, run, stage, t, counted, life, invoked);
      AttemptTakesLife(call, run, stage, t, counted, life, invoked);
      hide Attempt;
      if t.StageSucceeded(run, stage) {
        StagesTakeLife(call, run, reused, k + 1, t, counted, life, invoked);
      } else if turn.GoesOn? {
        StagesTakeLife(call, run, reused, k + 1, turn.tables, turn.counted, turn.life, turn.invoked);
      }
    }
  }

  lemma AttemptTakesLife(call: Call, run: RunId, stage: string, t: Tables, counted: int, life: nat, invoked: seq<string>)
    requires call.LogicalKey() in t.runs
    ensures match Attempt(call, run, stage, t, counted, life, invoked)
            case Ends(pass) => !pass.ending.Completed?
            case GoesOn(t', _, left, invoked') =>
              call.LogicalKey() in t'.runs && left == life - 3 && invoked' == invoked + [stage]
  {
  }

  lemma AttemptKeepsId(call: Call, run: RunId, stage: string, t: Tables, counted: int, life: nat, invoked: seq<string>)
    requires call.LogicalKey() in t.runs && t.runs[call.LogicalKey()].runId == run
    ensures match Attempt(call, run, stage, t, counted, life, invoked)
            case Ends(pass) => call.LogicalKey() in pass.tables.runs && pass.tables.runs[call.LogicalKey()].runId == run
            case GoesOn(t', _, _, _) => call.LogicalKey() in t'.runs && t'.runs[call.LogicalKey()].runId == run
  {
  }

  lemma {:induction false} StagesKeepId(call: Call, run: RunId, reused: bool, k: nat, t: Tables, counted: int, life: nat,
      invoked: seq<string>)
    requires call.LogicalKey() in t.runs && t.runs[call.LogicalKey()].runId == run && k <= |call.definition.stages|
    ensures var r := Stages(call, run, reused, k, t, counted, life, invoked);
            call.LogicalKey() in r.tables.runs && r.tables.runs[call.LogicalKey()].runId == run
            && r.ending != IdTaken
    decreases |call.definition.stages| - k
  {
    if k < |call.definition.stages| {
      var stage := call.definition.stages[k];
      var turn := Attempt(call, run, stage, t, counted, life, invoked);
      AttemptKeepsId(call, run, stage, t, counted, life, invoked);
      AttemptNeverRefuses(call, run, stage, t, counted, life, invoked);
      hide Attempt;
      if t.StageSucceeded(run, stage) {
        StagesKeepId(call, run, reused, k + 1, t, counted, life, invoked);
      } else if turn.GoesOn? {
        StagesKeepId(call, run, reused, k + 1, turn.tables, turn.counted, turn.life, turn.invoked);
      }
    }
  }

  lemma AttemptNeverRefuses(call: Call, run: RunId, stage: string, t: Tables, counted: int, life: nat, invoked: seq<string>)
    requires call.LogicalKey() in t.runs
    ensures var turn := Attempt(call, run, stage, t, counted, life, invoked); turn.Ends? ==> turn.pass.ending != IdTaken
  {
  }

  /** `id` is the one asked for, or a generated one when none, or an empty one, is. */
  predicate IsFresh(call: Call, id: RunId) {
    match call.requested
    case Some(asked) => id == if asked == "" then call.generated else asked
    case None => id == call.generated
  }

  /** A key never run is bound to that id, unless the process dies first or another key's row has it, which is refused. */
  lemma ClaimBinds(call: Call, t: Tables) returns (id: RunId)
    requires call.LogicalKey() !in t.runs
    ensures IsFresh(call, id)
    ensures var r, key, taken := RunCall(call, t), call.LogicalKey(), exists other :: other in t.runs && t.runs[other].runId == id;
            && (r.ending == IdTaken <==> call.life >= 1 && taken)
            && (r.ending == IdTaken ==> r.tables == t)
            && (key in r.tables.runs <==> call.life >= 2 && !taken)
            && (key in r.tables.runs ==> r.tables.runs[key].runId == id)
  {
    id := call.FreshId();
    hide Stages;
    if call.life >= 3 && !t.Bound(id) {
      var row := RunRow(id, Running, 0);
      var t1 := t.MarkRun(call.LogicalKey(), row);
      StagesKeepId(call, id, false, 0, t1.MarkRun(call.LogicalKey(), row),
                   t1.SucceededCalls(id, call.definition.stages), call.life - 3, []);
    }
  }

  /** A key never run: the claim makes it a run that owes every stage. */
  lemma FreshUnderway(catalog: map<(string, string), Definition>, call: Call, t: Tables)
    requires Fixed(catalog) && Follows(catalog, call) && Valid(catalog, t)
    requires call.LogicalKey() !in t.runs && !t.Bound(call.FreshId())
    ensures Underway(call.definition, t.MarkRun(call.LogicalKey(), RunRow(call.FreshId(), Running, 0)), call.LogicalKey(),
                     call.FreshId(), 0, 0)
  {
    var run := call.FreshId();
    var t1 := t.MarkRun(call.LogicalKey(), RunRow(run, Running, 0));
    forall name ensures !t1.StageSucceeded(run, name) { assert (run, name) !in t.stages; }
    CallsZero(t1, run, call.definition.stages);
  }

  lemma FreshResumes(catalog: map<(string, string), Definition>, call: Call, t: Tables)
    requires Fixed(catalog) && Follows(catalog, call) && Valid(catalog, t) && call.life >= 3
    requires call.LogicalKey() !in t.runs && !t.Bound(call.FreshId())
    ensures var t1 := t.MarkRun(call.LogicalKey(), RunRow(call.FreshId(), Running, 0));
            && Underway(call.definition, t1, call.LogicalKey(), call.FreshId(), 0, 0)
            && RunCall(call, t) == Stages(call, call.FreshId(), false, 0, t1, 0, call.life - 3, [])
  {
    hide Valid, Fixed, Follows, Stages, Tables.Bound;
    FreshUnderway(catalog, call, t);
    var row := RunRow(call.FreshId(), Running, 0);
    var t1 := t.MarkRun(call.LogicalKey(), row);
    assert t1.MarkRun(call.LogicalKey(), row.(status := Running)) == t1;
  }

  lemma FreshRunCompletes(catalog: map<(string, string), Definition>, call: Call, t: Tables)
    requires Fixed(catalog) && Follows(catalog, call) && Valid(catalog, t)
    requires call.LogicalKey() !in t.runs && !t.Bound(call.FreshId())
    requires AllRecord(call, 0, 0, |call.definition.stages|) && call.life >= 3 * |call.definition.stages| + 4
    ensures Completes(call, call.FreshId(), false, RunCall(call, t), 0, Returned(call, call.definition.stages))
  {
    hide Valid, Fixed, Follows, AllRecord, Underway, Completes, Stages, RunCall;
    FreshResumes(catalog, call, t);
    StagesComplete(call, call.FreshId(), false, t.MarkRun(call.LogicalKey(), RunRow(call.FreshId(), Running, 0)), 0,
                   call.life - 3, 0);
    assert call.definition.stages[0..] == call.definition.stages;
  }

  lemma FreshRunFails(catalog: map<(string, string), Definition>, call: Call, t: Tables, i: nat)
    requires Fixed(catalog) && Follows(catalog, call) && Valid(catalog, t)
    requires call.LogicalKey() !in t.runs && !t.Bound(call.FreshId())
    requires i < |call.definition.stages| && AllRecord(call, 0, 0, i) && call.life >= 3 * i + 8
    requires !Records(call, call.definition.stages[i], Returned(call, call.definition.stages[0..i]))
    ensures FailsAt(call, call.FreshId(), RunCall(call, t), 0, i)
  {
    hide Valid, Fixed, Follows, AllRecord, Underway, FailsAt, Stages, RunCall, Records;
    FreshResumes(catalog, call, t);
    StagesFail(call, call.FreshId(), false, t.MarkRun(call.LogicalKey(), RunRow(call.FreshId(), Running, 0)), 0,
               call.life - 3, 0, i);
  }

  /**
   Whatever calls came before, however they failed or died: a run they left open owes a tail of its
   stages, and one call that can record that tail completes it.
   */
  lemma LeftOpenCanComplete(catalog: map<(string, string), Definition>, calls: seq<Call>, call: Call)
    returns (p: nat, counted: int)
    requires Fixed(catalog) && AllFollow(catalog, calls) && Follows(catalog, call)
    requires var t := RunAll(calls, EMPTY); call.LogicalKey() in t.runs && t.runs[call.LogicalKey()].status != Succeeded
    ensures Owed(call, RunAll(calls, EMPTY), p, counted)
    ensures AllRecord(call, counted, p, |call.definition.stages|) && call.life >= 3 * (|call.definition.stages| - p) + 3 ==>
              Completes(call, RunAll(calls, EMPTY).runs[call.LogicalKey()].runId, true, RunCall(call, RunAll(calls, EMPTY)), p,
                        counted + Returned(call, call.definition.stages[p..]))
  {
    AnySequence(catalog, calls, EMPTY);
    var t, key := RunAll(calls, EMPTY), call.LogicalKey();
    p := OwedAt(catalog, call, t);
    counted := t.SucceededCalls(t.runs[key].runId, call.definition.stages);
    hide Completes, AllRecord, RunAll, Prefix, Valid, RunCall;
    if AllRecord(call, counted, p, |call.definition.stages|) && call.life >= 3 * (|call.definition.stages| - p) + 3 {
      OwedRunCompletes(catalog, call, t, p, counted);
    }
  }

  lemma OwedAt(catalog: map<(string, string), Definition>, call: Call, t: Tables) returns (p: nat)
    requires Follows(catalog, call) && Valid(catalog, t) && call.LogicalKey() in t.runs
    ensures Prefix(t, t.runs[call.LogicalKey()].runId, call.definition.stages, p)
  {
    p :| RunAt(call.definition, t, t.runs[call.LogicalKey()], p);
  }
}
