/**
 The managed pipeline runtime: logical idempotency by key, durable stages that resume,
 and a budget of source calls. The control tables are maps; every SQL write commits on
 its own, so the process may die between any two of them, or inside a handler. A call's
 `life` is the number of writes and handler invocations it gets to begin before it dies.
 */
module Pipeline {
  import opened Names
  import opened Wrappers

  type RunId = string

  /** The logical key; the digest the program stores is taken as injective in these five. */
  datatype Key = Key(pipelineId: string, version: string, logicalDate: int, slot: string, partition: string)

  datatype Definition = Definition(pipelineId: string, version: string, stages: seq<string>, budget: int)

  datatype Status = Running | Failed | Succeeded

  datatype RunRow = RunRow(runId: RunId, status: Status, sourceCalls: int)

  datatype StageRow = StageRow(status: Status, attempt: nat, sourceCalls: int)

  datatype Tables = Tables(runs: map<Key, RunRow>, stages: map<(RunId, string), StageRow>) {
    predicate StageSucceeded(run: RunId, stage: string) {
      (run, stage) in stages && stages[(run, stage)].status == Succeeded
    }

    function Calls(run: RunId, stage: string): int {
      if StageSucceeded(run, stage) then stages[(run, stage)].sourceCalls else 0
    }

    /** The sum over the succeeded rows of a run, in stage order. */
    function SucceededCalls(run: RunId, names: seq<string>): int {
      if names == [] then 0
      else SucceededCalls(run, names[..|names| - 1]) + Calls(run, names[|names| - 1])
    }

    function MarkStage(run: RunId, stage: string, row: StageRow): Tables {
      this.(stages := stages[(run, stage) := row])
    }

    function MarkRun(key: Key, row: RunRow): Tables {
      this.(runs := runs[key := row])
    }

    predicate Bound(run: RunId) {
      exists key :: key in runs && runs[key].runId == run
    }
  }

  const EMPTY := Tables(map[], map[])

  /** Writing the evidence of a finished stage: the row's UPDATE, then the INSERTs of details. */
  datatype Evidence = Recorded | UpdateRaises | InsertRaises

  datatype Handling = Raises | Returns(calls: int, evidence: Evidence)

  datatype Ending =
    | Completed(runId: RunId, reused: bool, sourceCalls: int)
    | StageFailed(runId: RunId, stage: string)
    | IdTaken
    | Crashed

  datatype Pass = Pass(tables: Tables, ending: Ending, invoked: seq<string>)

  datatype Call = Call(
    definition: Definition, logicalDate: int, slot: string, partition: string,
    requested: Option<RunId>, generated: RunId, handle: string -> Handling, life: nat)
  {
    function LogicalKey(): Key {
      Key(definition.pipelineId, definition.version, logicalDate, slot, partition)
    }

    /** An empty requested id counts as none. */
    function FreshId(): RunId {
      if requested.Some? && requested.value != "" then requested.value else generated
    }
  }

  // ---------------------------------------------------- specification

  /** The `except` branch: the stage row, then the run row with the calls counted so far. */
  function FailStage(call: Call, run: RunId, stage: string, t: Tables, counted: int, life: nat,
      invoked: seq<string>): Pass
    requires call.LogicalKey() in t.runs && (run, stage) in t.stages
  {
    if life == 0 then Pass(t, Crashed, invoked)
    else
      var t1 := t.MarkStage(run, stage, t.stages[(run, stage)].(status := Failed));
      if life == 1 then Pass(t1, Crashed, invoked)
      else Pass(t1.MarkRun(call.LogicalKey(), RunRow(run, Failed, counted)), StageFailed(run, stage), invoked)
  }

  /** After one owed stage the loop either ends here or goes on. */
  datatype Turn = Ends(pass: Pass) | GoesOn(tables: Tables, counted: int, life: nat, invoked: seq<string>)

  function Restarted(t: Tables, run: RunId, stage: string): StageRow {
    if (run, stage) in t.stages then StageRow(Running, t.stages[(run, stage)].attempt + 1, t.stages[(run, stage)].sourceCalls)
    else StageRow(Running, 1, 0)
  }

  /** The handler returned or raised: check the budget, count, and record the evidence. */
  function Conclude(call: Call, run: RunId, stage: string, t: Tables, counted: int, life: nat, begun: seq<string>): Turn
    requires call.LogicalKey() in t.runs && (run, stage) in t.stages && life > 0
  {
    match call.handle(stage)
    case Raises => Ends(FailStage(call, run, stage, t, counted, life, begun))
    case Returns(calls, evidence) =>
      if counted + calls > call.definition.budget then Ends(FailStage(call, run, stage, t, counted, life, begun))
      else if evidence == UpdateRaises then Ends(FailStage(call, run, stage, t, counted + calls, life, begun))
      else
        var recorded := t.MarkStage(run, stage, t.stages[(run, stage)].(status := Succeeded, sourceCalls := calls));
        if evidence == InsertRaises then Ends(FailStage(call, run, stage, recorded, counted + calls, life - 1, begun))
        else GoesOn(recorded, counted + calls, life - 1, begun)
  }

  function Attempt(call: Call, run: RunId, stage: string, t: Tables, counted: int, life: nat,
      invoked: seq<string>): Turn
    requires call.LogicalKey() in t.runs
  {
    if life == 0 then Ends(Pass(t, Crashed, invoked))
    else
      var begun := t.MarkStage(run, stage, Restarted(t, run, stage));
      if life == 1 then Ends(Pass(begun, Crashed, invoked))
      else if life == 2 then Ends(Pass(begun, Crashed, invoked + [stage]))
      else Conclude(call, run, stage, begun, counted, life - 2, invoked + [stage])
  }

  /** The stage loop from position `k` on. */
  function Stages(call: Call, run: RunId, reused: bool, k: nat, t: Tables, counted: int, life: nat,
      invoked: seq<string>): Pass
    requires call.LogicalKey() in t.runs && k <= |call.definition.stages|
    decreases |call.definition.stages| - k
  {
    if k == |call.definition.stages| then
      if life == 0 then Pass(t, Crashed, invoked)
      else Pass(t.MarkRun(call.LogicalKey(), RunRow(run, Succeeded, counted)), Completed(run, reused, counted), invoked)
    else
      var stage := call.definition.stages[k];
      if t.StageSucceeded(run, stage) then Stages(call, run, reused, k + 1, t, counted, life, invoked)
      else
        match Attempt(call, run, stage, t, counted, life, invoked)
        case Ends(pass) => pass
        case GoesOn(t', counted', life', invoked') =>
          if call.LogicalKey() in t'.runs then Stages(call, run, reused, k + 1, t', counted', life', invoked')
          else assert false; Pass(t', Crashed, invoked')
  }

  /** One `run` call: register the definition, claim the run, then the stages that are still owed. */
  function RunCall(call: Call, t: Tables): Pass {
    var key := call.LogicalKey();
    if call.life == 0 then Pass(t, Crashed, [])
    else if key in t.runs then Resume(call, t, t.runs[key], true, call.life - 1)
    else if t.Bound(call.FreshId()) then Pass(t, IdTaken, [])
    else if call.life == 1 then Pass(t, Crashed, [])
    else
      var row := RunRow(call.FreshId(), Running, 0);
      Resume(call, t.MarkRun(key, row), row, false, call.life - 2)
  }

  function Resume(call: Call, t: Tables, row: RunRow, reused: bool, life: nat): Pass
    requires call.LogicalKey() in t.runs
  {
    if row.status == Succeeded then Pass(t, Completed(row.runId, true, row.sourceCalls), [])
    else if life == 0 then Pass(t, Crashed, [])
    else
      var t1 := t.MarkRun(call.LogicalKey(), row.(status := Running));
      var counted := t.SucceededCalls(row.runId, call.definition.stages);
      Stages(call, row.runId, reused, 0, t1, counted, life - 1, [])
  }

  // ------------------------------------------------------- invariants

  /** The succeeded stages are exactly the first `p`. */
  ghost predicate Prefix(t: Tables, run: RunId, names: seq<string>, p: nat) {
    p <= |names| && forall i :: 0 <= i < |names| ==> (t.StageSucceeded(run, names[i]) <==> i < p)
  }

  /** One definition per pipeline version, with uniquely named stages. */
  ghost predicate Fixed(catalog: map<(string, string), Definition>) {
    forall id :: id in catalog ==>
      catalog[id].pipelineId == id.0 && catalog[id].version == id.1 && Distinct(catalog[id].stages)
  }

  ghost predicate Follows(catalog: map<(string, string), Definition>, call: Call) {
    var id := (call.definition.pipelineId, call.definition.version);
    id in catalog && catalog[id] == call.definition
  }

  /** What a run's rows satisfy against its definition. */
  ghost predicate RunOk(d: Definition, t: Tables, row: RunRow) {
    exists p :: RunAt(d, t, row, p)
  }

  ghost predicate RunAt(d: Definition, t: Tables, row: RunRow, p: nat) {
    && Prefix(t, row.runId, d.stages, p)
    && (p > 0 ==> t.SucceededCalls(row.runId, d.stages) <= d.budget)
    && (row.status == Succeeded ==>
          p == |d.stages| && row.sourceCalls == t.SucceededCalls(row.runId, d.stages))
  }

  ghost predicate Valid(catalog: map<(string, string), Definition>, t: Tables) {
    && (forall key :: key in t.runs ==>
          (key.pipelineId, key.version) in catalog && RunOk(catalog[(key.pipelineId, key.version)], t, t.runs[key]))
    && (forall k1, k2 :: k1 in t.runs && k2 in t.runs && t.runs[k1].runId == t.runs[k2].runId ==> k1 == k2)
    && (forall at :: at in t.stages ==> t.Bound(at.0))
  }

  // -------------------------------------------------------- one stage loop

  lemma {:induction false} CallsUnchanged(t: Tables, t': Tables, run: RunId, names: seq<string>)
    requires forall i :: 0 <= i < |names| ==> t'.Calls(run, names[i]) == t.Calls(run, names[i])
    ensures t'.SucceededCalls(run, names) == t.SucceededCalls(run, names)
  {
    if names != [] {
      CallsUnchanged(t, t', run, names[..|names| - 1]);
    }
  }

  lemma {:induction false} CallsAfterMark(t: Tables, run: RunId, names: seq<string>, p: nat, row: StageRow)
    requires Distinct(names) && p < |names|
    ensures var t' := t.MarkStage(run, names[p], row);
            t'.SucceededCalls(run, names) ==
              t.SucceededCalls(run, names) - t.Calls(run, names[p]) + t'.Calls(run, names[p])
  {
    var t' := t.MarkStage(run, names[p], row);
    var n := |names| - 1;
    if p < n {
      CallsAfterMark(t, run, names[..n], p, row);
    } else {
      CallsUnchanged(t, t', run, names[..n]);
    }
  }

  /** A step on one run leaves every other run alone and never loses a succeeded stage. */
  ghost predicate Advances(t: Tables, t': Tables, key: Key, run: RunId, names: seq<string>) {
    && t'.runs.Keys == t.runs.Keys
    && (forall other :: other in t.runs && other != key ==> t'.runs[other] == t.runs[other])
    && (key in t.runs ==> t'.runs[key].runId == t.runs[key].runId)
    && (forall at :: at in t.stages ==> at in t'.stages)
    && (forall at :: at in t'.stages ==> at in t.stages || (at.0 == run && at.1 in names))
    && (forall at :: at in t.stages && (at.0 != run || t.stages[at].status == Succeeded) ==> t'.stages[at] == t.stages[at])
  }

  /** The state of one run inside the stage loop. */
  ghost predicate Underway(d: Definition, t: Tables, key: Key, run: RunId, counted: int, p: nat) {
    && key in t.runs && t.runs[key].runId == run && t.runs[key].status != Succeeded
    && Distinct(d.stages) && Prefix(t, run, d.stages, p)
    && counted == t.SucceededCalls(run, d.stages)
    && (p > 0 ==> counted <= d.budget)
  }

  /** Marking the first stage that has not succeeded. */
  lemma MarkNext(d: Definition, t: Tables, key: Key, run: RunId, counted: int, p: nat, row: StageRow)
    requires Underway(d, t, key, run, counted, p) && p < |d.stages|
    requires row.status == Succeeded ==> counted + row.sourceCalls <= d.budget
    ensures var t' := t.MarkStage(run, d.stages[p], row);
            && Advances(t, t', key, run, d.stages)
            && (if row.status == Succeeded then Underway(d, t', key, run, counted + row.sourceCalls, p + 1)
                else Underway(d, t', key, run, counted, p))
  {
    CallsAfterMark(t, run, d.stages, p, row);
  }

  lemma Onward(t0: Tables, t1: Tables, t2: Tables, key: Key, run: RunId, names: seq<string>)
    requires Advances(t0, t1, key, run, names) && Advances(t1, t2, key, run, names)
    ensures Advances(t0, t2, key, run, names)
  {
  }

  /**
   The `except` branch after the stage's row was left running, or even marked succeeded: the
   stage counts as failed unless the process dies before the branch's first write.
   */
  lemma FailNext(call: Call, t0: Tables, run: RunId, counted: int, p: nat, row: StageRow, charged: int,
      life: nat, begun: seq<string>)
    returns (p': nat)
    requires Underway(call.definition, t0, call.LogicalKey(), run, counted, p) && p < |call.definition.stages|
    requires row.status == Succeeded ==> counted + row.sourceCalls <= call.definition.budget
    ensures var d, key, stage := call.definition, call.LogicalKey(), call.definition.stages[p];
            var r := FailStage(call, run, stage, t0.MarkStage(run, stage, row), charged, life, begun);
            && !r.ending.Completed? && r.invoked == begun
            && Advances(t0, r.tables, key, run, d.stages)
            && p <= p' <= p + 1
            && Underway(d, r.tables, key, run, r.tables.SucceededCalls(run, d.stages), p')
  {
    var d, key, stage := call.definition, call.LogicalKey(), call.definition.stages[p];
    var t := t0.MarkStage(run, stage, row);
    var r := FailStage(call, run, stage, t, charged, life, begun);
    if life == 0 {
      MarkNext(d, t0, key, run, counted, p, row);
      return if row.status == Succeeded then p + 1 else p;
    }
    var failed := row.(status := Failed);
    var t1 := t.MarkStage(run, stage, failed);
    assert t1 == t0.MarkStage(run, stage, failed);
    MarkNext(d, t0, key, run, counted, p, failed);
    p' := p;
    if life > 1 {
      CallsUnchanged(t1, r.tables, run, d.stages);
      assert Underway(d, r.tables, key, run, counted, p);
    }
  }

  /**
   From the first `p` stages succeeded to the first `p'`: the handlers invoked in between are
   the stages from `p` on, in order, and only the last of them may have been left unsucceeded.
   */
  ghost predicate Ran(call: Call, run: RunId, reused: bool, t: Tables, p: nat, invoked: seq<string>, r: Pass, p': nat, q: nat) {
    var d, key := call.definition, call.LogicalKey();
    && p <= p' <= q <= p' + 1 && q <= |d.stages|
    && r.invoked == invoked + d.stages[p..q]
    && Advances(t, r.tables, key, run, d.stages)
    && Prefix(r.tables, run, d.stages, p')
    && (p' > 0 ==> r.tables.SucceededCalls(run, d.stages) <= d.budget)
    && key in r.tables.runs
    && (if r.ending.Completed? then
          && p' == q == |d.stages|
          && r.ending == Completed(run, reused, r.tables.SucceededCalls(run, d.stages))
          && r.tables.runs[key] == RunRow(run, Succeeded, r.ending.sourceCalls)
        else r.tables.runs[key].status != Succeeded)
  }

  lemma RanFailing(call: Call, run: RunId, reused: bool, t: Tables, counted: int, p: nat, row: StageRow,
      charged: int, life: nat, invoked: seq<string>)
    returns (p': nat)
    requires Underway(call.definition, t, call.LogicalKey(), run, counted, p) && p < |call.definition.stages|
    requires row.status == Succeeded ==> counted + row.sourceCalls <= call.definition.budget
    ensures var stage := call.definition.stages[p];
            var r := FailStage(call, run, stage, t.MarkStage(run, stage, row), charged, life, invoked + [stage]);
            Ran(call, run, reused, t, p, invoked, r, p', p + 1)
  {
    var stage := call.definition.stages[p];
    p' := FailNext(call, t, run, counted, p, row, charged, life, invoked + [stage]);
    assert call.definition.stages[p..p + 1] == [stage];
  }

  lemma RanOnward(call: Call, run: RunId, reused: bool, t: Tables, counted: int, p: nat, row: StageRow,
      invoked: seq<string>, r: Pass, p': nat, q: nat)
    requires Underway(call.definition, t, call.LogicalKey(), run, counted, p) && p < |call.definition.stages|
    requires row.status == Succeeded && counted + row.sourceCalls <= call.definition.budget
    requires var stage := call.definition.stages[p];
             Ran(call, run, reused, t.MarkStage(run, stage, row), p + 1, invoked + [stage], r, p', q)
    ensures Ran(call, run, reused, t, p, invoked, r, p', q)
  {
    hide Advances, Prefix, Distinct;
    var d, key, stage := call.definition, call.LogicalKey(), call.definition.stages[p];
    MarkNext(d, t, key, run, counted, p, row);
    Onward(t, t.MarkStage(run, stage, row), r.tables, key, run, d.stages);
    assert d.stages[p..q] == [stage] + d.stages[p + 1..q];
  }

  lemma RanIdle(call: Call, run: RunId, reused: bool, t: Tables, counted: int, p: nat, invoked: seq<string>,
      row: StageRow)
    requires Underway(call.definition, t, call.LogicalKey(), run, counted, p) && p < |call.definition.stages|
    requires row.status != Succeeded
    ensures var stage := call.definition.stages[p];
            var t1 := t.MarkStage(run, stage, row);
            && Ran(call, run, reused, t, p, invoked, Pass(t, Crashed, invoked), p, p)
            && Ran(call, run, reused, t, p, invoked, Pass(t1, Crashed, invoked), p, p)
            && Ran(call, run, reused, t, p, invoked, Pass(t1, Crashed, invoked + [stage]), p, p + 1)
  {
    MarkNext(call.definition, t, call.LogicalKey(), run, counted, p, row);
    assert call.definition.stages[p..p + 1] == [call.definition.stages[p]];
  }

  lemma RanDone(call: Call, run: RunId, reused: bool, t: Tables, counted: int, life: nat, invoked: seq<string>)
    requires Underway(call.definition, t, call.LogicalKey(), run, counted, |call.definition.stages|)
    ensures var n := |call.definition.stages|;
            Ran(call, run, reused, t, n, invoked, Stages(call, run, reused, n, t, counted, life, invoked), n, n)
  {
    var n := |call.definition.stages|;
    CallsUnchanged(t, Stages(call, run, reused, n, t, counted, life, invoked).tables, run, call.definition.stages);
  }

  /** One owed stage: either the loop ends with the run still open, or one more stage has succeeded. */
  lemma AttemptRuns(call: Call, run: RunId, reused: bool, t: Tables, counted: int, life: nat,
      invoked: seq<string>, p: nat)
    returns (p': nat, q: nat)
    requires Underway(call.definition, t, call.LogicalKey(), run, counted, p) && p < |call.definition.stages|
    ensures var stage := call.definition.stages[p];
            match Attempt(call, run, stage, t, counted, life, invoked)
            case Ends(pass) => Ran(call, run, reused, t, p, invoked, pass, p', q)
            case GoesOn(t', counted', _, invoked') =>
              var row := StageRow(Succeeded, Restarted(t, run, stage).attempt, counted' - counted);
              t' == t.MarkStage(run, stage, row) && invoked' == invoked + [stage] && counted' <= call.definition.budget
  {
    hide Ran, Advances, Distinct, Prefix;
    var d, stage := call.definition, call.definition.stages[p];
    var row := Restarted(t, run, stage);
    RanIdle(call, run, reused, t, counted, p, invoked, row);
    p', q := p, if life == 2 then p + 1 else p;
    if life > 2 {
      q := p + 1;
      match call.handle(stage)
      case Raises =>
        p' := RanFailing(call, run, reused, t, counted, p, row, counted, life - 2, invoked);
      case Returns(calls, evidence) =>
        if counted + calls > d.budget {
          p' := RanFailing(call, run, reused, t, counted, p, row, counted, life - 2, invoked);
        } else if evidence == UpdateRaises {
          p' := RanFailing(call, run, reused, t, counted, p, row, counted + calls, life - 2, invoked);
        } else {
          var done := row.(status := Succeeded, sourceCalls := calls);
          assert t.MarkStage(run, stage, row).MarkStage(run, stage, done) == t.MarkStage(run, stage, done);
          if evidence == InsertRaises {
            p' := RanFailing(call, run, reused, t, counted, p, done, counted + calls, life - 3, invoked);
          }
        }
    }
  }

  /** What a pass that ended in the `except` branch leaves in the run's row. */
  ghost predicate FailedAs(call: Call, run: RunId, r: Pass)
    requires r.ending.StageFailed?
  {
    var key, h, succeeded := call.LogicalKey(), call.handle(r.ending.stage), r.tables.SucceededCalls(run, call.definition.stages);
    && r.ending.runId == run && key in r.tables.runs
    && r.tables.runs[key] ==
         RunRow(run, Failed, succeeded + if h.Returns? && succeeded + h.calls <= call.definition.budget then h.calls else 0)
  }

  lemma AttemptFailedAs(call: Call, run: RunId, t: Tables, counted: int, life: nat, invoked: seq<string>, p: nat)
    requires Underway(call.definition, t, call.LogicalKey(), run, counted, p) && p < |call.definition.stages|
    requires Attempt(call, run, call.definition.stages[p], t, counted, life, invoked).Ends?
    requires Attempt(call, run, call.definition.stages[p], t, counted, life, invoked).pass.ending.StageFailed?
    ensures FailedAs(call, run, Attempt(call, run, call.definition.stages[p], t, counted, life, invoked).pass)
  {
    hide Prefix, Distinct, Advances, Restarted;
    var d, key, stage := call.definition, call.LogicalKey(), call.definition.stages[p];
    var t' := Attempt(call, run, stage, t, counted, life, invoked).pass.tables;
    var row := t'.stages[(run, stage)];
    var t1 := t.MarkStage(run, stage, row);
    MarkNext(d, t, key, run, counted, p, row);
    assert t' == t1.MarkRun(key, t'.runs[key]);
    CallsUnchanged(t1, t', run, d.stages);
  }

  lemma {:induction false} StagesFailedAs(call: Call, run: RunId, reused: bool, k: nat, t: Tables, counted: int,
      life: nat, invoked: seq<string>, p: nat)
    requires Underway(call.definition, t, call.LogicalKey(), run, counted, p) && k <= p
    requires Stages(call, run, reused, k, t, counted, life, invoked).ending.StageFailed?
    ensures FailedAs(call, run, Stages(call, run, reused, k, t, counted, life, invoked))
    decreases |call.definition.stages| - k
  {
    hide Advances, Distinct, FailedAs, Attempt;
    if k < p {
      StagesFailedAs(call, run, reused, k + 1, t, counted, life, invoked, p);
    } else {
      var stage := call.definition.stages[p];
      var _, _ := AttemptRuns(call, run, reused, t, counted, life, invoked, p);
      var turn := Attempt(call, run, stage, t, counted, life, invoked);
      if turn.Ends? {
        AttemptFailedAs(call, run, t, counted, life, invoked, p);
      } else {
        var row := StageRow(Succeeded, Restarted(t, run, stage).attempt, turn.counted - counted);
        MarkNext(call.definition, t, call.LogicalKey(), run, counted, p, row);
        StagesFailedAs(call, run, reused, k + 1, turn.tables, turn.counted, turn.life, turn.invoked, p + 1);
      }
    }
  }

  /** What the whole stage loop does to one run, whatever fails or dies in it. */
  lemma {:induction false} StagesRun(call: Call, run: RunId, reused: bool, k: nat, t: Tables, counted: int,
      life: nat, invoked: seq<string>, p: nat)
    returns (p': nat, q: nat)
    requires Underway(call.definition, t, call.LogicalKey(), run, counted, p) && k <= p
    ensures Ran(call, run, reused, t, p, invoked, Stages(call, run, reused, k, t, counted, life, invoked), p', q)
    decreases |call.definition.stages| - k
  {
    hide Ran, Advances, Distinct;
    if k == |call.definition.stages| {
      RanDone(call, run, reused, t, counted, life, invoked);
      return p, p;
    }
    if k < p {
      p', q := StagesRun(call, run, reused, k + 1, t, counted, life, invoked, p);
      return;
    }
    p', q := AttemptRuns(call, run, reused, t, counted, life, invoked, p);
    var stage := call.definition.stages[p];
    var turn := Attempt(call, run, stage, t, counted, life, invoked);
    if turn.GoesOn? {
      var row := StageRow(Succeeded, Restarted(t, run, stage).attempt, turn.counted - counted);
      MarkNext(call.definition, t, call.LogicalKey(), run, counted, p, row);
      p', q := StagesRun(call, run, reused, k + 1, turn.tables, turn.counted, turn.life, turn.invoked, p + 1);
      RanOnward(call, run, reused, t, counted, p, row, invoked,
                Stages(call, run, reused, k + 1, turn.tables, turn.counted, turn.life, turn.invoked), p', q);
    }
  }

  // ------------------------------------------------------ one `run` call

  lemma OtherRunsKept(catalog: map<(string, string), Definition>, t: Tables, t': Tables, key: Key, run: RunId,
      names: seq<string>, other: Key)
    requires Valid(catalog, t) && Advances(t, t', key, run, names) && key in t.runs && t.runs[key].runId == run
    requires other in t.runs && other != key
    ensures RunOk(catalog[(other.pipelineId, other.version)], t', t'.runs[other])
  {
    var d, row := catalog[(other.pipelineId, other.version)], t.runs[other];
    var p :| RunAt(d, t, row, p);
    assert row.runId != run;
    forall name ensures t'.StageSucceeded(row.runId, name) <==> t.StageSucceeded(row.runId, name) {
    }
    CallsUnchanged(t, t', row.runId, d.stages);
    assert RunAt(d, t', row, p);
  }

  lemma ValidAfter(catalog: map<(string, string), Definition>, t: Tables, t': Tables, key: Key, p': nat)
    requires Valid(catalog, t) && key in t.runs
    requires var d := catalog[(key.pipelineId, key.version)];
             Advances(t, t', key, t.runs[key].runId, d.stages) && RunAt(d, t', t'.runs[key], p')
    ensures Valid(catalog, t')
  {
    hide RunAt, Tables.Bound, Prefix, Tables.SucceededCalls;
    var d, run := catalog[(key.pipelineId, key.version)], t.runs[key].runId;
    StagesBound(catalog, t, t', key, run, d.stages);
    OneRunEach(catalog, t, t', key, run, d.stages);
    assert RunOk(d, t', t'.runs[key]);
    hide RunOk;
    forall other | other in t'.runs ensures RunOk(catalog[(other.pipelineId, other.version)], t', t'.runs[other]) {
      if other != key { OtherRunsKept(catalog, t, t', key, run, d.stages, other); }
    }
    hide Advances;
  }

  lemma OneRunEach(catalog: map<(string, string), Definition>, t: Tables, t': Tables, key: Key, run: RunId, names: seq<string>)
    requires Valid(catalog, t) && Advances(t, t', key, run, names) && key in t.runs
    ensures forall k1, k2 :: k1 in t'.runs && k2 in t'.runs && t'.runs[k1].runId == t'.runs[k2].runId ==> k1 == k2
    ensures forall k :: k in t'.runs ==> (k.pipelineId, k.version) in catalog
  {
    hide RunOk, Tables.Bound;
    forall k | k in t'.runs ensures k in t.runs && t'.runs[k].runId == t.runs[k].runId {}
  }

  lemma StagesBound(catalog: map<(string, string), Definition>, t: Tables, t': Tables, key: Key, run: RunId,
      names: seq<string>)
    requires Valid(catalog, t) && Advances(t, t', key, run, names) && key in t.runs && t.runs[key].runId == run
    ensures forall at :: at in t'.stages ==> t'.Bound(at.0)
  {
    hide RunOk;
    forall at | at in t'.stages ensures t'.Bound(at.0) {
      if at in t.stages {
        var k :| k in t.runs && t.runs[k].runId == at.0;
        assert k in t'.runs && t'.runs[k].runId == at.0;
      } else {
        assert t'.runs[key].runId == at.0;
      }
    }
  }

  /** Nothing that has succeeded, run or stage, is touched again; runs keep their ids. */
  ghost predicate Durable(t: Tables, t': Tables) {
    && (forall key :: key in t.runs ==> key in t'.runs && t'.runs[key].runId == t.runs[key].runId)
    && (forall key :: key in t.runs && t.runs[key].status == Succeeded ==> t'.runs[key] == t.runs[key])
    && (forall at :: at in t.stages && t.stages[at].status == Succeeded ==> at in t'.stages && t'.stages[at] == t.stages[at])
  }

  /** The logical run exists and this stage of it has succeeded. */
  predicate AlreadyDone(t: Tables, key: Key, stage: string) {
    key in t.runs && t.StageSucceeded(t.runs[key].runId, stage)
  }

  /** What a `run` call does, whatever its handlers return and wherever the process dies. */
  ghost predicate Did(catalog: map<(string, string), Definition>, call: Call, t: Tables, r: Pass) {
    var d, key := call.definition, call.LogicalKey();
    && Valid(catalog, r.tables) && Durable(t, r.tables)
    && (exists p, q :: 0 <= p <= q <= |d.stages| && r.invoked == d.stages[p..q])
    && (forall stage :: stage in r.invoked ==> !AlreadyDone(t, key, stage))
    && (r.ending.Completed? ==>
          && key in r.tables.runs
          && r.tables.runs[key] == RunRow(r.ending.runId, Succeeded, r.ending.sourceCalls)
          && Prefix(r.tables, r.ending.runId, d.stages, |d.stages|)
          && r.ending.sourceCalls == r.tables.SucceededCalls(r.ending.runId, d.stages)
          && (d.stages != [] ==> r.ending.sourceCalls <= d.budget))
  }

  lemma Reopened(catalog: map<(string, string), Definition>, d: Definition, t: Tables, key: Key,
      row: RunRow) returns (p: nat)
    requires Fixed(catalog) && Valid(catalog, t) && key in t.runs && t.runs[key] == row && row.status != Succeeded
    requires (key.pipelineId, key.version) in catalog && catalog[(key.pipelineId, key.version)] == d
    ensures var t1 := t.MarkRun(key, row.(status := Running));
            && Valid(catalog, t1) && Advances(t, t1, key, row.runId, d.stages)
            && Underway(d, t1, key, row.runId, t.SucceededCalls(row.runId, d.stages), p)
            && RunAt(d, t, row, p)
  {
    hide Tables.Bound;
    var t1 := t.MarkRun(key, row.(status := Running));
    assert RunOk(d, t, row);
    p :| RunAt(d, t, row, p);
    CallsUnchanged(t, t1, row.runId, d.stages);
    assert RunAt(d, t1, t1.runs[key], p);
    assert Advances(t, t1, key, row.runId, d.stages);
    hide Valid, Advances, Tables.SucceededCalls;
    ValidAfter(catalog, t, t1, key, p);
  }

  lemma NothingDid(catalog: map<(string, string), Definition>, call: Call, t: Tables, ending: Ending)
    requires Valid(catalog, t) && !ending.Completed?
    ensures Did(catalog, call, t, Pass(t, ending, []))
  {
    hide Valid;
    assert call.definition.stages[0..0] == [];
  }

  lemma FinishedDid(catalog: map<(string, string), Definition>, call: Call, t: Tables, row: RunRow)
    requires Follows(catalog, call) && Valid(catalog, t)
    requires call.LogicalKey() in t.runs && t.runs[call.LogicalKey()] == row && row.status == Succeeded
    ensures Did(catalog, call, t, Pass(t, Completed(row.runId, true, row.sourceCalls), []))
  {
    var p :| RunAt(call.definition, t, row, p);
    hide Valid, RunOk;
    assert call.definition.stages[0..0] == [];
  }

  lemma ResumeDid(catalog: map<(string, string), Definition>, call: Call, t: Tables, row: RunRow, reused: bool,
      life: nat)
    requires Fixed(catalog) && Follows(catalog, call) && Valid(catalog, t)
    requires call.LogicalKey() in t.runs && t.runs[call.LogicalKey()] == row
    ensures Did(catalog, call, t, Resume(call, t, row, reused, life))
  {
    hide Did, Valid, Fixed, Ran, RunOk, Distinct, Prefix, Advances;
    var d, key := call.definition, call.LogicalKey();
    if row.status == Succeeded {
      FinishedDid(catalog, call, t, row);
    } else if life == 0 {
      NothingDid(catalog, call, t, Crashed);
    } else {
      var p := Reopened(catalog, d, t, key, row);
      var t1 := t.MarkRun(key, row.(status := Running));
      var counted := t.SucceededCalls(row.runId, d.stages);
      var p', q := StagesRun(call, row.runId, reused, 0, t1, counted, life - 1, [], p);
      RanDid(catalog, call, t, t1, row, reused, p, Resume(call, t, row, reused, life), p', q);
    }
  }

  lemma RanDid(catalog: map<(string, string), Definition>, call: Call, t: Tables, t1: Tables, row: RunRow,
      reused: bool, p: nat, r: Pass, p': nat, q: nat)
    requires Fixed(catalog) && Follows(catalog, call) && Valid(catalog, t1)
    requires call.LogicalKey() in t.runs && t.runs[call.LogicalKey()] == row && row.status != Succeeded
    requires t1 == t.MarkRun(call.LogicalKey(), row.(status := Running)) && Prefix(t, row.runId, call.definition.stages, p)
    requires Ran(call, row.runId, reused, t1, p, [], r, p', q)
    ensures Did(catalog, call, t, r)
  {
    var d, key := call.definition, call.LogicalKey();
    RanDurable(t, t1, r.tables, key, row, d.stages);
    RanInvokes(t, d, key, p, r.invoked, q);
    assert RunAt(d, r.tables, r.tables.runs[key], p');
    hide Prefix, Advances, Durable, Distinct, RunAt;
    ValidAfter(catalog, t1, r.tables, key, p');
  }

  lemma RanDurable(t: Tables, t1: Tables, t2: Tables, key: Key, row: RunRow, names: seq<string>)
    requires key in t.runs && t.runs[key] == row && row.status != Succeeded
    requires t1 == t.MarkRun(key, row.(status := Running)) && Advances(t1, t2, key, row.runId, names)
    ensures Durable(t, t2)
  {
  }

  lemma RanInvokes(t: Tables, d: Definition, key: Key, p: nat, invoked: seq<string>, q: nat)
    requires key in t.runs && Prefix(t, t.runs[key].runId, d.stages, p) && p <= q <= |d.stages|
    requires invoked == [] + d.stages[p..q]
    ensures invoked == d.stages[p..q]
    ensures forall stage :: stage in invoked ==> !AlreadyDone(t, key, stage)
  {
    forall stage | stage in invoked ensures !AlreadyDone(t, key, stage) {
      var i :| 0 <= i < |invoked| && invoked[i] == stage;
      assert d.stages[p + i] == stage;
    }
  }

  lemma ClaimedDid(catalog: map<(string, string), Definition>, call: Call, t: Tables)
    requires Fixed(catalog) && Follows(catalog, call) && Valid(catalog, t)
    requires call.LogicalKey() !in t.runs && !t.Bound(call.FreshId())
    ensures var t1 := t.MarkRun(call.LogicalKey(), RunRow(call.FreshId(), Running, 0));
            Valid(catalog, t1) && Durable(t, t1)
  {
    hide RunOk, Tables.Bound, Fixed;
    var key, run := call.LogicalKey(), call.FreshId();
    var t1 := t.MarkRun(key, RunRow(run, Running, 0));
    ClaimKeepsIds(catalog, call, t);
    forall other | other in t1.runs
      ensures (other.pipelineId, other.version) in catalog && RunOk(catalog[(other.pipelineId, other.version)], t1, t1.runs[other])
    {
      ClaimKeepsRun(catalog, call, t, other);
    }
  }

  lemma ClaimKeepsIds(catalog: map<(string, string), Definition>, call: Call, t: Tables)
    requires Valid(catalog, t) && call.LogicalKey() !in t.runs && !t.Bound(call.FreshId())
    ensures var t1 := t.MarkRun(call.LogicalKey(), RunRow(call.FreshId(), Running, 0));
            && (forall k1, k2 :: k1 in t1.runs && k2 in t1.runs && t1.runs[k1].runId == t1.runs[k2].runId ==> k1 == k2)
            && (forall at :: at in t1.stages ==> t1.Bound(at.0))
  {
    hide RunOk;
    var t1 := t.MarkRun(call.LogicalKey(), RunRow(call.FreshId(), Running, 0));
    forall at | at in t1.stages ensures t1.Bound(at.0) {
      var k :| k in t.runs && t.runs[k].runId == at.0;
      assert k in t1.runs && t1.runs[k].runId == at.0;
    }
  }

  lemma ClaimKeepsRun(catalog: map<(string, string), Definition>, call: Call, t: Tables, other: Key)
    requires Follows(catalog, call) && Valid(catalog, t)
    requires call.LogicalKey() !in t.runs && !t.Bound(call.FreshId())
    requires other in t.runs || other == call.LogicalKey()
    ensures var t1 := t.MarkRun(call.LogicalKey(), RunRow(call.FreshId(), Running, 0));
            RunOk(catalog[(other.pipelineId, other.version)], t1, t1.runs[other])
  {
    var d, key, run := catalog[(other.pipelineId, other.version)], call.LogicalKey(), call.FreshId();
    var t1 := t.MarkRun(key, RunRow(run, Running, 0));
    if other == key {
      forall name ensures !t1.StageSucceeded(run, name) { assert (run, name) !in t.stages; }
      CallsZero(t1, run, d.stages);
      assert RunAt(d, t1, t1.runs[key], 0);
    } else {
      var p :| RunAt(d, t, t.runs[other], p);
      CallsUnchanged(t, t1, t.runs[other].runId, d.stages);
      assert RunAt(d, t1, t1.runs[other], p);
    }
  }

  lemma {:induction false} CallsZero(t: Tables, run: RunId, names: seq<string>)
    requires forall name :: !t.StageSucceeded(run, name)
    ensures t.SucceededCalls(run, names) == 0
  {
    if names != [] { CallsZero(t, run, names[..|names| - 1]); }
  }

  /** A claim does not count against what the call then does to the claimed run. */
  lemma AfterClaim(catalog: map<(string, string), Definition>, call: Call, t: Tables, t1: Tables, r: Pass)
    requires call.LogicalKey() !in t.runs && Durable(t, t1) && Did(catalog, call, t1, r)
    ensures Did(catalog, call, t, r)
  {
    hide Valid, Prefix;
  }

  /** One call, from any valid tables. */
  lemma CallDid(catalog: map<(string, string), Definition>, call: Call, t: Tables)
    requires Fixed(catalog) && Follows(catalog, call) && Valid(catalog, t)
    ensures Did(catalog, call, t, RunCall(call, t))
  {
    hide Did, Valid, Durable, Fixed, Follows, Resume;
    var key := call.LogicalKey();
    if call.life == 0 {
      NothingDid(catalog, call, t, Crashed);
    } else if key in t.runs {
      ResumeDid(catalog, call, t, t.runs[key], true, call.life - 1);
    } else if t.Bound(call.FreshId()) {
      NothingDid(catalog, call, t, IdTaken);
    } else if call.life == 1 {
      NothingDid(catalog, call, t, Crashed);
    } else {
      var row := RunRow(call.FreshId(), Running, 0);
      var t1 := t.MarkRun(key, row);
      ClaimedDid(catalog, call, t);
      ResumeDid(catalog, call, t1, row, false, call.life - 2);
      AfterClaim(catalog, call, t, t1, Resume(call, t1, row, false, call.life - 2));
    }
  }

  lemma ResumeFailedAs(catalog: map<(string, string), Definition>, call: Call, t: Tables, row: RunRow, reused: bool, life: nat)
    requires Fixed(catalog) && Follows(catalog, call) && Valid(catalog, t)
    requires call.LogicalKey() in t.runs && t.runs[call.LogicalKey()] == row
    requires Resume(call, t, row, reused, life).ending.StageFailed?
    ensures FailedAs(call, row.runId, Resume(call, t, row, reused, life))
  {
    hide Valid, Underway, Advances, RunAt, FailedAs, Fixed, Tables.SucceededCalls, Stages, Tables.Bound;
    var p := Reopened(catalog, call.definition, t, call.LogicalKey(), row);
    StagesFailedAs(call, row.runId, reused, 0, t.MarkRun(call.LogicalKey(), row.(status := Running)),
                   t.SucceededCalls(row.runId, call.definition.stages), life - 1, [], p);
  }

  /**
   From any valid tables, a `run` call that fails in a stage leaves a row that counts the succeeded
   stages and, when the failing handler had returned within the budget and only its evidence
   failed, that handler's calls too: row and succeeded stages agree exactly when it raised, went
   over the budget or counted nothing.
   */
  lemma FailedRowCounts(catalog: map<(string, string), Definition>, call: Call, t: Tables)
    requires Fixed(catalog) && Follows(catalog, call) && Valid(catalog, t) && RunCall(call, t).ending.StageFailed?
    ensures var r := RunCall(call, t);
            var h, succeeded := call.handle(r.ending.stage), r.tables.SucceededCalls(r.ending.runId, call.definition.stages);
            && FailedAs(call, r.ending.runId, r)
            && (r.tables.runs[call.LogicalKey()].sourceCalls == succeeded <==>
                  h.Raises? || succeeded + h.calls > call.definition.budget || h.calls == 0)
  {
    hide Valid, Fixed, Follows, Tables.SucceededCalls, Tables.Bound;
    if call.LogicalKey() in t.runs {
      hide Resume;
      ResumeFailedAs(catalog, call, t, t.runs[call.LogicalKey()], true, call.life - 1);
    } else {
      var row := RunRow(call.FreshId(), Running, 0);
      ClaimedDid(catalog, call, t);
      hide Resume;
      ResumeFailedAs(catalog, call, t.MarkRun(call.LogicalKey(), row), row, false, call.life - 2);
    }
  }

  /** One call from empty tables: the only stage counts a call and then its evidence cannot be written. */
  lemma FailedRowOvercounts() returns (catalog: map<(string, string), Definition>, call: Call)
    ensures Fixed(catalog) && Follows(catalog, call)
    ensures var r := RunCall(call, EMPTY);
            && r.ending == StageFailed("r1", "fetch") && call.LogicalKey() in r.tables.runs
            && r.tables.runs[call.LogicalKey()] == RunRow("r1", Failed, 1)
            && r.tables.SucceededCalls("r1", call.definition.stages) == 0
  {
    var d := Definition("prices", "1", ["fetch"], 10);
    catalog := map[("prices", "1") := d];
    call := Call(d, 0, "open", "default", None, "r1", stage => Returns(1, UpdateRaises), 10);
    assert !EMPTY.Bound("r1");
    var row := RunRow("r1", Running, 0);
    var t1 := EMPTY.MarkRun(call.LogicalKey(), row);
    assert t1.SucceededCalls("r1", []) == 0 && t1.SucceededCalls("r1", d.stages) == 0;
    var r := RunCall(call, EMPTY);
    assert r == Resume(call, t1, row, false, 8);
    assert Attempt(call, "r1", "fetch", t1, 0, 7, []).Ends?;
    assert r.tables.SucceededCalls("r1", []) == 0;
  }

  // -------------------------------------------------- any sequence of calls

  function RunAll(calls: seq<Call>, t: Tables): Tables {
    if calls == [] then t else RunAll(calls[1..], RunCall(calls[0], t).tables)
  }

  ghost predicate AllFollow(catalog: map<(string, string), Definition>, calls: seq<Call>) {
    forall i :: 0 <= i < |calls| ==> Follows(catalog, calls[i])
  }

  lemma {:induction false} AnySequence(catalog: map<(string, string), Definition>, calls: seq<Call>, t: Tables)
    requires Fixed(catalog) && AllFollow(catalog, calls) && Valid(catalog, t)
    ensures Valid(catalog, RunAll(calls, t)) && Durable(t, RunAll(calls, t))
    decreases |calls|
  {
    if calls != [] {
      CallDid(catalog, calls[0], t);
      AnySequence(catalog, calls[1..], RunCall(calls[0], t).tables);
    }
  }

  /**
   After any sequence of calls with failing, crashing or succeeding handlers, each logical run's
   succeeded stages are a prefix of its definition whose calls fit the budget, and a run marked
   succeeded has all its stages and stores their exact sum.
   */
  lemma SucceededStagesArePrefix(catalog: map<(string, string), Definition>, calls: seq<Call>,
      key: Key) returns (p: nat)
    requires Fixed(catalog) && AllFollow(catalog, calls) && key in RunAll(calls, EMPTY).runs
    ensures (key.pipelineId, key.version) in catalog
    ensures var t, d := RunAll(calls, EMPTY), catalog[(key.pipelineId, key.version)];
            var row := t.runs[key];
            && p <= |d.stages|
            && (forall i :: 0 <= i < |d.stages| ==> (t.StageSucceeded(row.runId, d.stages[i]) <==> i < p))
            && (p > 0 ==> t.SucceededCalls(row.runId, d.stages) <= d.budget)
            && (row.status == Succeeded ==> p == |d.stages| && row.sourceCalls == t.SucceededCalls(row.runId, d.stages))
  {
    AnySequence(catalog, calls, EMPTY);
    var t, d := RunAll(calls, EMPTY), catalog[(key.pipelineId, key.version)];
    p :| RunAt(d, t, t.runs[key], p);
  }

  /**
   A completed logical run is final: whatever is called in between, calling it again returns the
   same run id and count, invokes no handler and changes no row.
   */
  lemma CompletedIsFinal(catalog: map<(string, string), Definition>, before: seq<Call>, first: Call,
      between: seq<Call>, again: Call)
    requires Fixed(catalog) && AllFollow(catalog, before) && Follows(catalog, first) && AllFollow(catalog, between)
    requires first.LogicalKey() == again.LogicalKey() && again.life > 0
    requires RunCall(first, RunAll(before, EMPTY)).ending.Completed?
    ensures var done := RunCall(first, RunAll(before, EMPTY));
            var t := RunAll(between, done.tables);
            RunCall(again, t) == Pass(t, Completed(done.ending.runId, true, done.ending.sourceCalls), [])
  {
    AnySequence(catalog, before, EMPTY);
    CallDid(catalog, first, RunAll(before, EMPTY));
    AnySequence(catalog, between, RunCall(first, RunAll(before, EMPTY)).tables);
  }

  /** A stage that has succeeded is never handed to a handler again. */
  lemma SucceededStageNeverRuns(catalog: map<(string, string), Definition>, before: seq<Call>,
      between: seq<Call>, call: Call, stage: string)
    requires Fixed(catalog) && AllFollow(catalog, before) && AllFollow(catalog, between) && Follows(catalog, call)
    requires AlreadyDone(RunAll(before, EMPTY), call.LogicalKey(), stage)
    ensures stage !in RunCall(call, RunAll(between, RunAll(before, EMPTY))).invoked
  {
    AnySequence(catalog, before, EMPTY);
    AnySequence(catalog, between, RunAll(before, EMPTY));
    CallDid(catalog, call, RunAll(between, RunAll(before, EMPTY)));
  }

  // ------------------------------------------------------------ the objects

  datatype Refusal = AlreadyRegistered | StagesNotUnique

  /** What the registry holds: each definition under its own id and version, with uniquely named stages. */
  ghost predicate Registered(definitions: map<(string, string), Definition>) {
    Fixed(definitions) && forall id :: id in definitions ==> definitions[id].stages != []
  }

  class PipelineRegistry {
    var definitions: map<(string, string), Definition>

    constructor ()
      ensures definitions == map[] && Registered(definitions)
    {
      definitions := map[];
    }

    /** A version is registered once and never replaced, and a definition with a repeated stage name never enters. */
    method Register(d: Definition) returns (refused: Option<Refusal>)
      requires Registered(definitions)
      modifies this
      ensures Registered(definitions)
      ensures refused == Some(AlreadyRegistered) <==> (d.pipelineId, d.version) in old(definitions)
      ensures refused.None? <==>
                (d.pipelineId, d.version) !in old(definitions) && d.stages != [] && Distinct(d.stages)
      ensures definitions == if refused.None? then old(definitions)[(d.pipelineId, d.version) := d] else old(definitions)
    {
      var key := (d.pipelineId, d.version);
      if key in definitions {
        return Some(AlreadyRegistered);
      }
      UniqueCount(d.stages);
      if d.stages == [] || |Unique(d.stages)| != |d.stages| {
        return Some(StagesNotUnique);
      }
      definitions := definitions[key := d];
      refused := None;
    }
  }

  class ManagedPipelineRunner {
    var runs: map<Key, RunRow>
    var stages: map<(RunId, string), StageRow>

    function View(): Tables
      reads this
    {
      Tables(runs, stages)
    }

    constructor ()
      ensures View() == EMPTY
    {
      runs, stages := map[], map[];
    }

    /** `_claim_run`: the existing row, or a new one, or the id is bound to another logical run. */
    method ClaimRun(call: Call) returns (claimed: Option<RunRow>, reused: bool)
      modifies this`runs
      ensures reused <==> call.LogicalKey() in old(runs)
      ensures claimed.None? <==> !reused && old(View()).Bound(call.FreshId())
      ensures reused ==> claimed == Some(old(runs)[call.LogicalKey()]) && runs == old(runs)
      ensures claimed.None? ==> runs == old(runs)
      ensures !reused && claimed.Some? ==>
                && claimed.value == RunRow(call.FreshId(), Running, 0)
                && runs == old(runs)[call.LogicalKey() := claimed.value]
    {
      if call.LogicalKey() in runs {
        return Some(runs[call.LogicalKey()]), true;
      }
      var run := call.FreshId();
      if exists key :: key in runs && runs[key].runId == run {
        return None, false;
      }
      var row := RunRow(run, Running, 0);
      runs := runs[call.LogicalKey() := row];
      claimed, reused := Some(row), false;
    }

    /** One owed stage; `going` is false when the loop ends here. */
    method RunStage(call: Call, run: RunId, stage: string, counted: int, life: nat, invoked: seq<string>)
      returns (turn: Turn)
      requires call.LogicalKey() in runs
      modifies this
      ensures turn == Attempt(call, run, stage, old(View()), counted, life, invoked)
      ensures View() == (if turn.Ends? then turn.pass.tables else turn.tables) && call.LogicalKey() in runs
    {
      if life == 0 {
        return Ends(Pass(View(), Crashed, invoked));
      }
      stages := stages[(run, stage) := Restarted(View(), run, stage)];
      if life == 1 {
        return Ends(Pass(View(), Crashed, invoked));
      }
      var begun := invoked + [stage];
      if life == 2 {
        return Ends(Pass(View(), Crashed, begun));
      }
      var handled := call.handle(stage);
      if handled.Returns? && counted + handled.calls <= call.definition.budget {
        if handled.evidence == UpdateRaises {
          turn := FailRow(call, run, stage, counted + handled.calls, life - 2, begun);
        } else {
          stages := stages[(run, stage) := stages[(run, stage)].(status := Succeeded, sourceCalls := handled.calls)];
          if handled.evidence == InsertRaises {
            turn := FailRow(call, run, stage, counted + handled.calls, life - 3, begun);
          } else {
            turn := GoesOn(View(), counted + handled.calls, life - 3, begun);
          }
        }
      } else {
        turn := FailRow(call, run, stage, counted, life - 2, begun);
      }
    }

    method FailRow(call: Call, run: RunId, stage: string, counted: int, life: nat,
        begun: seq<string>) returns (turn: Turn)
      requires call.LogicalKey() in runs && (run, stage) in stages
      modifies this
      ensures turn == Ends(FailStage(call, run, stage, old(View()), counted, life, begun))
      ensures View() == turn.pass.tables && call.LogicalKey() in runs
    {
      if life > 0 {
        stages := stages[(run, stage) := stages[(run, stage)].(status := Failed)];
        if life > 1 {
          runs := runs[call.LogicalKey() := RunRow(run, Failed, counted)];
          return Ends(Pass(View(), StageFailed(run, stage), begun));
        }
      }
      turn := Ends(Pass(View(), Crashed, begun));
    }

    /** `run`: each early return is an outcome, an exception, or the death of the process. */
    method Run(call: Call) returns (ending: Ending, invoked: seq<string>)
      modifies this
      ensures Pass(View(), ending, invoked) == RunCall(call, old(View()))
    {
      hide Attempt, Tables.SucceededCalls, Tables.Calls;
      if call.life == 0 {
        return Crashed, [];
      }
      if call.LogicalKey() !in runs && call.life == 1 && !View().Bound(call.FreshId()) {
        return Crashed, [];
      }
      var claimed, reused := ClaimRun(call);
      if claimed.None? {
        return IdTaken, [];
      }
      var run := claimed.value.runId;
      var life: nat := if reused then call.life - 1 else call.life - 2;
      if claimed.value.status == Succeeded {
        return Completed(run, true, claimed.value.sourceCalls), [];
      }
      if life == 0 {
        return Crashed, [];
      }
      var counted := View().SucceededCalls(run, call.definition.stages);
      runs := runs[call.LogicalKey() := claimed.value.(status := Running)];
      life := life - 1;
      invoked := [];
      var k := 0;
      while k < |call.definition.stages|
        invariant 0 <= k <= |call.definition.stages| && call.LogicalKey() in runs
        invariant Stages(call, run, reused, k, View(), counted, life, invoked) == RunCall(call, old(View()))
      {
        var stage := call.definition.stages[k];
        if !View().StageSucceeded(run, stage) {
          var turn := RunStage(call, run, stage, counted, life, invoked);
          if turn.Ends? {
            return turn.pass.ending, turn.pass.invoked;
          }
          counted, life, invoked := turn.counted, turn.life, turn.invoked;
        }
        k := k + 1;
      }
      if life == 0 {
        return Crashed, invoked;
      }
      runs := runs[call.LogicalKey() := RunRow(run, Succeeded, counted)];
      ending := Completed(run, reused, counted);
    }
  }
}
