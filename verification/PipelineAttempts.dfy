/**
 What the attempt count of a stage row counts: over any sequence of calls, exactly the times the stage's
 handler was begun, and one more for each time the process died between writing the row and calling it.
 */
module PipelineAttempts {
  import opened Pipeline
  import opened Wrappers

  function Tries(t: Tables, run: RunId, stage: string): nat {
    if (run, stage) in t.stages then t.stages[(run, stage)].attempt else 0
  }

  /** How often the stage stands in a list of invoked ones. */
  function Times(stage: string, invoked: seq<string>): nat {
    if invoked == [] then 0
    else Times(stage, invoked[..|invoked| - 1]) + if invoked[|invoked| - 1] == stage then 1 else 0
  }

  /** From `t` to `t'` the attempts of `run` grew by what was invoked since `before`, and by one where it `died`. */
  ghost predicate Counts(t: Tables, t': Tables, run: RunId, before: seq<string>, after: seq<string>, died: Option<string>) {
    forall other: RunId, stage: string ::
      Tries(t', other, stage) + (if other == run then Times(stage, before) else 0) ==
      Tries(t, other, stage)
      + (if other == run then Times(stage, after) + (if died == Some(stage) then 1 else 0) else 0)
  }

  lemma TimesMore(stage: string, invoked: seq<string>, name: string)
    ensures Times(stage, invoked + [name]) == Times(stage, invoked) + if name == stage then 1 else 0
  {
    assert (invoked + [name])[..|invoked|] == invoked;
  }

  ghost predicate SameTries(t: Tables, t': Tables) {
    forall run: RunId, stage: string :: Tries(t', run, stage) == Tries(t, run, stage)
  }

  /** Nothing after the first write of a turn changes an attempt. */
  lemma ConcludeKeeps(call: Call, run: RunId, stage: string, t: Tables, counted: int, life: nat, begun: seq<string>)
    requires call.LogicalKey() in t.runs && (run, stage) in t.stages && life > 0
    ensures match Conclude(call, run, stage, t, counted, life, begun)
            case Ends(pass) => pass.invoked == begun && SameTries(t, pass.tables)
            case GoesOn(t', _, _, invoked) => invoked == begun && SameTries(t, t')
  {
  }

  lemma BegunCounts(t: Tables, run: RunId, stage: string, invoked: seq<string>)
    ensures var begun := t.MarkStage(run, stage, Restarted(t, run, stage));
            && Counts(t, begun, run, invoked, invoked + [stage], None) && Counts(t, begun, run, invoked, invoked, Some(stage))
  {
    forall name ensures Times(name, invoked + [stage]) == Times(name, invoked) + if stage == name then 1 else 0 {
      TimesMore(name, invoked, stage);
    }
    hide Times;
  }

  /** Writing the row of a stage that starts is one attempt more; nothing later in its turn changes any count. */
  lemma AttemptCounts(call: Call, run: RunId, stage: string, t: Tables, counted: int, life: nat, invoked: seq<string>)
    returns (died: Option<string>)
    requires call.LogicalKey() in t.runs
    ensures var turn := Attempt(call, run, stage, t, counted, life, invoked);
            match turn
            case Ends(pass) =>
              Counts(t, pass.tables, run, invoked, pass.invoked, died) && (died.Some? ==> pass.ending.Crashed?)
            case GoesOn(t', _, _, invoked') => died.None? && Counts(t, t', run, invoked, invoked', None)
  {
    died := if life == 1 then Some(stage) else None;
    BegunCounts(t, run, stage, invoked);
    CountsSame(t, t, run, invoked);
    hide Times, Restarted;
    if life > 2 {
      var begun := t.MarkStage(run, stage, Restarted(t, run, stage));
      ConcludeKeeps(call, run, stage, begun, counted, life - 2, invoked + [stage]);
      hide Conclude, Tries;
    } else {
      hide Counts;
    }
  }

  lemma CountsOn(t: Tables, t1: Tables, t2: Tables, run: RunId, a: seq<string>, b: seq<string>, c: seq<string>, died: Option<string>)
    requires Counts(t, t1, run, a, b, None) && Counts(t1, t2, run, b, c, died)
    ensures Counts(t, t2, run, a, c, died)
  {
    hide Times, Tries;
    forall other: RunId, stage: string
      ensures Tries(t2, other, stage) + (if other == run then Times(stage, a) else 0) ==
              Tries(t, other, stage)
              + (if other == run then Times(stage, c) + (if died == Some(stage) then 1 else 0) else 0)
    {
      assert Tries(t1, other, stage) + (if other == run then Times(stage, a) else 0) ==
             Tries(t, other, stage) + (if other == run then Times(stage, b) else 0);
    }
  }

  lemma CountsSame(t: Tables, t': Tables, run: RunId, invoked: seq<string>)
    requires t'.stages == t.stages
    ensures Counts(t, t', run, invoked, invoked, None)
  {
  }

  lemma {:induction false} StagesCount(call: Call, run: RunId, reused: bool, k: nat, t: Tables, counted: int, life: nat,
      invoked: seq<string>) returns (died: Option<string>)
    requires call.LogicalKey() in t.runs && k <= |call.definition.stages|
    ensures var r := Stages(call, run, reused, k, t, counted, life, invoked);
            Counts(t, r.tables, run, invoked, r.invoked, died) && (died.Some? ==> r.ending.Crashed?)
    decreases |call.definition.stages| - k
  {
    hide Attempt, Counts;
    died := None;
    if k == |call.definition.stages| {
      var r := Stages(call, run, reused, k, t, counted, life, invoked);
      CountsSame(t, r.tables, run, invoked);
    } else if t.StageSucceeded(run, call.definition.stages[k]) {
      died := StagesCount(call, run, reused, k + 1, t, counted, life, invoked);
    } else {
      died := AttemptCounts(call, run, call.definition.stages[k], t, counted, life, invoked);
      var turn := Attempt(call, run, call.definition.stages[k], t, counted, life, invoked);
      if turn.GoesOn? {
        KeyKept(call, run, call.definition.stages[k], t, counted, life, invoked);
        died := StagesCount(call, run, reused, k + 1, turn.tables, turn.counted, turn.life, turn.invoked);
        var r := Stages(call, run, reused, k, t, counted, life, invoked);
        CountsOn(t, turn.tables, r.tables, run, invoked, turn.invoked, r.invoked, died);
      }
    }
  }

  lemma KeyKept(call: Call, run: RunId, stage: string, t: Tables, counted: int, life: nat, invoked: seq<string>)
    requires call.LogicalKey() in t.runs
    ensures var turn := Attempt(call, run, stage, t, counted, life, invoked);
            turn.GoesOn? ==> call.LogicalKey() in turn.tables.runs
  {
  }

  /** The run a call works on. */
  function RunOf(call: Call, t: Tables): RunId {
    if call.LogicalKey() in t.runs then t.runs[call.LogicalKey()].runId else call.FreshId()
  }

  lemma ResumeCounts(call: Call, t: Tables, row: RunRow, reused: bool, life: nat) returns (died: Option<string>)
    requires call.LogicalKey() in t.runs
    ensures var r := Resume(call, t, row, reused, life);
            Counts(t, r.tables, row.runId, [], r.invoked, died) && (died.Some? ==> r.ending.Crashed?)
  {
    hide Stages, Counts;
    died := None;
    CountsSame(t, t, row.runId, []);
    if row.status != Succeeded && life > 0 {
      var t1 := t.MarkRun(call.LogicalKey(), row.(status := Running));
      var counted := t.SucceededCalls(row.runId, call.definition.stages);
      died := StagesCount(call, row.runId, reused, 0, t1, counted, life - 1, []);
      CountsSame(t, t1, row.runId, []);
      CountsOn(t, t1, Resume(call, t, row, reused, life).tables, row.runId, [], [],
               Resume(call, t, row, reused, life).invoked, died);
    }
  }

  /** One call on any tables. */
  lemma CallCounts(call: Call, t: Tables) returns (died: Option<string>)
    ensures var r := RunCall(call, t);
            Counts(t, r.tables, RunOf(call, t), [], r.invoked, died) && (died.Some? ==> r.ending.Crashed?)
  {
    hide Resume, Counts;
    var key, run := call.LogicalKey(), RunOf(call, t);
    died := None;
    CountsSame(t, t, run, []);
    if key in t.runs && call.life > 0 {
      died := ResumeCounts(call, t, t.runs[key], true, call.life - 1);
    } else if call.life > 1 && !t.Bound(call.FreshId()) {
      var row := RunRow(run, Running, 0);
      var t1 := t.MarkRun(key, row);
      died := ResumeCounts(call, t1, row, false, call.life - 2);
      CountsSame(t, t1, run, []);
      CountsOn(t, t1, RunCall(call, t).tables, run, [], [], RunCall(call, t).invoked, died);
    }
  }

  /** Of a sequence of calls: how often the handler of this stage was begun for this run. */
  function Begun(calls: seq<Call>, t: Tables, run: RunId, stage: string): nat
    decreases |calls|
  {
    if calls == [] then 0
    else
      var r := RunCall(calls[0], t);
      (if RunOf(calls[0], t) == run then Times(stage, r.invoked) else 0) + Begun(calls[1..], r.tables, run, stage)
  }

  /** How many of its calls the process did not survive. */
  function Crashes(calls: seq<Call>, t: Tables): nat
    decreases |calls|
  {
    if calls == [] then 0
    else
      var r := RunCall(calls[0], t);
      (if r.ending.Crashed? then 1 else 0) + Crashes(calls[1..], r.tables)
  }

  /**
   Over any sequence of calls from any tables the attempts of a stage grow by the times its handler was
   begun, and beyond that by at most one for each call that died; without a crash by exactly those.
   */
  lemma {:induction false} AttemptsCountHandlers(calls: seq<Call>, t: Tables, run: RunId, stage: string)
    ensures var grown := Tries(RunAll(calls, t), run, stage) - Tries(t, run, stage);
            Begun(calls, t, run, stage) <= grown <= Begun(calls, t, run, stage) + Crashes(calls, t)
    decreases |calls|
  {
    hide RunCall;
    if calls != [] {
      var died := CallCounts(calls[0], t);
      AttemptsCountHandlers(calls[1..], RunCall(calls[0], t).tables, run, stage);
      hide RunAll;
      assert Times(stage, []) == 0;
    }
  }
}
