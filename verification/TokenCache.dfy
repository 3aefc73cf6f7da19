/**
 The single-flight token cache of one process: a caller looks in the database and in process
 memory, waits for its key's refresh lock, looks again, and only then asks upstream. Steps are
 the code between two awaits; database rows, legacy files and answers are whatever they are.
 Instants are seconds of the monotone wall clock.
 */
module TokenCache {
  import opened Wrappers

  const SAFETY := 600
  const DEFAULT_LIFETIME := 85_800

  type Key = string
  type CallerId = nat

  datatype Token = Token(text: string, expires: int)

  predicate IsTokenValid(expires: int, now: int) {
    now < expires - SAFETY
  }

  predicate Fresh(held: Option<Token>, now: int) {
    held.Some? && IsTokenValid(held.value.expires, now) && held.value.text != ""
  }

  // ------------------------------------------------------------ lookups

  datatype Cipher = Missing | Undecryptable | Opens(text: string)

  /** What the database lookup meets. */
  datatype Row = Absent | Unreadable | Row(expires: int, cipher: Cipher)

  datatype Looked = Found(text: string) | Nothing(hasRow: bool) | Failed | Raises

  /** The ciphertext is only looked at when the row is still valid. */
  function LookUp(row: Row, now: int): Looked {
    match row
    case Absent => Nothing(false)
    case Unreadable => Failed
    case Row(expires, cipher) =>
      if !IsTokenValid(expires, now) then Nothing(true)
      else
        match cipher
        case Missing => Failed
        case Undecryptable => Raises
        case Opens(text) => if text == "" then Nothing(true) else Found(text)
  }

  datatype LegacyFile = NoFile | File(token: Token, persists: bool)

  /** Expiry as the response gives it: a parsed instant, else a lifetime other than zero, else the default. */
  function ParseExpiry(raw: Option<int>, expiresIn: Option<int>, issuedAt: int): int {
    if raw.Some? then raw.value
    else if expiresIn.Some? && expiresIn.value != 0 then issuedAt + expiresIn.value
    else issuedAt + DEFAULT_LIFETIME
  }

  // -------------------------------------------------------------- the state

  datatype Phase =
    | Waiting(key: Key, forced: bool)
    | Refreshing(key: Key, forced: bool, startedAt: int)
    | Returned(text: string)
    | Raised

  datatype Event =
    | Started(key: Key, forced: bool, at: int)
    | Stored(key: Key, token: Token, forced: bool, startedAt: int, at: int)

  datatype State = State(
    now: int, memory: map<Key, Token>, holder: map<Key, CallerId>, callers: map<CallerId, Phase>, log: seq<Event>)
  {
    function Held(key: Key): Option<Token> {
      if key in memory then Some(memory[key]) else None
    }

    function Set(c: CallerId, phase: Phase): State {
      this.(callers := callers[c := phase])
    }
  }

  function Initial(now: int): State {
    State(now, map[], map[], map[], [])
  }

  datatype Step =
    | Tick(elapsed: nat)
    | Arrive(c: CallerId, key: Key, forced: bool, row: Row)
    | Enter(c: CallerId, row: Row, legacy: LegacyFile)
    | Answer(c: CallerId, text: string, raw: Option<int>, expiresIn: Option<int>)
    | Fail(c: CallerId)

  predicate Enabled(s: State, step: Step) {
    match step
    case Tick(_) => true
    case Arrive(c, _, _, _) => c !in s.callers
    case Enter(c, _, _) => c in s.callers && s.callers[c].Waiting? && s.callers[c].key !in s.holder
    case Answer(c, _, _, _) => c in s.callers && s.callers[c].Refreshing?
    case Fail(c) => c in s.callers && s.callers[c].Refreshing?
  }

  /** The lookups before the lock is asked for. */
  function Arrived(s: State, c: CallerId, key: Key, forced: bool, row: Row): State {
    if forced then s.Set(c, Waiting(key, forced))
    else
      match LookUp(row, s.now)
      case Raises => s.Set(c, Raised)
      case Found(text) => s.Set(c, Returned(text))
      case _ =>
        if Fresh(s.Held(key), s.now) then s.Set(c, Returned(s.memory[key].text)) else s.Set(c, Waiting(key, forced))
  }

  /** The lock is taken and the request goes out. */
  function Begun(s: State, c: CallerId, key: Key, forced: bool): State {
    s.(holder := s.holder[key := c], callers := s.callers[c := Refreshing(key, forced, s.now)],
       log := s.log + [Started(key, forced, s.now)])
  }

  /** The lookups under the lock, which is free again when one of them answers. */
  function Entered(s: State, c: CallerId, key: Key, forced: bool, row: Row, legacy: LegacyFile): State {
    if forced then Begun(s, c, key, forced)
    else
      match LookUp(row, s.now)
      case Raises => s.Set(c, Raised)
      case Found(text) => s.Set(c, Returned(text))
      case Nothing(hasRow) =>
        if Fresh(s.Held(key), s.now) then s.Set(c, Returned(s.memory[key].text))
        else if !hasRow && legacy.File? && Fresh(Some(legacy.token), s.now) then
          s.Set(c, if legacy.persists then Returned(legacy.token.text) else Raised)
        else Begun(s, c, key, forced)
      case Failed =>
        if Fresh(s.Held(key), s.now) then s.Set(c, Returned(s.memory[key].text)) else Begun(s, c, key, forced)
  }

  /** The answer is stored in memory whether or not the database takes it, and the lock is released. */
  function Answered(s: State, c: CallerId, phase: Phase, token: Token): State
    requires phase.Refreshing?
  {
    s.(memory := s.memory[phase.key := token], holder := s.holder - {phase.key}, callers := s.callers[c := Returned(token.text)],
       log := s.log + [Stored(phase.key, token, phase.forced, phase.startedAt, s.now)])
  }

  function Next(s: State, step: Step): State
    requires Enabled(s, step)
  {
    match step
    case Tick(elapsed) => s.(now := s.now + elapsed)
    case Arrive(c, key, forced, row) => Arrived(s, c, key, forced, row)
    case Enter(c, row, legacy) => Entered(s, c, s.callers[c].key, s.callers[c].forced, row, legacy)
    case Answer(c, text, raw, expiresIn) =>
      Answered(s, c, s.callers[c], Token(text, ParseExpiry(raw, expiresIn, s.now)))
    case Fail(c) => s.(holder := s.holder - {s.callers[c].key}, callers := s.callers[c := Raised])
  }

  /** A run of steps; a step that is not possible is skipped. */
  function Run(steps: seq<Step>, s: State): State {
    if steps == [] then s
    else
      var before, last := Run(steps[..|steps| - 1], s), steps[|steps| - 1];
      if Enabled(before, last) then Next(before, last) else before
  }

  // --------------------------------------------------------- the invariant

  /** The latest token stored for a key. */
  function Latest(log: seq<Event>, key: Key): Option<Token> {
    if log == [] then None
    else
      var last := log[|log| - 1];
      if last.Stored? && last.key == key then Some(last.token) else Latest(log[..|log| - 1], key)
  }

  /** No unforced refresh starts, or started, against a token that is still fresh. */
  ghost predicate EventOk(before: seq<Event>, e: Event) {
    match e
    case Started(key, forced, at) => !forced ==> !Fresh(Latest(before, key), at)
    case Stored(key, _, forced, startedAt, at) => startedAt <= at && (!forced ==> !Fresh(Latest(before, key), startedAt))
  }

  ghost predicate LogOk(log: seq<Event>) {
    log == [] || (LogOk(log[..|log| - 1]) && EventOk(log[..|log| - 1], log[|log| - 1]))
  }

  ghost predicate Inv(s: State) {
    && LogOk(s.log)
    && (forall key :: s.Held(key) == Latest(s.log, key))
    && (forall i :: 0 <= i < |s.log| ==> s.log[i].at <= s.now)
    && (forall key :: key in s.holder ==>
          s.holder[key] in s.callers && s.callers[s.holder[key]].Refreshing? && s.callers[s.holder[key]].key == key)
    && (forall c :: c in s.callers && s.callers[c].Refreshing? ==> Holding(s, c))
  }

  /** A refreshing caller holds its key's lock and has not been overtaken. */
  ghost predicate Holding(s: State, c: CallerId)
    requires c in s.callers && s.callers[c].Refreshing?
  {
    var p := s.callers[c];
    && p.key in s.holder && s.holder[p.key] == c && p.startedAt <= s.now
    && (!p.forced ==> !Fresh(s.Held(p.key), p.startedAt))
  }

  lemma LogGrows(log: seq<Event>, e: Event)
    requires LogOk(log) && EventOk(log, e)
    ensures LogOk(log + [e])
    ensures forall key :: Latest(log + [e], key) == if e.Stored? && e.key == key then Some(e.token) else Latest(log, key)
  {
    hide EventOk;
    assert (log + [e])[..|log|] == log;
  }

  lemma SetKeeps(s: State, c: CallerId, phase: Phase)
    requires Inv(s) && !phase.Refreshing? && (c in s.callers ==> !s.callers[c].Refreshing?)
    ensures Inv(s.Set(c, phase))
  {
    hide LogOk, Latest, Fresh;
  }

  lemma BegunKeeps(s: State, c: CallerId, key: Key, forced: bool)
    requires Inv(s) && key !in s.holder && (c in s.callers ==> !s.callers[c].Refreshing?)
    requires !forced ==> !Fresh(s.Held(key), s.now)
    ensures Inv(Begun(s, c, key, forced))
  {
    hide Fresh, Latest, LogOk;
    assert s.Held(key) == Latest(s.log, key);
    LogGrows(s.log, Started(key, forced, s.now));
    var after := Begun(s, c, key, forced);
    forall k ensures after.Held(k) == Latest(after.log, k) {
      assert s.Held(k) == Latest(s.log, k);
    }
    forall d | d in after.callers && after.callers[d].Refreshing? ensures Holding(after, d) {
      if d != c { assert Holding(s, d); }
    }
  }

  lemma AnsweredKeeps(s: State, c: CallerId, token: Token)
    requires Inv(s) && c in s.callers && s.callers[c].Refreshing?
    ensures Inv(Answered(s, c, s.callers[c], token))
  {
    hide Fresh, Latest, LogOk;
    var p, after := s.callers[c], Answered(s, c, s.callers[c], token);
    assert Holding(s, c) && s.Held(p.key) == Latest(s.log, p.key);
    LogGrows(s.log, Stored(p.key, token, p.forced, p.startedAt, s.now));
    forall k ensures after.Held(k) == Latest(after.log, k) {
      assert s.Held(k) == Latest(s.log, k);
    }
    forall d | d in after.callers && after.callers[d].Refreshing? ensures Holding(after, d) {
      assert Holding(s, d);
    }
  }

  lemma StepKeeps(s: State, step: Step)
    requires Inv(s) && Enabled(s, step)
    ensures Inv(Next(s, step))
  {
    match step
    case Tick(elapsed) => { hide Fresh, Latest, LogOk; }
    case Arrive(c, key, forced, row) => {
      hide Inv, Fresh;
      ArrivedIsSet(s, c, key, forced, row);
    }
    case Enter(c, row, legacy) => {
      var key, forced := s.callers[c].key, s.callers[c].forced;
      hide Inv, Fresh;
      EnteredIsSetOrBegun(s, c, key, forced, row, legacy);
      if Entered(s, c, key, forced, row, legacy) == Begun(s, c, key, forced) && (forced || !Fresh(s.Held(key), s.now)) {
        BegunKeeps(s, c, key, forced);
      }
    }
    case Answer(c, text, raw, expiresIn) => {
      hide Inv, Fresh;
      AnsweredKeeps(s, c, Token(text, ParseExpiry(raw, expiresIn, s.now)));
    }
    case Fail(c) => { hide Fresh, Latest, LogOk; }
  }

  lemma ArrivedIsSet(s: State, c: CallerId, key: Key, forced: bool, row: Row)
    requires Inv(s) && c !in s.callers
    ensures Inv(Arrived(s, c, key, forced, row))
  {
    hide Inv, Fresh;
    SetKeeps(s, c, Waiting(key, forced));
    SetKeeps(s, c, Raised);
    if !forced && LookUp(row, s.now).Found? { SetKeeps(s, c, Returned(LookUp(row, s.now).text)); }
    if key in s.memory { SetKeeps(s, c, Returned(s.memory[key].text)); }
    assert Fresh(s.Held(key), s.now) ==> key in s.memory by { FreshIsHeld(s, key); }
  }

  lemma FreshIsHeld(s: State, key: Key)
    ensures Fresh(s.Held(key), s.now) ==> key in s.memory
  {
  }

  lemma EnteredIsSetOrBegun(s: State, c: CallerId, key: Key, forced: bool, row: Row, legacy: LegacyFile)
    requires Inv(s) && c in s.callers && !s.callers[c].Refreshing?
    ensures var after := Entered(s, c, key, forced, row, legacy);
            Inv(after) || (after == Begun(s, c, key, forced) && (forced || !Fresh(s.Held(key), s.now)))
  {
    hide Inv, Fresh;
    SetKeeps(s, c, Raised);
    FreshIsHeld(s, key);
    if LookUp(row, s.now).Found? { SetKeeps(s, c, Returned(LookUp(row, s.now).text)); }
    if key in s.memory { SetKeeps(s, c, Returned(s.memory[key].text)); }
    if legacy.File? { SetKeeps(s, c, Returned(legacy.token.text)); }
  }

  lemma {:induction false} EveryRunKeeps(steps: seq<Step>, now: int)
    ensures Inv(Run(steps, Initial(now)))
  {
    if steps != [] {
      hide Inv, Next;
      EveryRunKeeps(steps[..|steps| - 1], now);
      var before, last := Run(steps[..|steps| - 1], Initial(now)), steps[|steps| - 1];
      if Enabled(before, last) { StepKeeps(before, last); }
    }
  }

  // ------------------------------------------------------------- theorems

  lemma {:induction false} LogOkAt(log: seq<Event>, i: nat)
    requires LogOk(log) && i < |log|
    ensures EventOk(log[..i], log[i])
    decreases |log|
  {
    if i < |log| - 1 {
      LogOkAt(log[..|log| - 1], i);
      assert log[..|log| - 1][..i] == log[..i];
    }
  }

  /** While the latest token stored for a key is fresh, no unforced caller starts a refresh of it. */
  lemma QuietWhileFresh(steps: seq<Step>, now: int, i: nat)
    requires i < |Run(steps, Initial(now)).log|
    ensures var log := Run(steps, Initial(now)).log;
            log[i].Started? && !log[i].forced ==> !Fresh(Latest(log[..i], log[i].key), log[i].at)
  {
    EveryRunKeeps(steps, now);
    LogOkAt(Run(steps, Initial(now)).log, i);
  }

  /**
   Whatever a lookup serves, before or under the lock, carries a text and an expiry more than ten
   minutes ahead, and comes from the database row, the process memory or the legacy file.
   */
  lemma ServedIsFresh(s: State, step: Step, c: CallerId) returns (served: Token)
    requires Enabled(s, step) && !step.Answer? && c in Next(s, step).callers && Next(s, step).callers[c].Returned?
    requires c in s.callers ==> !s.callers[c].Returned?
    ensures (step.Arrive? || step.Enter?) && step.c == c
    ensures Fresh(Some(served), s.now) && Next(s, step).callers[c] == Returned(served.text)
    ensures var key := if step.Arrive? then step.key else s.callers[c].key;
            || (step.row.Row? && step.row == Row(served.expires, Opens(served.text)))
            || s.Held(key) == Some(served)
            || (step.Enter? && step.legacy.File? && step.legacy.token == served)
  {
    var key := if step.Arrive? then step.key else s.callers[c].key;
    if LookUp(step.row, s.now).Found? {
      served := Token(LookUp(step.row, s.now).text, step.row.expires);
    } else if Fresh(s.Held(key), s.now) {
      served := s.memory[key];
    } else {
      served := step.legacy.token;
    }
  }

  /** At any moment a key has at most one refresh in flight. */
  lemma OneRefreshAtATime(steps: seq<Step>, now: int, c: CallerId, d: CallerId)
    requires var s := Run(steps, Initial(now));
             && c in s.callers && d in s.callers && s.callers[c].Refreshing? && s.callers[d].Refreshing?
             && s.callers[c].key == s.callers[d].key
    ensures c == d
  {
    EveryRunKeeps(steps, now);
    var s := Run(steps, Initial(now));
    assert Holding(s, c) && Holding(s, d);
  }

  lemma {:induction false} LatestIs(log: seq<Event>, i: nat, key: Key)
    requires i < |log| && log[i].Stored? && log[i].key == key
    requires forall k :: i < k < |log| && log[k].Stored? ==> log[k].key != key
    ensures Latest(log, key) == Some(log[i].token)
    decreases |log|
  {
    if i < |log| - 1 { LatestIs(log[..|log| - 1], i, key); }
  }

  /**
   Between two successive successful refreshes of a key, the second unforced, the first token came
   within ten minutes of its expiry.
   */
  lemma RefreshesAreSpaced(steps: seq<Step>, now: int, i: nat, j: nat)
    requires var log := Run(steps, Initial(now)).log;
             && i < j < |log| && log[i].Stored? && log[j].Stored? && log[i].key == log[j].key
             && (forall k :: i < k < j && log[k].Stored? ==> log[k].key != log[i].key)
             && !log[j].forced && log[i].token.text != ""
    ensures var log := Run(steps, Initial(now)).log;
            log[i].token.expires - SAFETY <= log[j].startedAt <= log[j].at
  {
    EveryRunKeeps(steps, now);
    hide Run;
    var log := Run(steps, Initial(now)).log;
    LogOkAt(log, j);
    LatestIs(log[..j], i, log[i].key);
  }

  function StoredCount(log: seq<Event>, key: Key): nat {
    if log == [] then 0
    else StoredCount(log[..|log| - 1], key) + if log[|log| - 1].Stored? && log[|log| - 1].key == key then 1 else 0
  }

  lemma {:induction false} LastStored(log: seq<Event>, key: Key) returns (i: nat)
    requires StoredCount(log, key) > 0
    ensures i < |log| && log[i].Stored? && log[i].key == key
    ensures forall k :: i < k < |log| && log[k].Stored? ==> log[k].key != key
    ensures StoredCount(log[..i], key) == StoredCount(log, key) - 1
    decreases |log|
  {
    var n := |log| - 1;
    if log[n].Stored? && log[n].key == key {
      i := n;
    } else {
      i := LastStored(log[..n], key);
      assert log[..n][..i] == log[..i];
    }
  }

  /** The last two tokens stored for a key. */
  lemma LastTwo(log: seq<Event>, key: Key) returns (i: nat, j: nat)
    requires StoredCount(log, key) > 1
    ensures i < j < |log| && log[i].Stored? && log[j].Stored? && log[i].key == log[j].key == key
    ensures forall k :: i < k < j && log[k].Stored? ==> log[k].key != key
  {
    j := LastStored(log, key);
    i := LastStored(log[..j], key);
    hide StoredCount;
    forall k | i < k < j && log[k].Stored? ensures log[k].key != key { assert log[..j][k] == log[k]; }
  }

  lemma StaleByTheNext(steps: seq<Step>, now: int, i: nat, j: nat)
    requires var log := Run(steps, Initial(now)).log;
             && i < j < |log| && log[i].Stored? && log[j].Stored? && log[i].key == log[j].key
             && (forall k :: i < k < j && log[k].Stored? ==> log[k].key != log[i].key) && !log[j].forced
    ensures var s := Run(steps, Initial(now));
            !Fresh(Some(s.log[i].token), s.now)
  {
    hide LogOk;
    EveryRunKeeps(steps, now);
    var s := Run(steps, Initial(now));
    assert s.log[j].at <= s.now;
    hide Inv, Run;
    if s.log[i].token.text != "" { RefreshesAreSpaced(steps, now, i, j); }
  }

  /**
   However many unforced callers arrive on an empty cache, and whatever the database does, a key is
   refreshed successfully at most once as long as the tokens stored for it stay fresh.
   */
  lemma AtMostOneRefresh(steps: seq<Step>, now: int, key: Key)
    requires var s := Run(steps, Initial(now));
             forall i :: 0 <= i < |s.log| && s.log[i].Stored? && s.log[i].key == key ==>
               !s.log[i].forced && Fresh(Some(s.log[i].token), s.now)
    ensures StoredCount(Run(steps, Initial(now)).log, key) <= 1
  {
    hide Run, StoredCount, Fresh;
    if StoredCount(Run(steps, Initial(now)).log, key) > 1 {
      var i, j := LastTwo(Run(steps, Initial(now)).log, key);
      StaleByTheNext(steps, now, i, j);
    }
  }

  // ------------------------------------------------------------ the objects

  /** The process-wide dictionaries: cached tokens and held locks. */
  class ProcessTokens {
    var cache: map<Key, Token>
    var locked: map<Key, CallerId>

    constructor ()
      ensures cache == map[] && locked == map[]
    {
      cache, locked := map[], map[];
    }

    /** `_read_valid_token_from_process_memory`. */
    method ReadValid(key: Key, now: int) returns (text: Option<string>)
      ensures text == if Fresh(if key in cache then Some(cache[key]) else None, now) then Some(cache[key].text) else None
    {
      if key !in cache {
        return None;
      }
      var record := cache[key];
      if !IsTokenValid(record.expires, now) || record.text == "" {
        return None;
      }
      text := Some(record.text);
    }

    /** The part under the lock up to the request: the outcome of a lookup, or `None` when the request goes out. */
    method EnterLocked(s: State, c: CallerId, row: Row, legacy: LegacyFile) returns (done: Option<Phase>)
      requires c in s.callers && s.callers[c].Waiting? && s.callers[c].key !in locked
      requires cache == s.memory && locked == s.holder
      modifies this`locked
      ensures var after := Entered(s, c, s.callers[c].key, s.callers[c].forced, row, legacy);
              && cache == after.memory && locked == after.holder
              && (if done.Some? then after == s.Set(c, done.value) else after == Begun(s, c, s.callers[c].key, s.callers[c].forced))
    {
      var key, forced := s.callers[c].key, s.callers[c].forced;
      if !forced {
        var looked := LookUp(row, s.now);
        if looked.Raises? {
          return Some(Raised);
        }
        if looked.Found? {
          return Some(Returned(looked.text));
        }
        var remembered := ReadValid(key, s.now);
        if remembered.Some? {
          return Some(Returned(remembered.value));
        }
        if looked == Nothing(false) && legacy.File? && Fresh(Some(legacy.token), s.now) {
          return Some(if legacy.persists then Returned(legacy.token.text) else Raised);
        }
      }
      locked := locked[key := c];
      done := None;
    }

    /** The answer arrives: remember the token first, then release the lock. */
    method StoreAnswer(s: State, c: CallerId, text: string, raw: Option<int>,
        expiresIn: Option<int>) returns (token: Token)
      requires c in s.callers && s.callers[c].Refreshing? && cache == s.memory && locked == s.holder
      modifies this
      ensures var after := Next(s, Answer(c, text, raw, expiresIn));
              cache == after.memory && locked == after.holder && after.callers[c] == Returned(token.text)
    {
      token := Token(text, ParseExpiry(raw, expiresIn, s.now));
      cache := cache[s.callers[c].key := token];
      locked := locked - {s.callers[c].key};
    }
  }
}
