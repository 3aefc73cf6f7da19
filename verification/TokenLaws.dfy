/**
 What each step of the token cache does for its caller, said of the row, the memory, the legacy file
 and the clock alone: ten minutes are 600 seconds, the default lifetime is 23 hours and 50 minutes.
 */
module TokenLaws {
  import opened TokenCache
  import opened Wrappers

  predicate Usable(text: string, expires: int, now: int) {
    now + 600 < expires && text != ""
  }

  /** The row holds a token more than ten minutes from its expiry, and its ciphertext opens. */
  predicate RowServes(row: Row, now: int) {
    row.Row? && row.cipher.Opens? && Usable(row.cipher.text, row.expires, now)
  }

  /** The row is still valid but cannot be decrypted. */
  predicate RowRaises(row: Row, now: int) {
    row.Row? && now + 600 < row.expires && row.cipher.Undecryptable?
  }

  predicate MemoryServes(s: State, key: Key) {
    key in s.memory && Usable(s.memory[key].text, s.memory[key].expires, s.now)
  }

  /** The file is read only when the row was looked for and is not there. */
  predicate FileServes(row: Row, legacy: LegacyFile, now: int) {
    row.Absent? && legacy.File? && Usable(legacy.token.text, legacy.token.expires, now)
  }

  /** Before the lock: an unforced caller gets the row's token, else the memory's, else waits. */
  lemma ArrivalExactly(s: State, c: CallerId, key: Key, forced: bool, row: Row)
    requires c !in s.callers
    ensures var s' := Next(s, Arrive(c, key, forced, row));
            s' == s.(callers := s.callers[c :=
                    if forced then Waiting(key, forced)
                    else if RowRaises(row, s.now) then Raised
                    else if RowServes(row, s.now) then Returned(row.cipher.text)
                    else if MemoryServes(s, key) then Returned(s.memory[key].text)
                    else Waiting(key, forced)])
  {
  }

  /** Under the lock: the row's token, else the memory's, else the file's, else a request goes out and the lock is kept. */
  lemma EntryExactly(s: State, c: CallerId, row: Row, legacy: LegacyFile)
    requires Enabled(s, Enter(c, row, legacy))
    ensures var key, forced, s' := s.callers[c].key, s.callers[c].forced, Next(s, Enter(c, row, legacy));
            if !forced && RowRaises(row, s.now) then s' == s.(callers := s.callers[c := Raised])
            else if !forced && RowServes(row, s.now) then s' == s.(callers := s.callers[c := Returned(row.cipher.text)])
            else if !forced && MemoryServes(s, key) then s' == s.(callers := s.callers[c := Returned(s.memory[key].text)])
            else if !forced && FileServes(row, legacy, s.now) then
              s' == s.(callers := s.callers[c := if legacy.persists then Returned(legacy.token.text) else Raised])
            else s' == s.(holder := s.holder[key := c], callers := s.callers[c := Refreshing(key, forced, s.now)],
                          log := s.log + [Started(key, forced, s.now)])
  {
  }

  /** The expiry an answer is stored with. */
  predicate ExpiryFrom(expires: int, raw: Option<int>, expiresIn: Option<int>, now: int) {
    && (raw.Some? ==> expires == raw.value)
    && (raw.None? && expiresIn.Some? && expiresIn.value != 0 ==> expires - now == expiresIn.value)
    && (raw.None? && (expiresIn.None? || expiresIn.value == 0) ==> expires - now == 85_800)
  }

  /** An answer is returned, remembered with the expiry it gives, logged, and frees the lock. */
  lemma AnswerExactly(s: State, c: CallerId, text: string, raw: Option<int>, expiresIn: Option<int>)
    requires Enabled(s, Answer(c, text, raw, expiresIn))
    ensures var s', phase := Next(s, Answer(c, text, raw, expiresIn)), s.callers[c];
            && phase.key in s'.memory && s'.memory == s.memory[phase.key := s'.memory[phase.key]]
            && s'.memory[phase.key].text == text && ExpiryFrom(s'.memory[phase.key].expires, raw, expiresIn, s.now)
            && s'.log == s.log + [Stored(phase.key, s'.memory[phase.key], phase.forced, phase.startedAt, s.now)]
            && s'.callers == s.callers[c := Returned(text)] && s'.holder == s.holder - {phase.key} && s'.now == s.now
  {
  }

  /** A failed request raises in its caller and frees the lock; nothing is remembered. */
  lemma FailureExactly(s: State, c: CallerId)
    requires Enabled(s, Fail(c))
    ensures Next(s, Fail(c)) == s.(holder := s.holder - {s.callers[c].key}, callers := s.callers[c := Raised])
  {
  }

  /** The last token stored for a key by the answers of a run, if any. */
  function LastStored(log: seq<Event>, key: Key): Option<Token> {
    if log == [] then None
    else if log[|log| - 1].Stored? && log[|log| - 1].key == key then Some(log[|log| - 1].token)
    else LastStored(log[..|log| - 1], key)
  }

  lemma {:induction false} LastStoredIsLatest(log: seq<Event>, key: Key)
    ensures LastStored(log, key) == Latest(log, key)
  {
    if log != [] { LastStoredIsLatest(log[..|log| - 1], key); }
  }

  /**
   After any run: while the token last stored for a key is more than ten minutes from its expiry, an
   unforced caller whose row serves nothing is given exactly that token, before and under the lock.
   */
  lemma StoredTokenIsReused(steps: seq<Step>, now: int, c: CallerId, key: Key, row: Row, token: Token)
    requires var s := Run(steps, Initial(now));
             && LastStored(s.log, key) == Some(token) && Usable(token.text, token.expires, s.now)
             && !RowServes(row, s.now) && !RowRaises(row, s.now)
    ensures var s := Run(steps, Initial(now));
            && (c !in s.callers ==> Next(s, Arrive(c, key, false, row)).callers[c] == Returned(token.text))
            && forall legacy :: Enabled(s, Enter(c, row, legacy)) && s.callers[c] == Waiting(key, false) ==>
                 Next(s, Enter(c, row, legacy)).callers[c] == Returned(token.text)
  {
    var s := Run(steps, Initial(now));
    EveryRunKeeps(steps, now);
    LastStoredIsLatest(s.log, key);
    assert s.Held(key) == Latest(s.log, key);
    hide Run, LastStored, Latest, Next, Inv, Usable, RowServes, RowRaises, MemoryServes;
    if c !in s.callers { ArrivalExactly(s, c, key, false, row); }
    forall legacy | Enabled(s, Enter(c, row, legacy)) && s.callers[c] == Waiting(key, false)
      ensures Next(s, Enter(c, row, legacy)).callers[c] == Returned(token.text)
    {
      EntryExactly(s, c, row, legacy);
    }
  }

  /** A caller, a request and its answer: the first run of a key, from empty memory. */
  lemma FirstRequest(now: int, key: Key, text: string, lifetime: int) returns (steps: seq<Step>)
    requires lifetime != 0
    ensures var s := Run(steps, Initial(now));
            && s.callers == map[0 := Returned(text)] && s.holder == map[]
            && s.memory == map[key := Token(text, now + lifetime)]
            && s.log == [Started(key, false, now), Stored(key, Token(text, now + lifetime), false, now, now)]
  {
    var arrive, enter, answer := Arrive(0, key, false, Absent), Enter(0, Absent, NoFile), Answer(0, text, None, Some(lifetime));
    steps := [arrive, enter, answer];
    assert steps[..2] == [arrive, enter] && steps[..2][..1] == [arrive] && steps[..1][..0] == [];
    assert Run([arrive], Initial(now)) == Next(Initial(now), arrive);
    assert Run(steps[..2], Initial(now)) == Next(Run([arrive], Initial(now)), enter);
  }
}
