/**
 Lots, episodes and threads: the base quality gate over reconstructed quantities, and the
 grouping of open lots into the threads they are linked to.
 */
module LotThreads {
  import opened Wrappers
  import opened Names
  import opened Sums

  /** An account and an instrument. */
  type Scope = (string, string)

  datatype Episode = Episode(id: string, account: string, instrument: string, quantity: real, status: string) {
    function Where(): Scope {
      (account, instrument)
    }
  }

  datatype Lot = Lot(
    id: string, episode: string, account: string, instrument: string, remaining: real, status: string, quality: string)
  {
    function Where(): Scope {
      (account, instrument)
    }
  }

  type Links = map<string, seq<string>>

  function LinksOf(links: Links, lot: Lot): seq<string> {
    if lot.id in links then links[lot.id] else []
  }

  /** What the lots of one episode still hold. */
  function LotSum(lots: seq<Lot>, episode: string): real {
    if lots == [] then 0.0
    else
      var last := lots[|lots| - 1];
      LotSum(lots[..|lots| - 1], episode) + if last.episode == episode then last.remaining else 0.0
  }

  /** What the lots of one scope still hold. */
  function ScopeSum(lots: seq<Lot>, where: Scope): real {
    if lots == [] then 0.0
    else
      var last := lots[|lots| - 1];
      ScopeSum(lots[..|lots| - 1], where) + if last.Where() == where then last.remaining else 0.0
  }

  /** The quantities of the episodes still open, by scope. */
  function OpenScopes(episodes: seq<Episode>): map<Scope, real> {
    if episodes == [] then map[]
    else
      var front, last := OpenScopes(episodes[..|episodes| - 1]), episodes[|episodes| - 1];
      if last.quantity > 0.0 then
        front[last.Where() := (if last.Where() in front then front[last.Where()] else 0.0) + last.quantity]
      else front
  }

  predicate Reconstructed(episodes: seq<Episode>) {
    forall i :: 0 <= i < |episodes| ==> episodes[i].status == "reconstructed"
  }

  predicate LotsPass(lots: seq<Lot>) {
    forall i :: 0 <= i < |lots| ==> lots[i].status == "reconstructed" && lots[i].quality == "pass"
  }

  /** Every episode's quantity is what its lots hold. */
  predicate EpisodesAgree(episodes: seq<Episode>, lots: seq<Lot>) {
    forall i :: 0 <= i < |episodes| ==> LotSum(lots, episodes[i].id) == episodes[i].quantity
  }

  predicate Known(episodes: seq<Episode>, id: string) {
    exists i :: 0 <= i < |episodes| && episodes[i].id == id
  }

  function LotFault(lot: Lot, episodes: seq<Episode>, links: Links): Option<string> {
    if lot.remaining > 0.0 && |LinksOf(links, lot)| != 1 then Some("thread_link_coverage_mismatch")
    else if !Known(episodes, lot.episode) then Some("lot_episode_missing")
    else None
  }

  /** The fault of the first lot that has one. */
  function FirstFault(lots: seq<Lot>, episodes: seq<Episode>, links: Links): Option<string> {
    if lots == [] then None
    else if FirstFault(lots[..|lots| - 1], episodes, links).Some? then FirstFault(lots[..|lots| - 1], episodes, links)
    else LotFault(lots[|lots| - 1], episodes, links)
  }

  function BaseQuality(episodes: seq<Episode>, lots: seq<Lot>, links: Links, canonical: map<Scope, real>): Option<string> {
    if !Reconstructed(episodes) then Some("episode_reconstruction_non_pass")
    else if !LotsPass(lots) then Some("lot_reconstruction_non_pass")
    else if !EpisodesAgree(episodes, lots) then Some("lot_quantity_reconciliation_failed")
    else if OpenScopes(episodes) != canonical then Some("canonical_position_quantity_mismatch")
    else FirstFault(lots, episodes, links)
  }

  // ---------------------------------------------------------- the gate

  lemma {:induction false} FaultStays(lots: seq<Lot>, k: nat, episodes: seq<Episode>, links: Links)
    requires k <= |lots| && FirstFault(lots[..k], episodes, links).Some?
    ensures FirstFault(lots, episodes, links) == FirstFault(lots[..k], episodes, links)
    decreases |lots|
  {
    if k == |lots| {
      assert lots[..k] == lots;
    } else {
      assert lots[..|lots| - 1][..k] == lots[..k];
      FaultStays(lots[..|lots| - 1], k, episodes, links);
    }
  }

  /** The first loop: what every episode's lots hold, by episode. */
  method SumLots(lots: seq<Lot>) returns (sums: map<string, real>)
    ensures forall id :: LotSum(lots, id) == if id in sums then sums[id] else 0.0
  {
    sums := map[];
    var k := 0;
    while k < |lots|
      invariant 0 <= k <= |lots|
      invariant forall id :: LotSum(lots[..k], id) == if id in sums then sums[id] else 0.0
    {
      var lot := lots[k];
      assert lots[..k + 1][..k] == lots[..k];
      sums := sums[lot.episode := (if lot.episode in sums then sums[lot.episode] else 0.0) + lot.remaining];
      k := k + 1;
    }
    assert lots[..k] == lots;
  }

  /** The second loop: `None` at the first episode that disagrees with its lots. */
  method CheckEpisodes(episodes: seq<Episode>, lots: seq<Lot>) returns (scopes: Option<map<Scope, real>>)
    ensures scopes == if EpisodesAgree(episodes, lots) then Some(OpenScopes(episodes)) else None
  {
    var sums := SumLots(lots);
    var open: map<Scope, real> := map[];
    var k := 0;
    while k < |episodes|
      invariant 0 <= k <= |episodes| && open == OpenScopes(episodes[..k])
      invariant forall i :: 0 <= i < k ==> LotSum(lots, episodes[i].id) == episodes[i].quantity
    {
      hide LotSum;
      var episode := episodes[k];
      assert episodes[..k + 1][..k] == episodes[..k];
      if (if episode.id in sums then sums[episode.id] else 0.0) != episode.quantity {
        return None;
      }
      if episode.quantity > 0.0 {
        var where := episode.Where();
        open := open[where := (if where in open then open[where] else 0.0) + episode.quantity];
      }
      k := k + 1;
    }
    assert episodes[..k] == episodes;
    scopes := Some(open);
  }

  /** `_base_quality`: the first gate that fails, if any. */
  method CheckBaseQuality(episodes: seq<Episode>, lots: seq<Lot>, links: Links, canonical: map<Scope, real>)
    returns (fault: Option<string>)
    ensures fault == BaseQuality(episodes, lots, links, canonical)
  {
    hide OpenScopes, EpisodesAgree, Known;
    if !Reconstructed(episodes) {
      return Some("episode_reconstruction_non_pass");
    }
    if !LotsPass(lots) {
      return Some("lot_reconstruction_non_pass");
    }
    var scopes := CheckEpisodes(episodes, lots);
    if scopes.None? {
      return Some("lot_quantity_reconciliation_failed");
    }
    if scopes.value != canonical {
      return Some("canonical_position_quantity_mismatch");
    }
    hide Reconstructed, LotsPass;
    var k := 0;
    while k < |lots|
      invariant 0 <= k <= |lots| && FirstFault(lots[..k], episodes, links) == None
    {
      assert lots[..k + 1][..k] == lots[..k];
      var lot := lots[k];
      if lot.remaining > 0.0 && |LinksOf(links, lot)| != 1 {
        FaultStays(lots, k + 1, episodes, links);
        return Some("thread_link_coverage_mismatch");
      }
      if !Known(episodes, lot.episode) {
        FaultStays(lots, k + 1, episodes, links);
        return Some("lot_episode_missing");
      }
      k := k + 1;
    }
    assert lots[..k] == lots;
    fault := None;
  }

  // ---------------------------------------------- quantities by scope

  /** The rows come from queries that keep one row per id, and lots carry their episode's scope. */
  ghost predicate WellFormed(episodes: seq<Episode>, lots: seq<Lot>) {
    && (forall i, j :: 0 <= i < j < |episodes| ==> episodes[i].id != episodes[j].id)
    && (forall i :: 0 <= i < |lots| ==> lots[i].remaining >= 0.0)
    && (forall i, j :: 0 <= i < |lots| && 0 <= j < |episodes| && lots[i].episode == episodes[j].id ==>
          lots[i].Where() == episodes[j].Where())
  }

  /** The quantities of all episodes of a scope. */
  function EpisodeSum(episodes: seq<Episode>, lots: seq<Lot>, where: Scope): real {
    if episodes == [] then 0.0
    else
      var last := episodes[|episodes| - 1];
      EpisodeSum(episodes[..|episodes| - 1], lots, where) + if last.Where() == where then LotSum(lots, last.id) else 0.0
  }

  function AtScope(canonical: map<Scope, real>, where: Scope): real {
    if where in canonical then canonical[where] else 0.0
  }

  lemma {:induction false} LotSumSign(lots: seq<Lot>, id: string)
    requires forall i :: 0 <= i < |lots| ==> lots[i].remaining >= 0.0
    ensures LotSum(lots, id) >= 0.0
  {
    if lots != [] { LotSumSign(lots[..|lots| - 1], id); }
  }

  lemma {:induction false} OpenScopesSum(episodes: seq<Episode>, lots: seq<Lot>, where: Scope)
    requires EpisodesAgree(episodes, lots) && forall i :: 0 <= i < |lots| ==> lots[i].remaining >= 0.0
    ensures AtScope(OpenScopes(episodes), where) == EpisodeSum(episodes, lots, where)
  {
    if episodes != [] {
      OpenScopesSum(episodes[..|episodes| - 1], lots, where);
      LotSumSign(lots, episodes[|episodes| - 1].id);
    }
  }

  /** Taking one more lot into account changes the sum of exactly one episode. */
  lemma {:induction false} EpisodeSumStep(episodes: seq<Episode>, lots: seq<Lot>, where: Scope)
    requires lots != [] && WellFormed(episodes, lots)
    ensures var last := lots[|lots| - 1];
            EpisodeSum(episodes, lots, where) ==
            EpisodeSum(episodes, lots[..|lots| - 1], where) +
              if Known(episodes, last.episode) && last.Where() == where then last.remaining else 0.0
  {
    if episodes != [] {
      var front, e, last := episodes[..|episodes| - 1], episodes[|episodes| - 1], lots[|lots| - 1];
      EpisodeSumStep(front, lots, where);
      KnownStep(episodes, last.episode);
    }
  }

  lemma KnownStep(episodes: seq<Episode>, id: string)
    requires episodes != [] && forall i, j :: 0 <= i < j < |episodes| ==> episodes[i].id != episodes[j].id
    ensures var front, e := episodes[..|episodes| - 1], episodes[|episodes| - 1];
            (Known(episodes, id) <==> Known(front, id) || e.id == id) && !(Known(front, id) && e.id == id)
  {
    var n := |episodes| - 1;
    if Known(episodes, id) {
      var i :| 0 <= i <= n && episodes[i].id == id;
      if i < n { assert episodes[..n][i].id == id; }
    }
    if Known(episodes[..n], id) {
      var i :| 0 <= i < n && episodes[..n][i].id == id;
      assert episodes[i].id == id;
    }
    assert episodes[n].id == episodes[|episodes| - 1].id;
  }

  lemma {:induction false} ScopesAgree(episodes: seq<Episode>, lots: seq<Lot>, where: Scope)
    requires WellFormed(episodes, lots) && forall i :: 0 <= i < |lots| ==> Known(episodes, lots[i].episode)
    ensures ScopeSum(lots, where) == EpisodeSum(episodes, lots, where)
  {
    hide Known;
    if lots == [] {
      NoLots(episodes, where);
    } else {
      ScopesAgree(episodes, lots[..|lots| - 1], where);
      EpisodeSumStep(episodes, lots, where);
    }
  }

  lemma {:induction false} NoLots(episodes: seq<Episode>, where: Scope)
    ensures EpisodeSum(episodes, [], where) == 0.0
  {
    if episodes != [] { NoLots(episodes[..|episodes| - 1], where); }
  }

  lemma {:induction false} NoFaultMeans(lots: seq<Lot>, episodes: seq<Episode>, links: Links)
    requires FirstFault(lots, episodes, links) == None
    ensures forall i :: 0 <= i < |lots| ==>
              Known(episodes, lots[i].episode) && (lots[i].remaining > 0.0 ==> |LinksOf(links, lots[i])| == 1)
  {
    hide Known;
    if lots != [] { NoFaultMeans(lots[..|lots| - 1], episodes, links); }
  }

  // ----------------------------------------------------------- the threads

  predicate Grouped(lot: Lot, links: Links) {
    lot.remaining > 0.0 && |LinksOf(links, lot)| == 1
  }

  /** The open lots of one thread, in lot order. */
  function InThread(lots: seq<Lot>, links: Links, thread: string): seq<Lot> {
    if lots == [] then []
    else
      var last := lots[|lots| - 1];
      InThread(lots[..|lots| - 1], links, thread) +
      if Joins(last, links, thread) then [last] else []
  }

  predicate Joins(lot: Lot, links: Links, thread: string) {
    Grouped(lot, links) && LinksOf(links, lot)[0] == thread
  }

  lemma ThreadStep(lots: seq<Lot>, k: nat, links: Links, thread: string)
    requires k < |lots|
    ensures InThread(lots[..k + 1], links, thread) ==
            InThread(lots[..k], links, thread) + if Joins(lots[k], links, thread) then [lots[k]] else []
  {
    assert lots[..k + 1][..k] == lots[..k];
  }

  function ThreadOf(threads: map<string, seq<Lot>>, thread: string): seq<Lot> {
    if thread in threads then threads[thread] else []
  }

  /** The dictionary lists a thread once it has a lot, and then all its lots. */
  ghost predicate ThreadsHold(threads: map<string, seq<Lot>>, lots: seq<Lot>, links: Links) {
    forall thread :: ThreadHolds(threads, lots, links, thread)
  }

  ghost predicate ThreadHolds(threads: map<string, seq<Lot>>, lots: seq<Lot>, links: Links, thread: string) {
    ThreadOf(threads, thread) == InThread(lots, links, thread) && (thread in threads <==> InThread(lots, links, thread) != [])
  }

  lemma ThreadGrows(threads: map<string, seq<Lot>>, lots: seq<Lot>, k: nat, links: Links, thread: string)
    requires k < |lots| && ThreadHolds(threads, lots[..k], links, thread)
    ensures var t := if Grouped(lots[k], links) then LinksOf(links, lots[k])[0] else thread;
            ThreadHolds(if Grouped(lots[k], links) then threads[t := ThreadOf(threads, t) + [lots[k]]] else threads,
                        lots[..k + 1], links, thread)
  {
    ThreadStep(lots, k, links, thread);
    hide InThread;
  }

  /** The grouping loop: a thread per link, its lots in order. */
  method GroupThreads(lots: seq<Lot>, links: Links) returns (threads: map<string, seq<Lot>>)
    ensures ThreadsHold(threads, lots, links)
  {
    threads := map[];
    var k := 0;
    while k < |lots|
      invariant 0 <= k <= |lots| && ThreadsHold(threads, lots[..k], links)
    {
      hide ThreadHolds, InThread;
      ghost var before := threads;
      if Grouped(lots[k], links) {
        var thread := LinksOf(links, lots[k])[0];
        threads := threads[thread := ThreadOf(threads, thread) + [lots[k]]];
      }
      ghost var longer := lots[..k + 1];
      forall thread ensures ThreadHolds(threads, longer, links, thread) {
        assert ThreadHolds(before, lots[..k], links, thread);
        ThreadGrows(before, lots, k, links, thread);
      }
      k := k + 1;
    }
    assert lots[..k] == lots;
  }

  lemma {:induction false} InThreadMembers(lots: seq<Lot>, links: Links, thread: string, lot: Lot)
    ensures lot in InThread(lots, links, thread) <==>
            lot in lots && Joins(lot, links, thread)
  {
    if lots != [] { InThreadMembers(lots[..|lots| - 1], links, thread, lot); }
  }

  function QuantityIn(lots: seq<Lot>, links: Links, where: Scope): string -> real {
    thread => ScopeSum(InThread(lots, links, thread), where)
  }

  function QuantityOf(lot: Lot, links: Links, where: Scope): string -> real {
    thread => if Joins(lot, links, thread) && lot.Where() == where then lot.remaining else 0.0
  }

  lemma QuantityStep(lots: seq<Lot>, links: Links, where: Scope, thread: string)
    requires lots != []
    ensures QuantityIn(lots[..|lots| - 1], links, where)(thread) ==
            QuantityIn(lots, links, where)(thread) - QuantityOf(lots[|lots| - 1], links, where)(thread)
  {
    var front, last := InThread(lots[..|lots| - 1], links, thread), lots[|lots| - 1];
    assert (front + [last])[..|front|] == front && front + [] == front;
  }

  lemma {:induction false} OneLotSum(threads: seq<string>, lot: Lot, links: Links, where: Scope)
    requires Distinct(threads) && (Grouped(lot, links) ==> LinksOf(links, lot)[0] in threads)
    ensures SumOf(threads, QuantityOf(lot, links, where)) ==
            if Grouped(lot, links) && lot.Where() == where then lot.remaining else 0.0
  {
    var counted := QuantityOf(lot, links, where);
    if Grouped(lot, links) && lot.Where() == where {
      var only := [LinksOf(links, lot)[0]];
      SumWithin(threads, only, counted, counted);
      assert only[..0] == [] && SumOf(only, counted) == counted(only[0]);
    } else {
      SumWithin(threads, [], counted, counted);
    }
  }

  lemma {:induction false} ThreadsHoldOpenLots(lots: seq<Lot>, links: Links, threads: seq<string>, where: Scope)
    requires Distinct(threads) && forall i :: 0 <= i < |lots| && Grouped(lots[i], links) ==> LinksOf(links, lots[i])[0] in threads
    requires forall i :: 0 <= i < |lots| ==> lots[i].remaining >= 0.0 && (lots[i].remaining > 0.0 ==> Grouped(lots[i], links))
    ensures SumOf(threads, QuantityIn(lots, links, where)) == ScopeSum(lots, where)
  {
    hide Distinct, QuantityOf, QuantityIn;
    if lots == [] {
      NoThreadLots(threads, links, where);
    } else {
      var front, last := lots[..|lots| - 1], lots[|lots| - 1];
      ThreadsHoldOpenLots(front, links, threads, where);
      OneLotSum(threads, last, links, where);
      forall i | 0 <= i < |threads|
        ensures QuantityIn(front, links, where)(threads[i]) ==
                QuantityIn(lots, links, where)(threads[i]) - QuantityOf(last, links, where)(threads[i])
      {
        QuantityStep(lots, links, where, threads[i]);
      }
      SumLinear(threads, QuantityIn(lots, links, where), QuantityOf(last, links, where), QuantityIn(front, links, where));
    }
  }

  lemma {:induction false} NoThreadLots(threads: seq<string>, links: Links, where: Scope)
    ensures SumOf(threads, QuantityIn([], links, where)) == 0.0
  {
    if threads != [] { NoThreadLots(threads[..|threads| - 1], links, where); }
  }

  // ------------------------------------------------------------- theorems

  /** The threads that have open lots, each once, in the order they are visited. */
  ghost predicate Visits(threads: seq<string>, lots: seq<Lot>, links: Links) {
    Distinct(threads) && forall thread :: thread in threads <==> InThread(lots, links, thread) != []
  }

  /**
   When the gate reports no fault, the threads partition the open lots, and what their lots hold
   of an account's instrument is the canonical position quantity, zero where there is none.
   */
  lemma ThreadsMatchPositions(episodes: seq<Episode>, lots: seq<Lot>, links: Links, canonical: map<Scope,
      real>, threads: seq<string>, where: Scope)
    requires WellFormed(episodes, lots) && Visits(threads, lots, links)
    requires BaseQuality(episodes, lots, links, canonical) == None
    ensures SumOf(threads, QuantityIn(lots, links, where)) == AtScope(canonical, where)
  {
    NoFaultMeans(lots, episodes, links);
    forall i | 0 <= i < |lots| && Grouped(lots[i], links) ensures LinksOf(links, lots[i])[0] in threads {
      InThreadMembers(lots, links, LinksOf(links, lots[i])[0], lots[i]);
      assert lots[i] in InThread(lots, links, LinksOf(links, lots[i])[0]);
    }
    hide SumOf, ScopeSum, EpisodeSum, OpenScopes, InThread, Known;
    ThreadsHoldOpenLots(lots, links, threads, where);
    ScopesAgree(episodes, lots, where);
    OpenScopesSum(episodes, lots, where);
  }

  lemma OpenLotsInOneThread(episodes: seq<Episode>, lots: seq<Lot>, links: Links, canonical: map<Scope, real>,
      threads: seq<string>, lot: Lot)
    requires Visits(threads, lots, links) && BaseQuality(episodes, lots, links, canonical) == None && lot in lots
    ensures lot.remaining > 0.0 <==> exists thread :: thread in threads && lot in InThread(lots, links, thread)
    ensures forall s, t :: s in threads && t in threads && lot in InThread(lots, links, s) && lot in InThread(lots, links, t) ==> s == t
  {
    NoFaultMeans(lots, episodes, links);
    hide InThread, Distinct;
    forall thread ensures lot in InThread(lots, links, thread) <==> Joins(lot, links, thread) {
      InThreadMembers(lots, links, thread, lot);
    }
    if lot.remaining > 0.0 {
      var thread := LinksOf(links, lot)[0];
      assert lot in InThread(lots, links, thread) && thread in threads;
    }
  }

  lemma {:induction false} InThreadOnce(lots: seq<Lot>, links: Links, thread: string)
    requires forall i, j :: 0 <= i < j < |lots| ==> lots[i].id != lots[j].id
    ensures forall i, j :: 0 <= i < j < |InThread(lots, links, thread)| ==>
              InThread(lots, links, thread)[i].id != InThread(lots, links, thread)[j].id
  {
    if lots != [] {
      var front, last := lots[..|lots| - 1], lots[|lots| - 1];
      InThreadOnce(front, links, thread);
      forall i | 0 <= i < |InThread(front, links, thread)| ensures InThread(front, links, thread)[i].id != last.id {
        InThreadMembers(front, links, thread, InThread(front, links, thread)[i]);
      }
    }
  }
}
