/**
 When the base quality gate lets a portfolio through, said of the episodes, lots, links and canonical
 quantities alone, and the fault it names when it does not.
 */
module LotLaws {
  import opened LotThreads
  import opened Wrappers

  /** An open episode of this account and instrument. */
  predicate OpenAt(e: Episode, where: Scope) {
    e.account == where.0 && e.instrument == where.1 && e.quantity > 0.0
  }

  function OpenSum(episodes: seq<Episode>, where: Scope): real {
    if episodes == [] then 0.0
    else
      var last := episodes[|episodes| - 1];
      OpenSum(episodes[..|episodes| - 1], where) + if OpenAt(last, where) then last.quantity else 0.0
  }

  predicate HasOpen(episodes: seq<Episode>, where: Scope) {
    exists i :: 0 <= i < |episodes| && OpenAt(episodes[i], where)
  }

  /** The canonical positions are exactly the scopes of open episodes, with their quantities. */
  ghost predicate MatchesOpen(episodes: seq<Episode>, canonical: map<Scope, real>) {
    forall where: Scope ::
      (where in canonical <==> HasOpen(episodes, where)) && (where in canonical ==> canonical[where] == OpenSum(episodes, where))
  }

  lemma {:induction false} OpenScopesAre(episodes: seq<Episode>, where: Scope)
    ensures where in OpenScopes(episodes) <==> HasOpen(episodes, where)
    ensures where in OpenScopes(episodes) ==> OpenScopes(episodes)[where] == OpenSum(episodes, where)
    ensures !HasOpen(episodes, where) ==> OpenSum(episodes, where) == 0.0
  {
    if episodes != [] {
      var n := |episodes| - 1;
      OpenScopesAre(episodes[..n], where);
      if OpenAt(episodes[n], where) { assert HasOpen(episodes, where); }
      if HasOpen(episodes[..n], where) {
        var i :| 0 <= i < n && OpenAt(episodes[..n][i], where);
        assert OpenAt(episodes[i], where);
      }
      if HasOpen(episodes, where) && !OpenAt(episodes[n], where) {
        var i :| 0 <= i < |episodes| && OpenAt(episodes[i], where);
        assert OpenAt(episodes[..n][i], where);
      }
    }
  }

  lemma CanonicalMatches(episodes: seq<Episode>, canonical: map<Scope, real>)
    ensures OpenScopes(episodes) == canonical <==> MatchesOpen(episodes, canonical)
  {
    hide OpenScopes, HasOpen, OpenSum;
    forall where: Scope
      ensures where in OpenScopes(episodes) <==> HasOpen(episodes, where)
      ensures where in OpenScopes(episodes) ==> OpenScopes(episodes)[where] == OpenSum(episodes, where)
    {
      OpenScopesAre(episodes, where);
    }
    if MatchesOpen(episodes, canonical) {
      assert forall where: Scope :: where in OpenScopes(episodes) <==> where in canonical;
    }
  }

  /** An open lot has one thread. */
  predicate IsLinked(lot: Lot, links: Links) {
    lot.remaining > 0.0 ==> lot.id in links && |links[lot.id]| == 1
  }

  predicate HasEpisode(lot: Lot, episodes: seq<Episode>) {
    exists i :: 0 <= i < |episodes| && episodes[i].id == lot.episode
  }

  /** The first lot that is not linked or has no episode names the fault. */
  ghost predicate FirstLotAtFault(lots: seq<Lot>, episodes: seq<Episode>, links: Links, fault: string) {
    exists k :: 0 <= k < |lots| && AtFault(lots[k], episodes, links, fault) && AllSound(lots[..k], episodes, links)
  }

  predicate AtFault(lot: Lot, episodes: seq<Episode>, links: Links, fault: string) {
    if !IsLinked(lot, links) then fault == "thread_link_coverage_mismatch"
    else !HasEpisode(lot, episodes) && fault == "lot_episode_missing"
  }

  predicate LotSound(lot: Lot, episodes: seq<Episode>, links: Links) {
    IsLinked(lot, links) && HasEpisode(lot, episodes)
  }

  predicate AllSound(lots: seq<Lot>, episodes: seq<Episode>, links: Links) {
    forall i :: 0 <= i < |lots| ==> LotSound(lots[i], episodes, links)
  }

  lemma {:induction false} FirstFaultIs(lots: seq<Lot>, episodes: seq<Episode>, links: Links)
    ensures FirstFault(lots, episodes, links).None? <==> AllSound(lots, episodes, links)
    ensures FirstFault(lots, episodes, links).Some? ==>
              FirstLotAtFault(lots, episodes, links, FirstFault(lots, episodes, links).value)
  {
    hide LotFault, LotSound, AtFault, FirstLotAtFault, AllSound;
    if lots == [] {
      NoneAtFault(episodes, links);
    } else {
      var n := |lots| - 1;
      FirstFaultIs(lots[..n], episodes, links);
      LotFaultIs(lots[n], episodes, links);
      SoundMore(lots, episodes, links);
      var fault := FirstFault(lots, episodes, links);
      if FirstFault(lots[..n], episodes, links).Some? {
        FaultMore(lots, episodes, links, fault.value);
      } else if fault.Some? {
        FaultLast(lots, episodes, links, fault.value);
      }
    }
  }

  lemma NoneAtFault(episodes: seq<Episode>, links: Links)
    ensures AllSound([], episodes, links)
  {
  }

  lemma SoundMore(lots: seq<Lot>, episodes: seq<Episode>, links: Links)
    requires lots != []
    ensures var n := |lots| - 1;
            AllSound(lots, episodes, links) <==> AllSound(lots[..n], episodes, links) && LotSound(lots[n], episodes, links)
  {
    hide LotSound;
    var n := |lots| - 1;
    assert forall i :: 0 <= i < n ==> lots[i] == lots[..n][i];
  }

  lemma FaultMore(lots: seq<Lot>, episodes: seq<Episode>, links: Links, fault: string)
    requires lots != [] && FirstLotAtFault(lots[..|lots| - 1], episodes, links, fault)
    ensures FirstLotAtFault(lots, episodes, links, fault)
  {
    hide AtFault, LotSound;
    var front := lots[..|lots| - 1];
    var k :| 0 <= k < |front| && AtFault(front[k], episodes, links, fault) && AllSound(front[..k], episodes, links);
    assert AtFault(lots[k], episodes, links, fault) && front[..k] == lots[..k];
  }

  lemma FaultLast(lots: seq<Lot>, episodes: seq<Episode>, links: Links, fault: string)
    requires lots != [] && AllSound(lots[..|lots| - 1], episodes, links) && AtFault(lots[|lots| - 1], episodes, links, fault)
    ensures FirstLotAtFault(lots, episodes, links, fault)
  {
  }

  lemma LotFaultIs(lot: Lot, episodes: seq<Episode>, links: Links)
    ensures LotFault(lot, episodes, links).None? <==> LotSound(lot, episodes, links)
    ensures LotFault(lot, episodes, links).Some? ==> AtFault(lot, episodes, links, LotFault(lot, episodes, links).value)
  {
  }

  predicate EpisodesSound(episodes: seq<Episode>) {
    forall i :: 0 <= i < |episodes| ==> episodes[i].status == "reconstructed"
  }

  predicate LotRowsSound(lots: seq<Lot>) {
    forall i :: 0 <= i < |lots| ==> lots[i].status == "reconstructed" && lots[i].quality == "pass"
  }

  predicate QuantitiesAgree(episodes: seq<Episode>, lots: seq<Lot>) {
    forall i :: 0 <= i < |episodes| ==> LotSum(lots, episodes[i].id) == episodes[i].quantity
  }

  /** What the gate answers, in its order. */
  lemma QualityExactly(episodes: seq<Episode>, lots: seq<Lot>, links: Links, canonical: map<Scope, real>)
    ensures var fault := BaseQuality(episodes, lots, links, canonical);
            if !EpisodesSound(episodes) then fault == Some("episode_reconstruction_non_pass")
            else if !LotRowsSound(lots) then fault == Some("lot_reconstruction_non_pass")
            else if !QuantitiesAgree(episodes, lots) then fault == Some("lot_quantity_reconciliation_failed")
            else if !MatchesOpen(episodes, canonical) then fault == Some("canonical_position_quantity_mismatch")
            else if AllSound(lots, episodes, links) then fault == None
            else fault.Some? && FirstLotAtFault(lots, episodes, links, fault.value)
  {
    hide OpenScopes, MatchesOpen, FirstFault, FirstLotAtFault, AllSound, LotSum;
    CanonicalMatches(episodes, canonical);
    FirstFaultIs(lots, episodes, links);
    assert Reconstructed(episodes) <==> EpisodesSound(episodes);
    assert LotsPass(lots) <==> LotRowsSound(lots);
    assert EpisodesAgree(episodes, lots) <==> QuantitiesAgree(episodes, lots);
  }

  /** A thread's lots are exactly the open lots linked to it and nothing else. */
  lemma ThreadExactly(lots: seq<Lot>, links: Links, thread: string, lot: Lot)
    ensures lot in InThread(lots, links, thread) <==>
              lot in lots && lot.remaining > 0.0 && lot.id in links && links[lot.id] == [thread]
  {
    InThreadMembers(lots, links, thread, lot);
    hide InThread;
  }
}
