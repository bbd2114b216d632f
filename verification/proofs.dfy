/** The capital proof generator: proof creation delegated to the ledger, a
    lookup of stored proofs by id, and an asset's history grouped by event. */
module Proofs {
  import opened Types
  import opened Ledger

  /** One group of an asset's history: an event and the asset's ledger
      entries derived from it. */
  datatype HistoryGroup = HistoryGroup(event: CapitalEvent, entries: seq<LedgerEntry>)

  /** The entries whose event id is `e`, in recording order. */
  function EntriesWithEvent(ls: seq<LedgerEntry>, e: Id): seq<LedgerEntry>
  {
    if ls == [] then []
    else EntriesWithEvent(ls[..|ls| - 1], e) + (if ls[|ls| - 1].eventId == e then [ls[|ls| - 1]] else [])
  }

  /** `EntriesWithEvent` holds exactly the entries of event `e`. */
  lemma {:induction false} EntriesWithEventMembers(ls: seq<LedgerEntry>, e: Id)
    ensures forall l :: l in EntriesWithEvent(ls, e) <==> l in ls && l.eventId == e
  {
    if ls != [] {
      EntriesWithEventMembers(ls[..|ls| - 1], e);
      assert ls == ls[..|ls| - 1] + [ls[|ls| - 1]];
    }
  }

  /** The history comprehension: one group per event, in the events' order,
      each holding the entries that carry that event's id. */
  function History(events: seq<CapitalEvent>, entries: seq<LedgerEntry>): (r: seq<HistoryGroup>)
    ensures |r| == |events|
    ensures forall i :: 0 <= i < |r| ==> r[i].event == events[i]
    ensures forall i, l :: 0 <= i < |r| ==> (l in r[i].entries <==> l in entries && l.eventId == events[i].eventId)
  {
    EntriesWithEventMembersAll(entries);
    seq(|events|, i requires 0 <= i < |events| => HistoryGroup(events[i], EntriesWithEvent(entries, events[i].eventId)))
  }

  lemma EntriesWithEventMembersAll(ls: seq<LedgerEntry>)
    ensures forall e: Id, l :: l in EntriesWithEvent(ls, e) <==> l in ls && l.eventId == e
  {
    forall e: Id {
      EntriesWithEventMembers(ls, e);
    }
  }

  /** The events of asset `a` with event id `e`. */
  function EventsWithId(es: seq<CapitalEvent>, a: Id, e: Id): seq<CapitalEvent>
  {
    if es == [] then []
    else EventsWithId(es[..|es| - 1], a, e)
         + (if es[|es| - 1].assetId == a && es[|es| - 1].eventId == e then [es[|es| - 1]] else [])
  }

  /** The entry list pairs up with the event list: entry `i` is derived
      from event `i`, as `record_event` builds them. */
  predicate Paired(es: seq<CapitalEvent>, ls: seq<LedgerEntry>)
  {
    |es| == |ls| && forall i :: 0 <= i < |es| ==> ls[i] == EntryFor(es[i], ls[i].entryId)
  }

  /** Among paired lists, the asset's entries carrying event id `e` are as
      many as the asset's events with that id. */
  lemma {:induction false} PairedCounts(es: seq<CapitalEvent>, ls: seq<LedgerEntry>, a: Id, e: Id)
    requires Paired(es, ls)
    ensures |EntriesWithEvent(EntriesOf(ls, a), e)| == |EventsWithId(es, a, e)|
  {
    if es != [] {
      var k := |es| - 1;
      assert Paired(es[..k], ls[..k]);
      PairedCounts(es[..k], ls[..k], a, e);
      var own := EntriesOf(ls[..k], a);
      if ls[k].assetId == a {
        assert EntriesOf(ls, a) == own + [ls[k]];
        assert (own + [ls[k]])[..|own|] == own;
      } else {
        assert EntriesOf(ls, a) == own;
      }
    }
  }

  /** No two events share an event id. */
  predicate DistinctEventIds(es: seq<CapitalEvent>)
  {
    forall i, j :: 0 <= i < j < |es| ==> es[i].eventId != es[j].eventId
  }

  /** With distinct event ids, a recorded event is the only event of its
      asset with its id. */
  lemma {:induction false} OneEventWithId(es: seq<CapitalEvent>, ev: CapitalEvent)
    requires DistinctEventIds(es) && ev in es
    ensures |EventsWithId(es, ev.assetId, ev.eventId)| == 1
  {
    var k := |es| - 1;
    assert DistinctEventIds(es[..k]);
    if es[k] == ev {
      NoEventWithId(es[..k], ev.assetId, ev.eventId);
    } else {
      assert es == es[..k] + [es[k]];
      assert ev in es[..k];
      OneEventWithId(es[..k], ev);
      var i :| 0 <= i < k && es[i] == ev;
      assert es[k].eventId != ev.eventId;
    }
  }

  lemma {:induction false} NoEventWithId(es: seq<CapitalEvent>, a: Id, e: Id)
    requires forall i :: 0 <= i < |es| ==> es[i].eventId != e
    ensures EventsWithId(es, a, e) == []
  {
    if es != [] {
      NoEventWithId(es[..|es| - 1], a, e);
    }
  }

  /** With distinct event ids, every group of a valid ledger's history of
      an asset holds exactly one entry, the one derived from its event. */
  lemma HistoryGroupsHaveOneEntry(s: Store, h: HashPreimage -> Digest, a: Id)
    requires StoreValid(s, h) && DistinctEventIds(s.events)
    ensures forall g :: g in History(EventsOf(s.events, a), EntriesOf(s.entries, a)) ==>
      |g.entries| == 1 && g.entries[0].eventId == g.event.eventId && g.entries[0].assetId == a
  {
    var own := EventsOf(s.events, a);
    var history := History(own, EntriesOf(s.entries, a));
    assert Paired(s.events, s.entries);
    EventsOfMembers(s.events, a);
    EntriesOfMembers(s.entries, a);
    forall g | g in history
      ensures |g.entries| == 1 && g.entries[0].eventId == g.event.eventId && g.entries[0].assetId == a
    {
      var i :| 0 <= i < |history| && history[i] == g;
      assert g.event in own;
      OneEventWithId(s.events, g.event);
      PairedCounts(s.events, s.entries, a, g.event.eventId);
      assert g.entries[0] in g.entries;
    }
  }

  /** The index of the first proof with id `id`, or `|ps|` when none has it. */
  function FirstProofIndex(ps: seq<CapitalProof>, id: Id): (k: nat)
    ensures k <= |ps|
    ensures forall j :: 0 <= j < k ==> ps[j].proofId != id
    ensures k < |ps| ==> ps[k].proofId == id
  {
    if ps == [] then 0
    else if ps[0].proofId == id then 0
    else 1 + FirstProofIndex(ps[1..], id)
  }

  /** `reconstruct_proof`'s answer: the first stored proof with the id,
      or none. */
  function FindProof(ps: seq<CapitalProof>, id: Id): (r: Option<CapitalProof>)
    ensures r.None? <==> forall j :: 0 <= j < |ps| ==> ps[j].proofId != id
    ensures r.Some? ==> r.value in ps && r.value.proofId == id
  {
    var k := FirstProofIndex(ps, id);
    if k < |ps| then Some(ps[k]) else None
  }

  /** A proof generated under a counter above every stored id is found
      again by its id. */
  lemma {:induction false} GeneratedProofIsFound(s: Store, n: nat, assetId: Id, eventId: Option<Id>, now: Date,
                                                  h: HashPreimage -> Digest)
    requires IdsBelow(s, n) && assetId in s.assets
    ensures var p := NewProof(s, assetId, eventId, n, now, h);
      FindProof(s.AddProof(p).proofs, n) == Some(p)
  {
    var p := NewProof(s, assetId, eventId, n, now, h);
    var ps := s.AddProof(p).proofs;
    assert ps[|s.proofs|] == p;
  }

  /** The proofs of one asset in a linked ledger form a hash chain: the
      first links to nothing and each later one to the hash of the one
      before. */
  lemma {:induction false} ProofChain(ps: seq<CapitalProof>, a: Id, h: HashPreimage -> Digest)
    requires ChainLinked(ps, h)
    ensures var own := ProofsOf(ps, a);
      && (own != [] ==> own[0].previousProofHash == None)
      && (forall k :: 0 < k < |own| ==> own[k].previousProofHash == own[k - 1].proofHash)
  {
    if ps != [] {
      var m := |ps| - 1;
      var init := ps[..m];
      ChainLinkedPrefix(ps, h);
      ProofChain(init, a, h);
      var own0 := ProofsOf(init, a);
      if ps[m].assetId == a {
        var own := ProofsOf(ps, a);
        assert own == own0 + [ps[m]];
        assert ps[m].previousProofHash == PreviousHash(init, a);
        forall k | 0 < k < |own| ensures own[k].previousProofHash == own[k - 1].proofHash {
          if k < |own0| {
            assert own[k] == own0[k] && own[k - 1] == own0[k - 1];
          }
        }
      } else {
        assert ProofsOf(ps, a) == own0;
      }
    }
  }

  /** Every stored proof of an asset in a linked ledger carries the hash of
      its own fields: recomputing the hash reproduces it. */
  lemma StoredHashesRecompute(ps: seq<CapitalProof>, a: Id, h: HashPreimage -> Digest)
    requires ChainLinked(ps, h)
    ensures var own := ProofsOf(ps, a);
      forall k :: 0 <= k < |own| ==> own[k].proofHash == Some(ComputeHash(own[k], h))
  {
    var own := ProofsOf(ps, a);
    ProofsOfMembers(ps, a);
    forall k | 0 <= k < |own| ensures own[k].proofHash == Some(ComputeHash(own[k], h)) {
      assert own[k] in own;
      var i :| 0 <= i < |ps| && ps[i] == own[k];
    }
  }

  /** Dropping the last proof keeps a chain linked. */
  lemma ChainLinkedPrefix(ps: seq<CapitalProof>, h: HashPreimage -> Digest)
    requires ChainLinked(ps, h) && ps != []
    ensures ChainLinked(ps[..|ps| - 1], h)
  {
    var init := ps[..|ps| - 1];
    forall i | 0 <= i < |init|
      ensures init[i].previousProofHash == PreviousHash(init[..i], init[i].assetId)
      ensures init[i].proofHash == Some(ComputeHash(init[i], h))
    {
      assert init[..i] == ps[..i];
    }
  }

  /** Two proofs generated one after the other for the same asset are
      linked: the second's previous hash is the first's hash. */
  lemma SuccessiveProofsLinked(s: Store, assetId: Id, n: nat, now1: Date, now2: Date, h: HashPreimage -> Digest)
    requires assetId in s.assets
    ensures var p1 := NewProof(s, assetId, None, n, now1, h);
      var p2 := NewProof(s.AddProof(p1), assetId, None, n + 1, now2, h);
      p2.previousProofHash == p1.proofHash && p1.proofHash.Some?
  {
    var p1 := NewProof(s, assetId, None, n, now1, h);
    ProofsOfAppend(s.proofs, p1, assetId);
  }

  class CapitalProofGenerator {
    const ledger: CapitalLedger

    constructor(ledger: CapitalLedger)
      ensures this.ledger == ledger
    {
      this.ledger := ledger;
    }

    /** `generate_asset_proof`: an unknown asset fails and changes nothing;
        otherwise one proof of the asset, with no event id, is generated. */
    method GenerateAssetProof(assetId: Id, now: Date) returns (r: Result<CapitalProof>)
      requires ledger.Valid()
      modifies ledger
      ensures ledger.Valid()
      ensures assetId !in old(ledger.assets) ==>
        r == Failure(UnknownAsset(assetId)) && ledger.Contents() == old(ledger.Contents())
      ensures assetId in old(ledger.assets) ==>
        && r == Success(NewProof(old(ledger.Contents()), assetId, None, old(ledger.nextId), now, ledger.sha256))
        && ledger.Contents() == old(ledger.Contents()).AddProof(r.value)
    {
      var asset := ledger.GetAsset(assetId);
      if asset.None? {
        return Failure(UnknownAsset(assetId));
      }
      r := ledger.GenerateProof(assetId, None, now);
    }

    /** `generate_execution_proof`: the ledger's proof generation with the
        event id passed through. */
    method GenerateExecutionProof(assetId: Id, eventId: Option<Id>, now: Date) returns (r: Result<CapitalProof>)
      requires ledger.Valid()
      modifies ledger
      ensures ledger.Valid()
      ensures assetId !in old(ledger.assets) ==>
        r == Failure(UnknownAsset(assetId)) && ledger.Contents() == old(ledger.Contents())
      ensures assetId in old(ledger.assets) ==>
        && r == Success(NewProof(old(ledger.Contents()), assetId, eventId, old(ledger.nextId), now, ledger.sha256))
        && ledger.Contents() == old(ledger.Contents()).AddProof(r.value)
    {
      r := ledger.GenerateProof(assetId, eventId, now);
    }

    /** `generate_financial_outcome_proof`: the ledger's proof generation
        with no event id; the period bounds do not affect it. */
    method GenerateFinancialOutcomeProof(assetId: Id, startDate: string, endDate: string, now: Date)
      returns (r: Result<CapitalProof>)
      requires ledger.Valid()
      modifies ledger
      ensures ledger.Valid()
      ensures assetId !in old(ledger.assets) ==>
        r == Failure(UnknownAsset(assetId)) && ledger.Contents() == old(ledger.Contents())
      ensures assetId in old(ledger.assets) ==>
        && r == Success(NewProof(old(ledger.Contents()), assetId, None, old(ledger.nextId), now, ledger.sha256))
        && ledger.Contents() == old(ledger.Contents()).AddProof(r.value)
    {
      r := ledger.GenerateProof(assetId, None, now);
    }

    /** `reconstruct_proof`: a scan of the stored proofs that returns the
        first one with the id, or none, and changes nothing. */
    method ReconstructProof(proofId: Id) returns (r: Option<CapitalProof>)
      ensures r == FindProof(ledger.proofs, proofId)
    {
      var ps := ledger.proofs;
      var i := 0;
      while i < |ps|
        invariant i <= |ps|
        invariant forall j :: 0 <= j < i ==> ps[j].proofId != proofId
      {
        if ps[i].proofId == proofId {
          return Some(ps[i]);
        }
        i := i + 1;
      }
      return None;
    }

    /** `get_asset_history`: one group per event of the asset, in recording
        order, each with the asset's entries that carry the event's id. */
    function GetAssetHistory(assetId: Id): (r: seq<HistoryGroup>)
      reads ledger
      ensures ledger.Valid() ==> r == History(EventsOf(ledger.events, assetId), EntriesOf(ledger.entries, assetId))
    {
      History(ledger.GetEventsForAsset(assetId), ledger.GetEntriesForAsset(assetId))
    }
  }
}
