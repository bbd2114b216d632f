/** The capital ledger: a dictionary of assets and four append-only lists
    (events, ledger entries, journal entries, proofs), with per-asset and
    per-event indexes kept beside them. */
module Ledger {
  import opened Types

  /** A dictionary of lists read the way a `defaultdict(list)` is: a missing
      key reads as the empty list. */
  function Lookup<K, V>(m: map<K, seq<V>>, k: K): seq<V>
  {
    if k in m then m[k] else []
  }

  /** The events of asset `a`, in recording order. */
  function EventsOf(es: seq<CapitalEvent>, a: Id): seq<CapitalEvent>
  {
    if es == [] then []
    else EventsOf(es[..|es| - 1], a) + (if es[|es| - 1].assetId == a then [es[|es| - 1]] else [])
  }

  /** The ledger entries of asset `a`, in recording order. */
  function EntriesOf(ls: seq<LedgerEntry>, a: Id): seq<LedgerEntry>
  {
    if ls == [] then []
    else EntriesOf(ls[..|ls| - 1], a) + (if ls[|ls| - 1].assetId == a then [ls[|ls| - 1]] else [])
  }

  /** The journal entries posted under event id `e`, in posting order. */
  function JournalOf(js: seq<JournalEntry>, e: Id): seq<JournalEntry>
  {
    if js == [] then []
    else JournalOf(js[..|js| - 1], e) + (if js[|js| - 1].eventId == e then [js[|js| - 1]] else [])
  }

  /** The journal entries whose event id is one of `ids`, in posting order. */
  function JournalWithEvents(js: seq<JournalEntry>, ids: set<Id>): seq<JournalEntry>
  {
    if js == [] then []
    else JournalWithEvents(js[..|js| - 1], ids) + (if js[|js| - 1].eventId in ids then [js[|js| - 1]] else [])
  }

  /** The proofs of asset `a`, in generation order. */
  function ProofsOf(ps: seq<CapitalProof>, a: Id): seq<CapitalProof>
  {
    if ps == [] then []
    else ProofsOf(ps[..|ps| - 1], a) + (if ps[|ps| - 1].assetId == a then [ps[|ps| - 1]] else [])
  }

  /** `EventsOf` holds exactly the events of asset `a`. */
  lemma {:induction false} EventsOfMembers(es: seq<CapitalEvent>, a: Id)
    ensures forall e :: e in EventsOf(es, a) <==> e in es && e.assetId == a
  {
    if es != [] {
      EventsOfMembers(es[..|es| - 1], a);
      assert es == es[..|es| - 1] + [es[|es| - 1]];
    }
  }

  /** `EntriesOf` holds exactly the entries of asset `a`. */
  lemma {:induction false} EntriesOfMembers(ls: seq<LedgerEntry>, a: Id)
    ensures forall l :: l in EntriesOf(ls, a) <==> l in ls && l.assetId == a
  {
    if ls != [] {
      EntriesOfMembers(ls[..|ls| - 1], a);
      assert ls == ls[..|ls| - 1] + [ls[|ls| - 1]];
    }
  }

  /** `JournalOf` holds exactly the journal entries posted under event id `e`. */
  lemma {:induction false} JournalOfMembers(js: seq<JournalEntry>, e: Id)
    ensures forall j :: j in JournalOf(js, e) <==> j in js && j.eventId == e
  {
    if js != [] {
      JournalOfMembers(js[..|js| - 1], e);
      assert js == js[..|js| - 1] + [js[|js| - 1]];
    }
  }

  /** `JournalWithEvents` holds exactly the journal entries whose event id is in `ids`. */
  lemma {:induction false} JournalWithEventsMembers(js: seq<JournalEntry>, ids: set<Id>)
    ensures forall j :: j in JournalWithEvents(js, ids) <==> j in js && j.eventId in ids
  {
    if js != [] {
      JournalWithEventsMembers(js[..|js| - 1], ids);
      assert js == js[..|js| - 1] + [js[|js| - 1]];
    }
  }

  /** `ProofsOf` holds exactly the proofs of asset `a`. */
  lemma {:induction false} ProofsOfMembers(ps: seq<CapitalProof>, a: Id)
    ensures forall p :: p in ProofsOf(ps, a) <==> p in ps && p.assetId == a
  {
    if ps != [] {
      ProofsOfMembers(ps[..|ps| - 1], a);
      assert ps == ps[..|ps| - 1] + [ps[|ps| - 1]];
    }
  }

  /** Appending an event appends it to its own asset's share only. */
  lemma EventsOfAppend(es: seq<CapitalEvent>, e: CapitalEvent, a: Id)
    ensures EventsOf(es + [e], a) == EventsOf(es, a) + (if e.assetId == a then [e] else [])
  {
    assert (es + [e])[..|es|] == es;
  }

  /** Appending an entry appends it to its own asset's share only. */
  lemma EntriesOfAppend(ls: seq<LedgerEntry>, l: LedgerEntry, a: Id)
    ensures EntriesOf(ls + [l], a) == EntriesOf(ls, a) + (if l.assetId == a then [l] else [])
  {
    assert (ls + [l])[..|ls|] == ls;
  }

  /** Posting a journal entry appends it to its own event's share only. */
  lemma JournalOfAppend(js: seq<JournalEntry>, j: JournalEntry, e: Id)
    ensures JournalOf(js + [j], e) == JournalOf(js, e) + (if j.eventId == e then [j] else [])
  {
    assert (js + [j])[..|js|] == js;
  }

  /** Appending a proof appends it to its own asset's share only. */
  lemma ProofsOfAppend(ps: seq<CapitalProof>, p: CapitalProof, a: Id)
    ensures ProofsOf(ps + [p], a) == ProofsOf(ps, a) + (if p.assetId == a then [p] else [])
  {
    assert (ps + [p])[..|ps|] == ps;
  }

  /** The hash a new proof for asset `a` links to: the hash of the last
      stored proof for `a`, or none when `a` has no proof yet. */
  function PreviousHash(ps: seq<CapitalProof>, a: Id): (r: Option<Digest>)
    ensures ProofsOf(ps, a) == [] ==> r == None
    ensures ProofsOf(ps, a) != [] ==> r == ProofsOf(ps, a)[|ProofsOf(ps, a)| - 1].proofHash
  {
    var own := ProofsOf(ps, a);
    if own == [] then None else own[|own| - 1].proofHash
  }

  /** Every stored proof links to the proof stored before it for the same
      asset and carries the hash of its own fields. */
  predicate ChainLinked(ps: seq<CapitalProof>, h: HashPreimage -> Digest)
  {
    forall i :: 0 <= i < |ps| ==>
      && ps[i].previousProofHash == PreviousHash(ps[..i], ps[i].assetId)
      && ps[i].proofHash == Some(ComputeHash(ps[i], h))
  }

  /** The ledger entry `record_event` derives from an event: the event's id,
      asset and timestamp, the event type as description, the details as
      metadata, and the details' "amount" (0.0 when absent) as amount. */
  function EntryFor(e: CapitalEvent, entryId: Id): LedgerEntry
  {
    LedgerEntry(entryId, e.eventId, e.assetId, e.timestamp,
                if "amount" in e.details then e.details["amount"] else Num(0.0),
                e.eventType, e.details)
  }

  /** What the ledger stores, as one value. */
  datatype Store = Store(
    assets: map<Id, IntelligenceAsset>,
    assetOrder: seq<Id>,  // the order assets were added in
    events: seq<CapitalEvent>,
    entries: seq<LedgerEntry>,
    journal: seq<JournalEntry>,
    proofs: seq<CapitalProof>)
  {
    function AddAsset(a: IntelligenceAsset): Store
    {
      this.(assets := assets[a.assetId := a], assetOrder := assetOrder + [a.assetId])
    }

    /** Replace a stored asset by an updated copy. */
    function SetAsset(a: IntelligenceAsset): Store
    {
      this.(assets := assets[a.assetId := a])
    }

    function AddEvent(e: CapitalEvent, entryId: Id): Store
    {
      this.(events := events + [e], entries := entries + [EntryFor(e, entryId)])
    }

    function AddJournal(j: JournalEntry): Store
    {
      this.(journal := journal + [j])
    }

    function AddProof(p: CapitalProof): Store
    {
      this.(proofs := proofs + [p])
    }
  }

  /** What holds of every store the ledger's operations build: assets are
      keyed by their own id and listed once each in insertion order; events
      and proofs name stored assets; there is one entry per event, derived
      from it; and the proofs are chained. */
  ghost predicate StoreValid(s: Store, h: HashPreimage -> Digest)
  {
    && (forall i, j :: 0 <= i < j < |s.assetOrder| ==> s.assetOrder[i] != s.assetOrder[j])
    && (forall id :: id in s.assets <==> id in s.assetOrder)
    && (forall id :: id in s.assets ==> s.assets[id].assetId == id)
    && (forall i :: 0 <= i < |s.events| ==> s.events[i].assetId in s.assets)
    && |s.entries| == |s.events|
    && (forall i :: 0 <= i < |s.events| ==> s.entries[i] == EntryFor(s.events[i], s.entries[i].entryId))
    && (forall i :: 0 <= i < |s.proofs| ==> s.proofs[i].assetId in s.assets)
    && ChainLinked(s.proofs, h)
  }

  /** Every id the store holds is below `n`: a counter at `n` draws ids no
      record uses. */
  ghost predicate IdsBelow(s: Store, n: nat)
  {
    && (forall id :: id in s.assets ==> id < n)
    && (forall i :: 0 <= i < |s.events| ==> s.events[i].eventId < n)
    && (forall i :: 0 <= i < |s.entries| ==> s.entries[i].entryId < n)
    && (forall i :: 0 <= i < |s.journal| ==> s.journal[i].entryId < n && s.journal[i].eventId < n)
    && (forall i :: 0 <= i < |s.proofs| ==> s.proofs[i].proofId < n)
  }

  /** The ledger's invariant: the store is valid, every stored id is below
      the counter, and each index is the filter of its list. Its parts are
      bound to one name so that they travel between operations as one fact. */
  ghost predicate LedgerInvariant(s: Store, n: nat, eventsByAsset: map<Id, seq<CapitalEvent>>,
                                  entriesByAsset: map<Id, seq<LedgerEntry>>,
                                  journalByEvent: map<Id, seq<JournalEntry>>, h: HashPreimage -> Digest)
  {
    var valid := StoreValid(s, h) && IdsBelow(s, n) && IndexesMatch(s, eventsByAsset, entriesByAsset, journalByEvent);
    valid
  }

  /** The smallest counter value at or above `n` that is also above `id`. */
  function Above(n: nat, id: Id): (r: nat)
    ensures n <= r && id < r
    ensures id < n ==> r == n
  {
    if id < n then n else id + 1
  }

  /** A new asset as `create_asset` builds it: active, with its current
      value set to its initial value. */
  function NewAsset(assetId: Id, owner: string, initialValue: real, depreciationMethod: DepreciationMethod,
                    usefulLifeMonths: int, now: Date): (r: IntelligenceAsset)
    ensures r.assetId == assetId && r.owner == owner && r.initialValue == initialValue
    ensures r.depreciationMethod == depreciationMethod && r.usefulLifeMonths == usefulLifeMonths
    ensures r.status == Active && r.currentValue == Some(initialValue)
  {
    FreshAsset(assetId, owner, initialValue, depreciationMethod, usefulLifeMonths, now).(currentValue := Some(initialValue))
  }

  /** An asset record built with only its required fields: status and
      current value take their defaults. */
  function FreshAsset(assetId: Id, owner: string, initialValue: real, depreciationMethod: DepreciationMethod,
                      usefulLifeMonths: int, createdAt: Date): (r: IntelligenceAsset)
    ensures r.status == Active && r.currentValue == None
  {
    IntelligenceAsset(assetId, owner, initialValue, depreciationMethod, usefulLifeMonths, createdAt, Active, None)
  }

  /** The seven fields of an asset that a proof's content records. */
  function AssetSnapshot(a: IntelligenceAsset): (r: Details)
    ensures |r.Keys| == 7
  {
    map["asset_id" := Uid(a.assetId),
        "owner" := Str(a.owner),
        "initial_value" := Num(a.initialValue),
        "depreciation_method" := Str(MethodValue(a.depreciationMethod)),
        "useful_life_months" := Int(a.usefulLifeMonths),
        "status" := Str(StatusValue(a.status)),
        "current_value" := OptionalNum(a.currentValue)]
  }

  /** A snapshot identifies everything about an asset except its creation
      time: two assets with equal snapshots differ at most in `createdAt`. */
  lemma SnapshotDeterminesAsset(a: IntelligenceAsset, b: IntelligenceAsset)
    requires AssetSnapshot(a) == AssetSnapshot(b)
    ensures a == b.(createdAt := a.createdAt)
  {
    assert AssetSnapshot(a)["asset_id"] == AssetSnapshot(b)["asset_id"];
    assert AssetSnapshot(a)["owner"] == AssetSnapshot(b)["owner"];
    assert AssetSnapshot(a)["initial_value"] == AssetSnapshot(b)["initial_value"];
    assert AssetSnapshot(a)["depreciation_method"] == AssetSnapshot(b)["depreciation_method"];
    assert AssetSnapshot(a)["useful_life_months"] == AssetSnapshot(b)["useful_life_months"];
    assert AssetSnapshot(a)["status"] == AssetSnapshot(b)["status"];
    assert AssetSnapshot(a)["current_value"] == AssetSnapshot(b)["current_value"];
    EnumValuesDistinct(a.status, b.status, a.depreciationMethod, b.depreciationMethod);
  }

  /** The proof `generate_proof` adds for a stored asset: origin "ICL", a
      snapshot of the asset as content, linked to the asset's last proof,
      and carrying its own hash. */
  function NewProof(s: Store, assetId: Id, eventId: Option<Id>, proofId: Id, now: Date,
                    h: HashPreimage -> Digest): (r: CapitalProof)
    requires assetId in s.assets
    ensures r.proofId == proofId && r.assetId == assetId && r.eventId == eventId && r.timestamp == now
    ensures r.origin == "ICL" && r.content == AssetSnapshot(s.assets[assetId])
    ensures r.previousProofHash == PreviousHash(s.proofs, assetId)
    ensures r.proofHash == Some(ComputeHash(r, h))
  {
    var unhashed := CapitalProof(proofId, assetId, eventId, now, "ICL", AssetSnapshot(s.assets[assetId]),
                                 PreviousHash(s.proofs, assetId), None);
    HashIgnoresOtherFields(unhashed, unhashed.(proofHash := Some(ComputeHash(unhashed, h))), h);
    unhashed.(proofHash := Some(ComputeHash(unhashed, h)))
  }

  /** Adding an asset under a new id keeps the store valid. */
  lemma AddAssetKeepsValid(s: Store, a: IntelligenceAsset, h: HashPreimage -> Digest)
    requires StoreValid(s, h) && a.assetId !in s.assets
    ensures StoreValid(s.AddAsset(a), h)
  {
    var t := s.AddAsset(a);
    forall i, j | 0 <= i < j < |t.assetOrder| ensures t.assetOrder[i] != t.assetOrder[j] {
      if j == |s.assetOrder| {
        assert s.assetOrder[i] in s.assetOrder;
      }
    }
  }

  /** Replacing a stored asset by a copy under the same id keeps the store
      valid: no list changes and the set of ids is the same. */
  lemma SetAssetKeepsValid(s: Store, a: IntelligenceAsset, h: HashPreimage -> Digest)
    requires StoreValid(s, h) && a.assetId in s.assets
    ensures StoreValid(s.SetAsset(a), h)
    ensures s.SetAsset(a).assets.Keys == s.assets.Keys
  {
  }

  /** Recording an event of a stored asset, with the entry derived from it,
      keeps the store valid. */
  lemma AddEventKeepsValid(s: Store, e: CapitalEvent, entryId: Id, h: HashPreimage -> Digest)
    requires StoreValid(s, h) && e.assetId in s.assets
    ensures StoreValid(s.AddEvent(e, entryId), h)
  {
  }

  /** A proof linked to the last proof of its asset and carrying its own
      hash extends a linked chain. */
  lemma {:induction false} ChainLinkedAppend(ps: seq<CapitalProof>, p: CapitalProof, h: HashPreimage -> Digest)
    requires ChainLinked(ps, h)
    requires p.previousProofHash == PreviousHash(ps, p.assetId) && p.proofHash == Some(ComputeHash(p, h))
    ensures ChainLinked(ps + [p], h)
  {
    var qs := ps + [p];
    forall i | 0 <= i < |qs|
      ensures qs[i].previousProofHash == PreviousHash(qs[..i], qs[i].assetId)
      ensures qs[i].proofHash == Some(ComputeHash(qs[i], h))
    {
      if i < |ps| {
        assert qs[..i] == ps[..i];
        assert qs[i] == ps[i];
      } else {
        assert qs[..i] == ps;
      }
    }
  }

  /** Adding the proof `generate_proof` builds keeps the store valid. */
  lemma AddProofKeepsValid(s: Store, assetId: Id, eventId: Option<Id>, proofId: Id, now: Date,
                           h: HashPreimage -> Digest)
    requires StoreValid(s, h) && assetId in s.assets
    ensures StoreValid(s.AddProof(NewProof(s, assetId, eventId, proofId, now, h)), h)
  {
    ChainLinkedAppend(s.proofs, NewProof(s, assetId, eventId, proofId, now, h), h);
  }

  /** True iff every amount in `js` is positive. */
  function AllPositive(js: seq<JournalEntry>): (r: bool)
    ensures r <==> forall i :: 0 <= i < |js| ==> js[i].amount > 0.0
  {
    if js == [] then true else js[0].amount > 0.0 && AllPositive(js[1..])
  }

  /** Posting one entry keeps the journal balanced exactly when that entry's
      amount is positive. */
  lemma AllPositiveAppend(js: seq<JournalEntry>, j: JournalEntry)
    ensures AllPositive(js + [j]) <==> AllPositive(js) && j.amount > 0.0
  {
    assert (js + [j])[|js|] == j;
    assert forall i :: 0 <= i < |js| ==> (js + [j])[i] == js[i];
  }

  /** Each index is the filter of its list: events and entries by asset,
      journal entries by event id. */
  ghost predicate IndexesMatch(s: Store, eventsByAsset: map<Id, seq<CapitalEvent>>,
                               entriesByAsset: map<Id, seq<LedgerEntry>>, journalByEvent: map<Id, seq<JournalEntry>>)
  {
    && (forall a :: Lookup(eventsByAsset, a) == EventsOf(s.events, a))
    && (forall a :: Lookup(entriesByAsset, a) == EntriesOf(s.entries, a))
    && (forall e :: Lookup(journalByEvent, e) == JournalOf(s.journal, e))
  }

  /** Appending the event and its entry to the asset's index lists keeps
      the indexes matching. */
  lemma IndexesAfterEvent(s: Store, eventsByAsset: map<Id, seq<CapitalEvent>>,
                          entriesByAsset: map<Id, seq<LedgerEntry>>, journalByEvent: map<Id, seq<JournalEntry>>,
                          e: CapitalEvent, entryId: Id)
    requires IndexesMatch(s, eventsByAsset, entriesByAsset, journalByEvent)
    ensures IndexesMatch(s.AddEvent(e, entryId),
                         eventsByAsset[e.assetId := Lookup(eventsByAsset, e.assetId) + [e]],
                         entriesByAsset[e.assetId := Lookup(entriesByAsset, e.assetId) + [EntryFor(e, entryId)]],
                         journalByEvent)
  {
    var t := s.AddEvent(e, entryId);
    var ea := eventsByAsset[e.assetId := Lookup(eventsByAsset, e.assetId) + [e]];
    var la := entriesByAsset[e.assetId := Lookup(entriesByAsset, e.assetId) + [EntryFor(e, entryId)]];
    forall a ensures Lookup(ea, a) == EventsOf(t.events, a) {
      EventsOfAppend(s.events, e, a);
      if a != e.assetId {
        assert Lookup(ea, a) == Lookup(eventsByAsset, a);
      }
    }
    forall a ensures Lookup(la, a) == EntriesOf(t.entries, a) {
      EntriesOfAppend(s.entries, EntryFor(e, entryId), a);
      if a != e.assetId {
        assert Lookup(la, a) == Lookup(entriesByAsset, a);
      }
    }
    assert t.journal == s.journal;
  }

  /** Appending the journal entry to its event's index list keeps the
      indexes matching. */
  lemma IndexesAfterJournal(s: Store, eventsByAsset: map<Id, seq<CapitalEvent>>,
                            entriesByAsset: map<Id, seq<LedgerEntry>>, journalByEvent: map<Id, seq<JournalEntry>>,
                            j: JournalEntry)
    requires IndexesMatch(s, eventsByAsset, entriesByAsset, journalByEvent)
    ensures IndexesMatch(s.AddJournal(j), eventsByAsset, entriesByAsset,
                         journalByEvent[j.eventId := Lookup(journalByEvent, j.eventId) + [j]])
  {
    forall e ensures JournalOf(s.journal + [j], e) == JournalOf(s.journal, e) + (if j.eventId == e then [j] else [])
    {
      JournalOfAppend(s.journal, j, e);
    }
  }

  /** Recording an event and its entry under ids below the counter keeps
      every stored id below it. */
  lemma IdsAfterEvent(s: Store, n: nat, e: CapitalEvent, entryId: Id)
    requires IdsBelow(s, n) && e.eventId < n && entryId < n
    ensures IdsBelow(s.AddEvent(e, entryId), n)
  {
  }

  /** Raising the counter keeps every stored id below it. */
  lemma IdsBelowMonotone(s: Store, n: nat, m: nat)
    requires IdsBelow(s, n) && n <= m
    ensures IdsBelow(s, m)
  {
  }

  /** Drawing an id keeps the invariant. */
  lemma FreshIdKeepsInvariant(s: Store, n: nat, eventsByAsset: map<Id, seq<CapitalEvent>>,
                              entriesByAsset: map<Id, seq<LedgerEntry>>, journalByEvent: map<Id, seq<JournalEntry>>,
                              h: HashPreimage -> Digest)
    requires LedgerInvariant(s, n, eventsByAsset, entriesByAsset, journalByEvent, h)
    ensures LedgerInvariant(s, n + 1, eventsByAsset, entriesByAsset, journalByEvent, h)
  {
    IdsBelowMonotone(s, n, n + 1);
  }

  /** `create_asset`'s update keeps the invariant. */
  lemma AddAssetKeepsInvariant(s: Store, n: nat, eventsByAsset: map<Id, seq<CapitalEvent>>,
                               entriesByAsset: map<Id, seq<LedgerEntry>>, journalByEvent: map<Id, seq<JournalEntry>>,
                               h: HashPreimage -> Digest, a: IntelligenceAsset)
    requires LedgerInvariant(s, n, eventsByAsset, entriesByAsset, journalByEvent, h)
    requires a.assetId !in s.assets
    ensures LedgerInvariant(s.AddAsset(a), Above(n, a.assetId), eventsByAsset, entriesByAsset, journalByEvent, h)
  {
    AddAssetKeepsValid(s, a, h);
    IdsBelowMonotone(s, n, Above(n, a.assetId));
  }

  /** `record_event`'s whole update keeps the invariant. */
  lemma RecordEventKeepsValid(s: Store, n: nat, eventsByAsset: map<Id, seq<CapitalEvent>>,
                              entriesByAsset: map<Id, seq<LedgerEntry>>, journalByEvent: map<Id, seq<JournalEntry>>,
                              h: HashPreimage -> Digest, e: CapitalEvent)
    requires LedgerInvariant(s, n, eventsByAsset, entriesByAsset, journalByEvent, h)
    requires e.assetId in s.assets
    ensures var entryId := Above(n, e.eventId);
      LedgerInvariant(s.AddEvent(e, entryId), entryId + 1,
                      eventsByAsset[e.assetId := Lookup(eventsByAsset, e.assetId) + [e]],
                      entriesByAsset[e.assetId := Lookup(entriesByAsset, e.assetId) + [EntryFor(e, entryId)]],
                      journalByEvent, h)
  {
    var entryId := Above(n, e.eventId);
    AddEventKeepsValid(s, e, entryId, h);
    IndexesAfterEvent(s, eventsByAsset, entriesByAsset, journalByEvent, e, entryId);
    IdsBelowMonotone(s, n, entryId + 1);
    IdsAfterEvent(s, entryId + 1, e, entryId);
  }

  /** `record_journal_entry`'s update keeps the invariant. */
  lemma AddJournalKeepsInvariant(s: Store, n: nat, eventsByAsset: map<Id, seq<CapitalEvent>>,
                                 entriesByAsset: map<Id, seq<LedgerEntry>>, journalByEvent: map<Id, seq<JournalEntry>>,
                                 h: HashPreimage -> Digest, j: JournalEntry)
    requires LedgerInvariant(s, n, eventsByAsset, entriesByAsset, journalByEvent, h)
    ensures LedgerInvariant(s.AddJournal(j), Above(Above(n, j.entryId), j.eventId), eventsByAsset, entriesByAsset,
                            journalByEvent[j.eventId := Lookup(journalByEvent, j.eventId) + [j]], h)
  {
    IndexesAfterJournal(s, eventsByAsset, entriesByAsset, journalByEvent, j);
    IdsBelowMonotone(s, n, Above(Above(n, j.entryId), j.eventId));
  }

  /** `generate_proof`'s update, with proof id `n - 1` just drawn, keeps
      the invariant. */
  lemma AddProofKeepsInvariant(s: Store, n: nat, eventsByAsset: map<Id, seq<CapitalEvent>>,
                               entriesByAsset: map<Id, seq<LedgerEntry>>, journalByEvent: map<Id, seq<JournalEntry>>,
                               h: HashPreimage -> Digest, assetId: Id, eventId: Option<Id>, now: Date)
    requires LedgerInvariant(s, n, eventsByAsset, entriesByAsset, journalByEvent, h)
    requires assetId in s.assets
    ensures LedgerInvariant(s.AddProof(NewProof(s, assetId, eventId, n, now, h)), n + 1,
                            eventsByAsset, entriesByAsset, journalByEvent, h)
  {
    AddProofKeepsValid(s, assetId, eventId, n, now, h);
    IdsBelowMonotone(s, n, n + 1);
  }

  /** Updating a stored asset in place (as the lifecycle operations do)
      keeps the invariant. */
  lemma SetAssetKeepsLedgerValid(s: Store, n: nat, eventsByAsset: map<Id, seq<CapitalEvent>>,
                                 entriesByAsset: map<Id, seq<LedgerEntry>>, journalByEvent: map<Id, seq<JournalEntry>>,
                                 h: HashPreimage -> Digest, a: IntelligenceAsset)
    requires LedgerInvariant(s, n, eventsByAsset, entriesByAsset, journalByEvent, h)
    requires a.assetId in s.assets
    ensures LedgerInvariant(s.SetAsset(a), n, eventsByAsset, entriesByAsset, journalByEvent, h)
  {
    SetAssetKeepsValid(s, a, h);
  }

  class CapitalLedger {
    var assets: map<Id, IntelligenceAsset>
    var assetOrder: seq<Id>
    var events: seq<CapitalEvent>
    var entries: seq<LedgerEntry>
    var journal: seq<JournalEntry>
    var proofs: seq<CapitalProof>
    /** Per-asset indexes of events and entries, and the journal by event id. */
    var eventsByAsset: map<Id, seq<CapitalEvent>>
    var entriesByAsset: map<Id, seq<LedgerEntry>>
    var journalByEvent: map<Id, seq<JournalEntry>>
    /** The id counter standing for `uuid4`. */
    var nextId: nat
    /** The digest function proofs are hashed with. */
    const sha256: HashPreimage -> Digest

    function Contents(): Store
      reads this
    {
      Store(assets, assetOrder, events, entries, journal, proofs)
    }

    /** The store is valid, no stored id has been drawn from the counter
        yet, and each index is the filter of its list. */
    ghost predicate Valid()
      reads this
    {
      LedgerInvariant(Contents(), nextId, eventsByAsset, entriesByAsset, journalByEvent, sha256)
    }

    constructor(sha256: HashPreimage -> Digest)
      ensures Valid()
      ensures Contents() == Store(map[], [], [], [], [], [])
      ensures this.sha256 == sha256
    {
      assets, assetOrder := map[], [];
      events, entries, journal, proofs := [], [], [], [];
      eventsByAsset, entriesByAsset, journalByEvent := map[], map[], map[];
      nextId := 0;
      this.sha256 := sha256;
    }

    /** Draws an id no stored record uses. */
    method FreshId() returns (id: Id)
      requires Valid()
      modifies this
      ensures Valid()
      ensures id == old(nextId) && nextId == id + 1
      ensures Contents() == old(Contents())
    {
      FreshIdKeepsInvariant(Contents(), nextId, eventsByAsset, entriesByAsset, journalByEvent, sha256);
      id := nextId;
      nextId := nextId + 1;
    }

    /** `create_asset`: a duplicate id fails and changes nothing; otherwise
        exactly one active asset, valued at its initial value, is added. */
    method CreateAsset(assetId: Id, owner: string, initialValue: real, depreciationMethod: DepreciationMethod,
                       usefulLifeMonths: int, now: Date)
      returns (r: Result<IntelligenceAsset>)
      requires Valid()
      modifies this
      ensures Valid()
      ensures assetId in old(assets) ==>
        r == Failure(DuplicateAsset(assetId)) && Contents() == old(Contents()) && nextId == old(nextId)
      ensures assetId !in old(assets) ==>
        && r == Success(NewAsset(assetId, owner, initialValue, depreciationMethod, usefulLifeMonths, now))
        && Contents() == old(Contents()).AddAsset(r.value)
        && nextId == Above(old(nextId), assetId)
    {
      if assetId in assets {
        return Failure(DuplicateAsset(assetId));
      }
      var asset := NewAsset(assetId, owner, initialValue, depreciationMethod, usefulLifeMonths, now);
      ghost var s := Contents();
      AddAssetKeepsInvariant(s, nextId, eventsByAsset, entriesByAsset, journalByEvent, sha256, asset);
      assets, assetOrder, nextId := assets[assetId := asset], assetOrder + [assetId], Above(nextId, assetId);
      assert Contents() == s.AddAsset(asset);
      r := Success(asset);
    }

    /** `record_event`: an event of an unknown asset fails and changes
        nothing; otherwise the event and the one ledger entry derived from it
        are appended, to the lists and to the asset's indexes. */
    method RecordEvent(event: CapitalEvent) returns (r: Outcome)
      requires Valid()
      modifies this
      ensures Valid()
      ensures event.assetId !in old(assets) ==>
        r == Fail(UnknownAsset(event.assetId)) && Contents() == old(Contents()) && nextId == old(nextId)
      ensures event.assetId in old(assets) ==>
        && r == Pass
        && Contents() == old(Contents()).AddEvent(event, Above(old(nextId), event.eventId))
        && nextId == Above(old(nextId), event.eventId) + 1
    {
      if event.assetId !in assets {
        return Fail(UnknownAsset(event.assetId));
      }
      AppendEvent(event);
      r := Pass;
    }

    /** The update `record_event` makes for an event of a known asset. */
    method AppendEvent(event: CapitalEvent)
      requires Valid() && event.assetId in assets
      modifies this
      ensures Valid()
      ensures Contents() == old(Contents()).AddEvent(event, Above(old(nextId), event.eventId))
      ensures nextId == Above(old(nextId), event.eventId) + 1
    {
      var entryId := Above(nextId, event.eventId);
      var entry := EntryFor(event, entryId);
      ghost var s := Contents();
      RecordEventKeepsValid(s, nextId, eventsByAsset, entriesByAsset, journalByEvent, sha256, event);
      events, entries, nextId := events + [event], entries + [entry], entryId + 1;
      eventsByAsset := eventsByAsset[event.assetId := Lookup(eventsByAsset, event.assetId) + [event]];
      entriesByAsset := entriesByAsset[event.assetId := Lookup(entriesByAsset, event.assetId) + [entry]];
      assert Contents() == s.AddEvent(event, entryId);
    }

    /** `record_journal_entry`: appends unconditionally, indexed by the
        entry's event id. */
    method RecordJournalEntry(j: JournalEntry)
      requires Valid()
      modifies this
      ensures Valid()
      ensures Contents() == old(Contents()).AddJournal(j)
      ensures nextId == Above(Above(old(nextId), j.entryId), j.eventId)
    {
      ghost var s := Contents();
      AddJournalKeepsInvariant(s, nextId, eventsByAsset, entriesByAsset, journalByEvent, sha256, j);
      journal, nextId := journal + [j], Above(Above(nextId, j.entryId), j.eventId);
      journalByEvent := journalByEvent[j.eventId := Lookup(journalByEvent, j.eventId) + [j]];
      assert Contents() == s.AddJournal(j);
    }

    /** `generate_proof`: an unknown asset fails and changes nothing;
        otherwise one proof is appended, snapshotting the asset, linked to
        the asset's previous proof and carrying its own hash. */
    method GenerateProof(assetId: Id, eventId: Option<Id>, now: Date) returns (r: Result<CapitalProof>)
      requires Valid()
      modifies this
      ensures Valid()
      ensures assetId !in old(assets) ==>
        r == Failure(UnknownAsset(assetId)) && Contents() == old(Contents()) && nextId == old(nextId)
      ensures assetId in old(assets) ==>
        && r == Success(NewProof(old(Contents()), assetId, eventId, old(nextId), now, sha256))
        && Contents() == old(Contents()).AddProof(r.value)
        && nextId == old(nextId) + 1
    {
      if assetId !in assets {
        return Failure(UnknownAsset(assetId));
      }
      ghost var s := Contents();
      var proofId := nextId;
      var proof := NewProof(Contents(), assetId, eventId, proofId, now, sha256);
      AddProofKeepsInvariant(s, proofId, eventsByAsset, entriesByAsset, journalByEvent, sha256, assetId, eventId, now);
      proofs, nextId := proofs + [proof], proofId + 1;
      assert Contents() == s.AddProof(proof);
      r := Success(proof);
    }

    /** `get_asset`: the stored asset, keyed by its own id, or none. */
    function GetAsset(assetId: Id): (r: Option<IntelligenceAsset>)
      reads this
      ensures r.Some? <==> assetId in assets
      ensures Valid() && r.Some? ==> r.value.assetId == assetId
      ensures r.Some? ==> r.value == assets[assetId]
    {
      if assetId in assets then Some(assets[assetId]) else None
    }

    /** `get_events_for_asset`: read from the index, it is exactly the
        asset's events in recording order. */
    function GetEventsForAsset(assetId: Id): (r: seq<CapitalEvent>)
      reads this
      ensures Valid() ==> r == EventsOf(events, assetId)
    {
      Lookup(eventsByAsset, assetId)
    }

    /** `get_entries_for_asset`: read from the index, it is exactly the
        asset's ledger entries in recording order. */
    function GetEntriesForAsset(assetId: Id): (r: seq<LedgerEntry>)
      reads this
      ensures Valid() ==> r == EntriesOf(entries, assetId)
    {
      Lookup(entriesByAsset, assetId)
    }

    /** `get_journal_entries_for_asset`: the journal entries, in posting
        order, whose event id is the id of one of the asset's events. */
    function GetJournalEntriesForAsset(assetId: Id): (r: seq<JournalEntry>)
      reads this
      ensures Valid() ==> forall j :: j in r <==>
        j in journal && exists e :: e in events && e.assetId == assetId && e.eventId == j.eventId
      ensures Valid() ==> r == JournalWithEvents(journal, set e | e in events && e.assetId == assetId :: e.eventId)
    {
      var eventIds := set e | e in GetEventsForAsset(assetId) :: e.eventId;
      JournalWithEventsMembers(journal, eventIds);
      EventsOfMembers(events, assetId);
      assert Valid() ==> eventIds == set e | e in events && e.assetId == assetId :: e.eventId;
      JournalWithEvents(journal, eventIds)
    }

    /** `verify_journal_balance`: true iff every journal amount is positive
        (so true on an empty journal). */
    function VerifyJournalBalance(): (r: bool)
      reads this
      ensures r <==> forall j :: j in journal ==> j.amount > 0.0
    {
      AllPositive(journal)
    }
  }
}
