/** What the lifecycle operations do to the ledger's stored records, as
    functions of the store before them: capitalize, allocate, utilize,
    depreciate and retire. Each updates at most one field of one asset,
    records at most one event (with its ledger entry) and posts zero or one
    double-entry journal entry. */
module LifecycleSpec {
  import opened Types
  import opened Ledger
  import opened Depreciation
  import opened Integrity

  /** The journal entry `capitalize` posts: debit Asset, credit Accumulated
      Depreciation, for the initial value, under an event id of its own. */
  function CapitalizationEntry(entryId: Id, eventId: Id, now: Date, assetId: Id, owner: string,
                               initialValue: real): JournalEntry
  {
    JournalEntry(entryId, eventId, now, Asset, AccumulatedDepreciation, initialValue, "Asset capitalization",
                 map["asset_id" := Uid(assetId), "owner" := Str(owner), "initial_value" := Num(initialValue)])
  }

  /** The event `allocate` records. */
  function AllocationEvent(eventId: Id, assetId: Id, now: Date, fromOwner: string, toOwner: string): CapitalEvent
  {
    CapitalEvent(eventId, assetId, "allocation", now, map["from_owner" := Str(fromOwner), "to_owner" := Str(toOwner)])
  }

  /** The event `utilize` records. */
  function UtilizationEvent(eventId: Id, assetId: Id, now: Date, amount: real): CapitalEvent
  {
    CapitalEvent(eventId, assetId, "utilization", now, map["amount" := Num(amount)])
  }

  /** The details of a depreciation event: amount, window, salvage value and
      rate multiplier. */
  function DepreciationDetails(amount: real, start: Date, end: Date, salvage: real, rateMultiplier: real): (r: Details)
    ensures r.Keys == {"amount", "start_date", "end_date", "salvage_value", "rate_multiplier"}
    ensures r["amount"] == Num(amount) && r["salvage_value"] == Num(salvage)
    ensures r["start_date"] == When(start) && r["end_date"] == When(end)
    ensures r["rate_multiplier"] == Num(rateMultiplier)
  {
    map["amount" := Num(amount), "start_date" := When(start), "end_date" := When(end),
        "salvage_value" := Num(salvage), "rate_multiplier" := Num(rateMultiplier)]
  }

  /** The event `depreciate` records. */
  function DepreciationEvent(eventId: Id, assetId: Id, now: Date, details: Details): CapitalEvent
  {
    CapitalEvent(eventId, assetId, "depreciation", now, details)
  }

  /** The journal entry `depreciate` posts: debit Depreciation Expense,
      credit Accumulated Depreciation, for the amount, linked to the event;
      its metadata adds the asset id and the values before and after to the
      event's details. */
  function DepreciationEntry(entryId: Id, ev: CapitalEvent, now: Date, amount: real,
                             previousValue: Option<real>, newValue: real): (r: JournalEntry)
    ensures r.debitAccount == DepreciationExpense && r.creditAccount == AccumulatedDepreciation
    ensures r.amount == amount && r.eventId == ev.eventId
    ensures r.metadata.Keys == {"asset_id", "previous_value", "new_value"} + ev.details.Keys
    ensures forall k :: k in ev.details ==> r.metadata[k] == ev.details[k]
    ensures "asset_id" !in ev.details ==> r.metadata["asset_id"] == Uid(ev.assetId)
    ensures "previous_value" !in ev.details ==> r.metadata["previous_value"] == OptionalNum(previousValue)
    ensures "new_value" !in ev.details ==> r.metadata["new_value"] == Num(newValue)
  {
    JournalEntry(entryId, ev.eventId, now, DepreciationExpense, AccumulatedDepreciation, amount, "Asset depreciation",
                 map["asset_id" := Uid(ev.assetId), "previous_value" := OptionalNum(previousValue),
                     "new_value" := Num(newValue)] + ev.details)
  }

  /** The depreciation posting carries its event's five details beside the
      asset id and the values before and after: the details never hide
      those three keys. */
  lemma DepreciationPostingMetadata(entryId: Id, eventId: Id, assetId: Id, now: Date, amount: real, start: Date,
                                    end: Date, salvage: real, rateMultiplier: real, previousValue: Option<real>,
                                    newValue: real)
    ensures var ev := DepreciationEvent(eventId, assetId, now, DepreciationDetails(amount, start, end, salvage, rateMultiplier));
      var m := DepreciationEntry(entryId, ev, now, amount, previousValue, newValue).metadata;
      && m.Keys == {"asset_id", "previous_value", "new_value", "amount", "start_date", "end_date", "salvage_value", "rate_multiplier"}
      && m["asset_id"] == Uid(assetId) && m["previous_value"] == OptionalNum(previousValue) && m["new_value"] == Num(newValue)
      && m["amount"] == Num(amount) && m["start_date"] == When(start) && m["end_date"] == When(end)
  {
  }

  /** The event `retire` records: no details. */
  function RetirementEvent(eventId: Id, assetId: Id, now: Date): CapitalEvent
  {
    CapitalEvent(eventId, assetId, "retirement", now, map[])
  }

  /** The write-off `retire` posts: debit Accumulated Depreciation, credit
      Asset, for the current value, linked to the event. */
  function WriteOffEntry(entryId: Id, ev: CapitalEvent, now: Date, value: real): JournalEntry
  {
    JournalEntry(entryId, ev.eventId, now, AccumulatedDepreciation, Asset, value, "Asset retirement write-off",
                 map["asset_id" := Uid(ev.assetId), "retired_value" := Num(value)])
  }

  /** `s` with `j` posted when `post` holds. */
  function PostIf(s: Store, post: bool, j: JournalEntry): Store
  {
    if post then s.AddJournal(j) else s
  }

  /** No stored asset has status Depreciated. */
  predicate NoneDepreciated(s: Store)
  {
    forall id :: id in s.assets ==> s.assets[id].status != Depreciated
  }

  /** The store after `capitalize` adds asset `assetId`, the counter having
      reached `n`: the new asset, and its capitalization entry under entry id
      `n` and event id `n + 1`. */
  function AfterCapitalize(s: Store, n: nat, assetId: Id, owner: string, initialValue: real,
                           depreciationMethod: DepreciationMethod, usefulLifeMonths: int, now: Date): Store
  {
    s.AddAsset(NewAsset(assetId, owner, initialValue, depreciationMethod, usefulLifeMonths, now))
     .AddJournal(CapitalizationEntry(n, n + 1, now, assetId, owner, initialValue))
  }

  /** The store after `allocate` hands stored asset `a` to `targetOwner`,
      the counter being at `n`. */
  function AfterAllocate(s: Store, n: nat, a: IntelligenceAsset, targetOwner: string, now: Date): Store
  {
    s.SetAsset(a.(owner := targetOwner)).AddEvent(AllocationEvent(n, a.assetId, now, a.owner, targetOwner), n + 1)
  }

  /** The store after `utilize` records a use of asset `assetId`, the
      counter being at `n`. */
  function AfterUtilize(s: Store, n: nat, assetId: Id, amount: real, now: Date): Store
  {
    s.AddEvent(UtilizationEvent(n, assetId, now, amount), n + 1)
  }

  /** The store after `depreciate` applies quote `q` to stored asset `a`,
      recording `details` (the amount and the window), the counter being at
      `n`. */
  function AfterDepreciate(s: Store, n: nat, a: IntelligenceAsset, q: Quote, details: Details, now: Date): Store
  {
    var ev := DepreciationEvent(n, a.assetId, now, details);
    PostIf(s.SetAsset(a.(currentValue := Some(q.newValue))).AddEvent(ev, n + 1),
           q.amount > 0.0, DepreciationEntry(n + 2, ev, now, q.amount, a.currentValue, q.newValue))
  }

  /** Whether `retire` writes off `a`: its current value is set and
      positive. */
  predicate WritesOff(a: IntelligenceAsset)
  {
    a.currentValue.Some? && a.currentValue.value > 0.0
  }

  /** What `retire` writes off: the current value when it is set and
      positive, nothing otherwise. */
  function WriteOffValue(a: IntelligenceAsset): (r: real)
    ensures r >= 0.0 && (r > 0.0 <==> WritesOff(a))
  {
    if WritesOff(a) then a.currentValue.value else 0.0
  }

  /** The store after `retire` retires stored asset `a`, the counter being
      at `n`. */
  function AfterRetire(s: Store, n: nat, a: IntelligenceAsset, now: Date): Store
  {
    var ev := RetirementEvent(n, a.assetId, now);
    PostIf(s.SetAsset(a.(status := Retired)).AddEvent(ev, n + 1),
           WritesOff(a), WriteOffEntry(n + 2, ev, now, WriteOffValue(a)))
  }

  /** No journal entry of a store whose ids are below `n` is posted under
      event id `n`. */
  lemma NoPostingsUnder(s: Store, n: nat)
    requires IdsBelow(s, n)
    ensures JournalOf(s.journal, n) == []
  {
    JournalOfMembers(s.journal, n);
    if JournalOf(s.journal, n) != [] {
      assert JournalOf(s.journal, n)[0] in JournalOf(s.journal, n);
    }
  }

  /** `capitalize` adds exactly the new asset, active and valued at its
      initial value, records no event, and posts one entry debiting Asset
      and crediting Accumulated Depreciation for the initial value. The
      entry's event id is one no recorded event has, so the entry is linked
      to no asset. A positive initial value keeps every journal amount
      positive, and no asset becomes depreciated. */
  lemma CapitalizeEffects(s: Store, n: nat, assetId: Id, owner: string, initialValue: real,
                          depreciationMethod: DepreciationMethod, usefulLifeMonths: int, now: Date)
    requires assetId !in s.assets && IdsBelow(s, n)
    ensures var t := AfterCapitalize(s, n, assetId, owner, initialValue, depreciationMethod, usefulLifeMonths, now);
      && t.assets.Keys == s.assets.Keys + {assetId}
      && t.assets[assetId].owner == owner && t.assets[assetId].initialValue == initialValue
      && t.assets[assetId].status == Active && t.assets[assetId].currentValue == Some(initialValue)
      && (forall id :: id in s.assets ==> t.assets[id] == s.assets[id])
      && t.events == s.events && t.entries == s.entries
      && |t.journal| == |s.journal| + 1 && t.journal[..|s.journal|] == s.journal
      && t.journal[|s.journal|].debitAccount == Asset
      && t.journal[|s.journal|].creditAccount == AccumulatedDepreciation
      && t.journal[|s.journal|].amount == initialValue
      && (forall e :: e in t.events ==> e.eventId != t.journal[|s.journal|].eventId)
      && (AllPositive(s.journal) && initialValue > 0.0 ==> AllPositive(t.journal))
      && (NoneDepreciated(s) ==> NoneDepreciated(t))
  {
    var t := AfterCapitalize(s, n, assetId, owner, initialValue, depreciationMethod, usefulLifeMonths, now);
    AllPositiveAppend(s.journal, t.journal[|s.journal|]);
    assert t.journal == s.journal + [t.journal[|s.journal|]];
  }

  /** `allocate` changes the owner of the asset and nothing else about any
      asset, appends one "allocation" event (and its entry) naming the
      previous and the new owner to the asset's history, leaves every other
      asset's history and the journal alone. */
  lemma AllocateEffects(s: Store, n: nat, a: IntelligenceAsset, targetOwner: string, now: Date)
    requires a.assetId in s.assets
    ensures var t := AfterAllocate(s, n, a, targetOwner, now);
      var ev := t.events[|s.events|];
      && t.assets.Keys == s.assets.Keys
      && t.assets[a.assetId] == a.(owner := targetOwner)
      && (forall id :: id in s.assets && id != a.assetId ==> t.assets[id] == s.assets[id])
      && |t.events| == |s.events| + 1 && t.events[..|s.events|] == s.events
      && ev.eventType == "allocation" && ev.assetId == a.assetId
      && ev.details == map["from_owner" := Str(a.owner), "to_owner" := Str(targetOwner)]
      && EventsOf(t.events, a.assetId) == EventsOf(s.events, a.assetId) + [ev]
      && (forall b :: b != a.assetId ==> EventsOf(t.events, b) == EventsOf(s.events, b))
      && t.journal == s.journal
      && (NoneDepreciated(s) && a == s.assets[a.assetId] ==> NoneDepreciated(t))
  {
    var t := AfterAllocate(s, n, a, targetOwner, now);
    var ev := AllocationEvent(n, a.assetId, now, a.owner, targetOwner);
    assert t.events == s.events + [ev];
    forall b ensures EventsOf(t.events, b) == EventsOf(s.events, b) + (if b == a.assetId then [ev] else []) {
      EventsOfAppend(s.events, ev, b);
    }
  }

  /** `utilize` changes no asset and no journal entry and appends one
      "utilization" event carrying the amount to the asset's history. */
  lemma UtilizeEffects(s: Store, n: nat, assetId: Id, amount: real, now: Date)
    ensures var t := AfterUtilize(s, n, assetId, amount, now);
      var ev := t.events[|s.events|];
      && t.assets == s.assets && t.journal == s.journal
      && |t.events| == |s.events| + 1 && t.events[..|s.events|] == s.events
      && ev.eventType == "utilization" && ev.assetId == assetId && ev.details == map["amount" := Num(amount)]
      && EventsOf(t.events, assetId) == EventsOf(s.events, assetId) + [ev]
      && (forall b :: b != assetId ==> EventsOf(t.events, b) == EventsOf(s.events, b))
  {
    var t := AfterUtilize(s, n, assetId, amount, now);
    var ev := UtilizationEvent(n, assetId, now, amount);
    assert t.events == s.events + [ev];
    forall b ensures EventsOf(t.events, b) == EventsOf(s.events, b) + (if b == assetId then [ev] else []) {
      EventsOfAppend(s.events, ev, b);
    }
  }

  /** Writing back updated asset `b`, recording event `ev` and posting `j`
      or not changes only `b` among the assets and appends `ev` to its
      asset's history. */
  lemma UpdateRecordPostEffects(s: Store, n: nat, b: IntelligenceAsset, ev: CapitalEvent, post: bool,
                                j: JournalEntry)
    requires b.assetId in s.assets && ev.assetId == b.assetId
    ensures var t := PostIf(s.SetAsset(b).AddEvent(ev, n + 1), post, j);
      && t.assets.Keys == s.assets.Keys && t.assets[b.assetId] == b
      && (forall id :: id in s.assets && id != b.assetId ==> t.assets[id] == s.assets[id])
      && t.events == s.events + [ev]
      && EventsOf(t.events, b.assetId) == EventsOf(s.events, b.assetId) + [ev]
      && (NoneDepreciated(s) && b.status != Depreciated ==> NoneDepreciated(t))
  {
    EventsOfAppend(s.events, ev, b.assetId);
  }

  /** Posting `j` under event id `n` when `post` holds, to a journal with
      no entry under `n`, leaves `j` as the event's only entry when posted
      and none otherwise; a positive posted amount keeps every journal amount
      positive. */
  lemma PostingsUnder(s: Store, n: nat, post: bool, j: JournalEntry)
    requires JournalOf(s.journal, n) == [] && j.eventId == n
    ensures var t := PostIf(s, post, j);
      && (post ==> t.journal == s.journal + [j] && JournalOf(t.journal, n) == [j])
      && (!post ==> t.journal == s.journal && JournalOf(t.journal, n) == [])
      && (AllPositive(s.journal) && (post ==> j.amount > 0.0) ==> AllPositive(t.journal))
  {
    JournalOfAppend(s.journal, j, n);
    AllPositiveAppend(s.journal, j);
  }

  /** `depreciate` sets the asset's current value to the quote's new value
      and changes nothing else about any asset (its status included, so no
      asset becomes depreciated), and appends one "depreciation" event to
      the asset's history. */
  lemma DepreciateEffects(s: Store, n: nat, a: IntelligenceAsset, q: Quote, details: Details, now: Date)
    requires a.assetId in s.assets && IdsBelow(s, n)
    ensures var t := AfterDepreciate(s, n, a, q, details, now);
      var ev := DepreciationEvent(n, a.assetId, now, details);
      && t.assets.Keys == s.assets.Keys
      && t.assets[a.assetId] == a.(currentValue := Some(q.newValue))
      && (forall id :: id in s.assets && id != a.assetId ==> t.assets[id] == s.assets[id])
      && t.events == s.events + [ev]
      && EventsOf(t.events, a.assetId) == EventsOf(s.events, a.assetId) + [ev]
      && (NoneDepreciated(s) && a.status != Depreciated ==> NoneDepreciated(t))
  {
    var ev := DepreciationEvent(n, a.assetId, now, details);
    var j := DepreciationEntry(n + 2, ev, now, q.amount, a.currentValue, q.newValue);
    UpdateRecordPostEffects(s, n, a.(currentValue := Some(q.newValue)), ev, q.amount > 0.0, j);
  }

  /** `depreciate` posts under its event exactly one expense entry when the
      amount is positive and none otherwise, so every journal amount stays
      positive. */
  lemma DepreciatePostings(s: Store, n: nat, a: IntelligenceAsset, q: Quote, details: Details, now: Date)
    requires a.assetId in s.assets && IdsBelow(s, n)
    ensures var t := AfterDepreciate(s, n, a, q, details, now);
      var j := DepreciationEntry(n + 2, DepreciationEvent(n, a.assetId, now, details), now, q.amount,
                                 a.currentValue, q.newValue);
      && (q.amount <= 0.0 ==> t.journal == s.journal && JournalOf(t.journal, n) == [])
      && (q.amount > 0.0 ==> t.journal == s.journal + [j] && JournalOf(t.journal, n) == [j])
      && (AllPositive(s.journal) ==> AllPositive(t.journal))
  {
    var ev := DepreciationEvent(n, a.assetId, now, details);
    var j := DepreciationEntry(n + 2, ev, now, q.amount, a.currentValue, q.newValue);
    var u := s.SetAsset(a.(currentValue := Some(q.newValue))).AddEvent(ev, n + 1);
    assert AfterDepreciate(s, n, a, q, details, now) == PostIf(u, q.amount > 0.0, j);
    NoPostingsUnder(s, n);
    assert JournalOf(u.journal, n) == [];
    PostingsUnder(u, n, q.amount > 0.0, j);
  }

  /** `retire` sets the asset's status to Retired, whatever it was, and
      changes nothing else about any asset (its current value included), and
      appends one "retirement" event with no details to the asset's
      history. */
  lemma RetireEffects(s: Store, n: nat, a: IntelligenceAsset, now: Date)
    requires a.assetId in s.assets && IdsBelow(s, n)
    ensures var t := AfterRetire(s, n, a, now);
      var ev := RetirementEvent(n, a.assetId, now);
      && t.assets.Keys == s.assets.Keys
      && t.assets[a.assetId] == a.(status := Retired)
      && (forall id :: id in s.assets && id != a.assetId ==> t.assets[id] == s.assets[id])
      && t.events == s.events + [ev]
      && EventsOf(t.events, a.assetId) == EventsOf(s.events, a.assetId) + [ev]
      && (NoneDepreciated(s) ==> NoneDepreciated(t))
  {
    var ev := RetirementEvent(n, a.assetId, now);
    var j := WriteOffEntry(n + 2, ev, now, WriteOffValue(a));
    UpdateRecordPostEffects(s, n, a.(status := Retired), ev, WritesOff(a), j);
  }

  /** `retire` posts under its event exactly one write-off of the current
      value when that value is set and positive, and none otherwise, so
      every journal amount stays positive. */
  lemma RetirePostings(s: Store, n: nat, a: IntelligenceAsset, now: Date)
    requires a.assetId in s.assets && IdsBelow(s, n)
    ensures var t := AfterRetire(s, n, a, now);
      var j := WriteOffEntry(n + 2, RetirementEvent(n, a.assetId, now), now,
                             WriteOffValue(a));
      && (!WritesOff(a) ==> t.journal == s.journal && JournalOf(t.journal, n) == [])
      && (WritesOff(a) ==> t.journal == s.journal + [j] && JournalOf(t.journal, n) == [j] && j.amount > 0.0)
      && (AllPositive(s.journal) ==> AllPositive(t.journal))
  {
    var ev := RetirementEvent(n, a.assetId, now);
    var j := WriteOffEntry(n + 2, ev, now, WriteOffValue(a));
    var u := s.SetAsset(a.(status := Retired)).AddEvent(ev, n + 1);
    assert AfterRetire(s, n, a, now) == PostIf(u, WritesOff(a), j);
    NoPostingsUnder(s, n);
    assert JournalOf(u.journal, n) == [];
    PostingsUnder(u, n, WritesOff(a), j);
  }
}
