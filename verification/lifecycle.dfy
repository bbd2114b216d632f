/** The lifecycle manager: capitalize, allocate, utilize, depreciate and
    retire an asset, each through the ledger's own operations. What each
    operation does to the stored records is stated in `LifecycleSpec`. */
module Lifecycle {
  import opened Types
  import opened Ledger
  import opened Depreciation
  import opened Integrity
  import opened LifecycleSpec

  class CapitalLifecycle {
    const ledger: CapitalLedger

    constructor(ledger: CapitalLedger)
      ensures this.ledger == ledger
    {
      this.ledger := ledger;
    }

    /** Writes an updated copy of a stored asset back into the ledger. */
    method WriteBack(a: IntelligenceAsset)
      requires ledger.Valid() && a.assetId in ledger.assets
      modifies ledger
      ensures ledger.Valid()
      ensures ledger.Contents() == old(ledger.Contents()).SetAsset(a)
      ensures ledger.nextId == old(ledger.nextId)
    {
      ghost var s := ledger.Contents();
      SetAssetKeepsLedgerValid(s, ledger.nextId, ledger.eventsByAsset, ledger.entriesByAsset,
                               ledger.journalByEvent, ledger.sha256, a);
      ledger.assets := ledger.assets[a.assetId := a];
      assert ledger.Contents() == s.SetAsset(a);
    }

    /** Writes an updated copy of a stored asset back, records an event of
        it under a fresh id and, when `post` holds, posts one journal entry
        linked to the event under a further fresh id. */
    method UpdateRecordPost(a: IntelligenceAsset, eventType: string, now: Date, details: Details, post: bool,
                            debit: AccountType, credit: AccountType, amount: real, description: string,
                            metadata: Details)
      returns (event: CapitalEvent)
      requires ledger.Valid() && a.assetId in ledger.assets
      modifies ledger
      ensures ledger.Valid()
      ensures event == CapitalEvent(old(ledger.nextId), a.assetId, eventType, now, details)
      ensures ledger.Contents() == PostIf(old(ledger.Contents()).SetAsset(a).AddEvent(event, old(ledger.nextId) + 1),
        post, JournalEntry(old(ledger.nextId) + 2, event.eventId, now, debit, credit, amount, description, metadata))
    {
      ghost var s, n := ledger.Contents(), ledger.nextId;
      event := UpdateAndRecord(a, eventType, now, details);
      ghost var u := ledger.Contents();
      assert u == s.SetAsset(a).AddEvent(event, n + 1);
      if post {
        var j := PostEntry(event.eventId, now, debit, credit, amount, description, metadata);
        assert ledger.Contents() == u.AddJournal(j);
      }
    }

    /** Writes an updated copy of a stored asset back and records an event
        of it under a fresh id. */
    method UpdateAndRecord(a: IntelligenceAsset, eventType: string, now: Date, details: Details)
      returns (event: CapitalEvent)
      requires ledger.Valid() && a.assetId in ledger.assets
      modifies ledger
      ensures ledger.Valid()
      ensures event == CapitalEvent(old(ledger.nextId), a.assetId, eventType, now, details)
      ensures ledger.Contents() == old(ledger.Contents()).SetAsset(a).AddEvent(event, old(ledger.nextId) + 1)
      ensures ledger.nextId == old(ledger.nextId) + 2
    {
      ghost var s := ledger.Contents();
      WriteBack(a);
      ghost var w := ledger.Contents();
      assert w == s.SetAsset(a);
      event := RecordNewEvent(a.assetId, eventType, now, details);
      assert ledger.Contents() == w.AddEvent(event, ledger.nextId - 1);
    }

    /** Records an event of a stored asset under a fresh id. */
    method RecordNewEvent(assetId: Id, eventType: string, now: Date, details: Details) returns (event: CapitalEvent)
      requires ledger.Valid() && assetId in ledger.assets
      modifies ledger
      ensures ledger.Valid()
      ensures event == CapitalEvent(old(ledger.nextId), assetId, eventType, now, details)
      ensures ledger.Contents() == old(ledger.Contents()).AddEvent(event, old(ledger.nextId) + 1)
      ensures ledger.nextId == old(ledger.nextId) + 2
    {
      var eventId := ledger.FreshId();
      event := CapitalEvent(eventId, assetId, eventType, now, details);
      var recorded := ledger.RecordEvent(event);
    }

    /** Posts a journal entry under a fresh entry id, linked to an event id
        drawn before. */
    method PostEntry(eventId: Id, now: Date, debit: AccountType, credit: AccountType, amount: real,
                     description: string, metadata: Details) returns (j: JournalEntry)
      requires ledger.Valid() && eventId < ledger.nextId
      modifies ledger
      ensures ledger.Valid()
      ensures j == JournalEntry(old(ledger.nextId), eventId, now, debit, credit, amount, description, metadata)
      ensures ledger.Contents() == old(ledger.Contents()).AddJournal(j)
    {
      var entryId := ledger.FreshId();
      j := JournalEntry(entryId, eventId, now, debit, credit, amount, description, metadata);
      ledger.RecordJournalEntry(j);
    }

    /** `capitalize`: a duplicate id fails and changes nothing; otherwise the
        asset is created and one capitalization entry is posted under a fresh
        event id, with no event recorded (see `CapitalizeEffects`). */
    method Capitalize(assetId: Id, owner: string, initialValue: real, depreciationMethod: DepreciationMethod,
                      usefulLifeMonths: int, now: Date)
      returns (r: Result<IntelligenceAsset>)
      requires ledger.Valid()
      modifies ledger
      ensures ledger.Valid()
      ensures assetId in old(ledger.assets) ==>
        r == Failure(DuplicateAsset(assetId)) && ledger.Contents() == old(ledger.Contents())
      ensures assetId !in old(ledger.assets) ==>
        && r == Success(NewAsset(assetId, owner, initialValue, depreciationMethod, usefulLifeMonths, now))
        && ledger.Contents() == AfterCapitalize(old(ledger.Contents()), Above(old(ledger.nextId), assetId),
                                                assetId, owner, initialValue, depreciationMethod, usefulLifeMonths, now)
    {
      r := ledger.CreateAsset(assetId, owner, initialValue, depreciationMethod, usefulLifeMonths, now);
      if r.Failure? {
        return;
      }
      PostCapitalization(assetId, owner, initialValue, now);
    }

    /** Posts the capitalization entry of asset `assetId` under a fresh entry
        id and a further fresh event id. */
    method PostCapitalization(assetId: Id, owner: string, initialValue: real, now: Date)
      requires ledger.Valid()
      modifies ledger
      ensures ledger.Valid()
      ensures ledger.Contents() == old(ledger.Contents()).AddJournal(
        CapitalizationEntry(old(ledger.nextId), old(ledger.nextId) + 1, now, assetId, owner, initialValue))
    {
      var entryId := ledger.FreshId();
      var eventId := ledger.FreshId();
      ledger.RecordJournalEntry(CapitalizationEntry(entryId, eventId, now, assetId, owner, initialValue));
    }

    /** `allocate`: an unknown asset fails and changes nothing; otherwise the
        owner becomes the target and one "allocation" event records the
        previous and the new owner (see `AllocateEffects`). */
    method Allocate(assetId: Id, targetOwner: string, now: Date) returns (r: Result<CapitalEvent>)
      requires ledger.Valid()
      modifies ledger
      ensures ledger.Valid()
      ensures assetId !in old(ledger.assets) ==>
        r == Failure(UnknownAsset(assetId)) && ledger.Contents() == old(ledger.Contents())
      ensures assetId in old(ledger.assets) ==>
        && r == Success(AllocationEvent(old(ledger.nextId), assetId, now, old(ledger.assets[assetId].owner), targetOwner))
        && ledger.Contents() == AfterAllocate(old(ledger.Contents()), old(ledger.nextId), old(ledger.assets[assetId]),
                                              targetOwner, now)
    {
      var found := ledger.GetAsset(assetId);
      if found.None? {
        return Failure(UnknownAsset(assetId));
      }
      var asset := found.value;
      var event := UpdateAndRecord(asset.(owner := targetOwner), "allocation", now,
                                   map["from_owner" := Str(asset.owner), "to_owner" := Str(targetOwner)]);
      r := Success(event);
    }

    /** `utilize`: records one "utilization" event carrying the amount; an
        unknown asset makes the recording fail and nothing is stored (see
        `UtilizeEffects`). */
    method Utilize(assetId: Id, amount: real, now: Date) returns (r: Result<CapitalEvent>)
      requires ledger.Valid()
      modifies ledger
      ensures ledger.Valid()
      ensures assetId !in old(ledger.assets) ==>
        r == Failure(UnknownAsset(assetId)) && ledger.Contents() == old(ledger.Contents())
      ensures assetId in old(ledger.assets) ==>
        && r == Success(UtilizationEvent(old(ledger.nextId), assetId, now, amount))
        && ledger.Contents() == AfterUtilize(old(ledger.Contents()), old(ledger.nextId), assetId, amount, now)
    {
      var eventId := ledger.FreshId();
      var event := UtilizationEvent(eventId, assetId, now, amount);
      var recorded := ledger.RecordEvent(event);
      if recorded.Fail? {
        return Failure(recorded.error);
      }
      r := Success(event);
    }

    /** `depreciate`: an unknown asset, a window overlapping an earlier
        depreciation of the asset (or one whose dates cannot be read) and a
        zero useful life all fail before anything changes. Otherwise the
        quote is applied (see `DepreciateEffects`). The asset's status is
        not consulted. */
    method Depreciate(assetId: Id, start: Date, end: Date, salvage: real, rateMultiplier: real, now: Date)
      returns (r: Result<CapitalEvent>)
      requires ledger.Valid()
      modifies ledger
      ensures ledger.Valid()
      ensures assetId !in old(ledger.assets) ==>
        r == Failure(UnknownAsset(assetId)) && ledger.Contents() == old(ledger.Contents())
      ensures assetId in old(ledger.assets) ==>
        var a := old(ledger.assets[assetId]);
        var period := FirstConflict(DepreciationEvents(EventsOf(old(ledger.events), assetId)), assetId, start, end);
        var quote := Depreciation.Depreciation(a, start, end, salvage, rateMultiplier);
        && (period.Fail? ==> r == Failure(period.error) && ledger.Contents() == old(ledger.Contents()))
        && (period == Pass && quote.Failure? ==> r == Failure(quote.error) && ledger.Contents() == old(ledger.Contents()))
        && (period == Pass && quote.Success? ==>
              var details := DepreciationDetails(quote.value.amount, start, end, salvage, rateMultiplier);
              && r == Success(DepreciationEvent(old(ledger.nextId), assetId, now, details))
              && ledger.Contents() == AfterDepreciate(old(ledger.Contents()), old(ledger.nextId), a, quote.value,
                                                      details, now))
    {
      var found := ledger.GetAsset(assetId);
      if found.None? {
        return Failure(UnknownAsset(assetId));
      }
      var asset := found.value;
      var checker := new IntegrityChecker(ledger);
      var period := checker.ValidateDepreciationPeriod(assetId, start, end);
      if period.Fail? {
        return Failure(period.error);
      }
      var quote := CalculateDepreciation(asset, start, end, salvage, rateMultiplier);
      if quote.Failure? {
        return Failure(quote.error);
      }
      var details := DepreciationDetails(quote.value.amount, start, end, salvage, rateMultiplier);
      var event := ApplyQuote(asset, quote.value, details, now);
      r := Success(event);
    }

    /** The state change of a successful `depreciate`: quote `q` applied
        to stored asset `a`, recording `details`. */
    method ApplyQuote(a: IntelligenceAsset, q: Quote, details: Details, now: Date) returns (event: CapitalEvent)
      requires ledger.Valid() && a.assetId in ledger.assets
      modifies ledger
      ensures ledger.Valid()
      ensures event == DepreciationEvent(old(ledger.nextId), a.assetId, now, details)
      ensures ledger.Contents() == AfterDepreciate(old(ledger.Contents()), old(ledger.nextId), a, q, details, now)
    {
      event := UpdateRecordPost(a.(currentValue := Some(q.newValue)), "depreciation", now, details, q.amount > 0.0,
                                DepreciationExpense, AccumulatedDepreciation, q.amount, "Asset depreciation",
                                map["asset_id" := Uid(a.assetId), "previous_value" := OptionalNum(a.currentValue),
                                    "new_value" := Num(q.newValue)] + details);
    }

    /** `retire`: an unknown asset fails and changes nothing; otherwise the
        asset is retired (see `RetireEffects`). */
    method Retire(assetId: Id, now: Date) returns (r: Result<CapitalEvent>)
      requires ledger.Valid()
      modifies ledger
      ensures ledger.Valid()
      ensures assetId !in old(ledger.assets) ==>
        r == Failure(UnknownAsset(assetId)) && ledger.Contents() == old(ledger.Contents())
      ensures assetId in old(ledger.assets) ==>
        && r == Success(RetirementEvent(old(ledger.nextId), assetId, now))
        && ledger.Contents() == AfterRetire(old(ledger.Contents()), old(ledger.nextId), old(ledger.assets[assetId]), now)
    {
      var found := ledger.GetAsset(assetId);
      if found.None? {
        return Failure(UnknownAsset(assetId));
      }
      var asset := found.value;
      var value := WriteOffValue(asset);
      var event := UpdateRecordPost(asset.(status := Retired), "retirement", now, map[], WritesOff(asset),
                                    AccumulatedDepreciation, Asset, value, "Asset retirement write-off",
                                    map["asset_id" := Uid(assetId), "retired_value" := Num(value)]);
      r := Success(event);
    }
  }
}
