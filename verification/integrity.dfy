/** The integrity checker: validators that reject a malformed asset, event
    or ledger entry, a batch mode that collects every failure instead of
    stopping at the first, and the overlap test for depreciation windows. */
module Integrity {
  import opened Types
  import opened Ledger

  /** A validator's verdict: none when the item passes, otherwise the rule
      it breaks (the source raises `IntegrityError` with that message). */
  type Verdict = Option<Violation>

  /** `validate_asset`: an empty owner, then a non-positive initial value,
      then a non-positive useful life are rejected, in that order. */
  function ValidateAsset(a: IntelligenceAsset): (r: Verdict)
    ensures r == None <==> a.owner != "" && a.initialValue > 0.0 && a.usefulLifeMonths > 0
    ensures a.owner == "" ==> r == Some(NoOwner)
    ensures a.owner != "" && a.initialValue <= 0.0 ==> r == Some(NonPositiveValue)
    ensures a.owner != "" && a.initialValue > 0.0 && a.usefulLifeMonths <= 0 ==> r == Some(NonPositiveLife)
  {
    if a.owner == "" then Some(NoOwner)
    else if a.initialValue <= 0.0 then Some(NonPositiveValue)
    else if a.usefulLifeMonths <= 0 then Some(NonPositiveLife)
    else None
  }

  /** `validate_event`: an event naming an asset the ledger lacks, then an
      event with an empty type, is rejected. */
  function ValidateEvent(s: Store, e: CapitalEvent): (r: Verdict)
    ensures r == None <==> e.assetId in s.assets && e.eventType != ""
    ensures e.assetId !in s.assets ==> r == Some(UnknownAssetRef(e.assetId))
    ensures e.assetId in s.assets && e.eventType == "" ==> r == Some(MissingEventType)
  {
    if e.assetId !in s.assets then Some(UnknownAssetRef(e.assetId))
    else if e.eventType == "" then Some(MissingEventType)
    else None
  }

  /** `validate_entry`: an entry naming an asset the ledger lacks is
      rejected; so is one strictly earlier than the LAST stored entry (not
      its own predecessor). Equal timestamps pass, and an empty ledger skips
      the time check. */
  function ValidateEntry(s: Store, l: LedgerEntry): (r: Verdict)
    ensures r == None <==>
      l.assetId in s.assets && (s.entries == [] || NotAfter(s.entries[|s.entries| - 1].timestamp, l.timestamp))
    ensures l.assetId !in s.assets ==> r == Some(UnknownAssetRef(l.assetId))
    ensures l.assetId in s.assets && s.entries != [] && Before(l.timestamp, s.entries[|s.entries| - 1].timestamp)
      ==> r == Some(OutOfOrder)
  {
    if l.assetId !in s.assets then Some(UnknownAssetRef(l.assetId))
    else if s.entries != [] && Before(l.timestamp, s.entries[|s.entries| - 1].timestamp) then Some(OutOfOrder)
    else None
  }

  /** Which kind of record a batch report is about. */
  datatype Kind = AssetKind | EventKind | EntryKind

  /** One line of the batch report: the record's kind and id, and the rule
      it breaks. */
  datatype Report = Report(kind: Kind, id: Id, violation: Violation)

  /** A verdict as report lines: none for a pass, one for a failure. */
  function ReportOf(kind: Kind, id: Id, v: Verdict): seq<Report>
  {
    match v
    case None => []
    case Some(violation) => [Report(kind, id, violation)]
  }

  /** The report lines for the assets listed in `ids`, in that order. */
  function AssetReports(s: Store, ids: seq<Id>): seq<Report>
    requires forall id :: id in ids ==> id in s.assets
  {
    if ids == [] then []
    else
      var last := ids[|ids| - 1];
      AssetReports(s, ids[..|ids| - 1]) + ReportOf(AssetKind, s.assets[last].assetId, ValidateAsset(s.assets[last]))
  }

  /** The report lines for the events `es`, in order. */
  function EventReports(s: Store, es: seq<CapitalEvent>): seq<Report>
  {
    if es == [] then []
    else
      var last := es[|es| - 1];
      EventReports(s, es[..|es| - 1]) + ReportOf(EventKind, last.eventId, ValidateEvent(s, last))
  }

  /** The report lines for the entries `ls`, in order. */
  function EntryReports(s: Store, ls: seq<LedgerEntry>): seq<Report>
  {
    if ls == [] then []
    else
      var last := ls[|ls| - 1];
      EntryReports(s, ls[..|ls| - 1]) + ReportOf(EntryKind, last.entryId, ValidateEntry(s, last))
  }

  /** The report for the assets listed in `ids` is empty exactly when each passes; it has
      at most one line per item, each about that kind of record. */
  lemma {:induction false} AssetReportsSpec(s: Store, ids: seq<Id>)
    requires forall id :: id in ids ==> id in s.assets
    ensures AssetReports(s, ids) == [] <==> forall i :: 0 <= i < |ids| ==> ValidateAsset(s.assets[ids[i]]) == None
    ensures |AssetReports(s, ids)| <= |ids|
    ensures forall k :: 0 <= k < |AssetReports(s, ids)| ==> AssetReports(s, ids)[k].kind == AssetKind
  {
    if ids != [] {
      AssetReportsSpec(s, ids[..|ids| - 1]);
    }
  }

  /** The report for the events `es` is empty exactly when each passes; it has
      at most one line per item, each about that kind of record. */
  lemma {:induction false} EventReportsSpec(s: Store, es: seq<CapitalEvent>)
    ensures EventReports(s, es) == [] <==> forall i :: 0 <= i < |es| ==> ValidateEvent(s, es[i]) == None
    ensures |EventReports(s, es)| <= |es|
    ensures forall k :: 0 <= k < |EventReports(s, es)| ==> EventReports(s, es)[k].kind == EventKind
  {
    if es != [] {
      EventReportsSpec(s, es[..|es| - 1]);
    }
  }

  /** The report for the entries `ls` is empty exactly when each passes; it has
      at most one line per item, each about that kind of record. */
  lemma {:induction false} EntryReportsSpec(s: Store, ls: seq<LedgerEntry>)
    ensures EntryReports(s, ls) == [] <==> forall i :: 0 <= i < |ls| ==> ValidateEntry(s, ls[i]) == None
    ensures |EntryReports(s, ls)| <= |ls|
    ensures forall k :: 0 <= k < |EntryReports(s, ls)| ==> EntryReports(s, ls)[k].kind == EntryKind
  {
    if ls != [] {
      EntryReportsSpec(s, ls[..|ls| - 1]);
    }
  }

  /** The whole batch report: assets in insertion order, then events, then
      entries. */
  function AllReports(s: Store): seq<Report>
    requires forall id :: id in s.assetOrder ==> id in s.assets
  {
    AssetReports(s, s.assetOrder) + EventReports(s, s.events) + EntryReports(s, s.entries)
  }

  /** The batch report is empty exactly when every asset, event and entry
      passes its validator. */
  lemma AllReportsEmptyIff(s: Store)
    requires forall id :: id in s.assets <==> id in s.assetOrder
    ensures AllReports(s) == [] <==>
      && (forall id :: id in s.assets ==> ValidateAsset(s.assets[id]) == None)
      && (forall i :: 0 <= i < |s.events| ==> ValidateEvent(s, s.events[i]) == None)
      && (forall i :: 0 <= i < |s.entries| ==> ValidateEntry(s, s.entries[i]) == None)
  {
    AssetReportsSpec(s, s.assetOrder);
    EventReportsSpec(s, s.events);
    EntryReportsSpec(s, s.entries);
    if AllReports(s) == [] {
      forall id | id in s.assets ensures ValidateAsset(s.assets[id]) == None {
        var n :| 0 <= n < |s.assetOrder| && s.assetOrder[n] == id;
      }
    }
  }

  /** In batch mode every stored entry is compared with the final stored
      entry: an entry of a known asset is reported out of order exactly when
      it is earlier than the last entry. */
  lemma BatchComparesWithLast(s: Store, i: int)
    requires 0 <= i < |s.entries| && s.entries[i].assetId in s.assets
    ensures ValidateEntry(s, s.entries[i]) == Some(OutOfOrder)
        <==> Before(s.entries[i].timestamp, s.entries[|s.entries| - 1].timestamp)
    ensures i == |s.entries| - 1 ==> ValidateEntry(s, s.entries[i]) == None
  {
    BeforeIsStrictTotalOrder(s.entries[i].timestamp, s.entries[i].timestamp, s.entries[i].timestamp);
  }

  /** Consequently two correctly ordered entries are reported: the first is
      earlier than the last. */
  lemma OrderedPairIsReported(s: Store, l1: LedgerEntry, l2: LedgerEntry)
    requires s.entries == [l1, l2] && l1.assetId in s.assets && l2.assetId in s.assets
    requires Before(l1.timestamp, l2.timestamp)
    ensures EntryReports(s, s.entries) == [Report(EntryKind, l1.entryId, OutOfOrder)]
  {
    BeforeIsStrictTotalOrder(l2.timestamp, l2.timestamp, l2.timestamp);
    assert ValidateEntry(s, l1) == Some(OutOfOrder);
    assert ValidateEntry(s, l2) == None;
    assert s.entries[..1] == [l1] && [l1][..0] == [];
    assert EntryReports(s, [l1]) == [Report(EntryKind, l1.entryId, OutOfOrder)];
  }

  /** ...while two entries stored out of order pass: neither is earlier than
      the last one. */
  lemma ReversedPairPasses(s: Store, l1: LedgerEntry, l2: LedgerEntry)
    requires s.entries == [l1, l2] && l1.assetId in s.assets && l2.assetId in s.assets
    requires Before(l2.timestamp, l1.timestamp)
    ensures EntryReports(s, s.entries) == []
  {
    BeforeIsStrictTotalOrder(l1.timestamp, l2.timestamp, l1.timestamp);
    BeforeIsStrictTotalOrder(l2.timestamp, l2.timestamp, l2.timestamp);
    assert ValidateEntry(s, l1) == None;
    assert ValidateEntry(s, l2) == None;
    assert s.entries[..1] == [l1] && [l1][..0] == [];
    assert EntryReports(s, [l1]) == [];
  }

  /** Reads a date stored under `key` in a depreciation event's details:
      a missing key or a value that is not a date fails. */
  function ParseDate(details: Details, key: string): (r: Result<Date>)
    ensures r.Success? <==> key in details && details[key].When?
    ensures r.Success? ==> r.value == details[key].d
    ensures r.Failure? ==> r.error == BadDetail(key)
  {
    if key in details && details[key].When? then Success(details[key].d) else Failure(BadDetail(key))
  }

  /** Closed-interval overlap: [s1, e1] and [s2, e2] share a point in time
      (given each starts no later than it ends). */
  predicate Overlaps(s1: Date, e1: Date, s2: Date, e2: Date)
  {
    NotAfter(s1, e2) && NotAfter(s2, e1)
  }

  /** Overlap is symmetric, and windows that only touch at an end point
      overlap; a window ending strictly before another starts does not. */
  lemma OverlapsProperties(s1: Date, e1: Date, s2: Date, e2: Date)
    ensures Overlaps(s1, e1, s2, e2) <==> Overlaps(s2, e2, s1, e1)
    ensures NotAfter(s1, e1) && NotAfter(e1, e2) ==> Overlaps(s1, e1, e1, e2)
    ensures Before(e1, s2) ==> !Overlaps(s1, e1, s2, e2)
  {
    BeforeIsStrictTotalOrder(s1, e1, e2);
    BeforeIsStrictTotalOrder(e1, e1, e1);
  }

  /** The depreciation events among `es`, in order. */
  function DepreciationEvents(es: seq<CapitalEvent>): seq<CapitalEvent>
  {
    if es == [] then []
    else DepreciationEvents(es[..|es| - 1]) + (if es[|es| - 1].eventType == "depreciation" then [es[|es| - 1]] else [])
  }

  /** `DepreciationEvents` keeps exactly the events typed "depreciation". */
  lemma {:induction false} DepreciationEventsMembers(es: seq<CapitalEvent>)
    ensures forall e :: e in DepreciationEvents(es) <==> e in es && e.eventType == "depreciation"
  {
    if es != [] {
      DepreciationEventsMembers(es[..|es| - 1]);
      assert es == es[..|es| - 1] + [es[|es| - 1]];
    }
  }

  /** The verdict on a requested window against one earlier depreciation
      event: its start date, then its end date, must be readable; then the
      windows must not overlap. */
  function PeriodCheck(ev: CapitalEvent, assetId: Id, start: Date, end: Date): Outcome
  {
    match ParseDate(ev.details, "start_date")
    case Failure(err) => Fail(err)
    case Success(depStart) =>
      match ParseDate(ev.details, "end_date")
      case Failure(err) => Fail(err)
      case Success(depEnd) =>
        if Overlaps(start, end, depStart, depEnd)
        then Fail(Integrity(OverlappingPeriod(assetId, start, end, depStart, depEnd)))
        else Pass
  }

  /** The first failing verdict among `deps`, scanned in order, or a pass. */
  function FirstConflict(deps: seq<CapitalEvent>, assetId: Id, start: Date, end: Date): (r: Outcome)
    ensures r == Pass <==> forall i :: 0 <= i < |deps| ==> PeriodCheck(deps[i], assetId, start, end) == Pass
    ensures r.Fail? ==> exists i :: 0 <= i < |deps| && r == PeriodCheck(deps[i], assetId, start, end)
                                    && forall k :: 0 <= k < i ==> PeriodCheck(deps[k], assetId, start, end) == Pass
  {
    if deps == [] then Pass
    else
      var first := PeriodCheck(deps[0], assetId, start, end);
      if first.Fail? then first
      else
        var rest := FirstConflict(deps[1..], assetId, start, end);
        assert rest.Fail? ==> exists i :: 0 <= i < |deps| && rest == PeriodCheck(deps[i], assetId, start, end)
                                          && forall k :: 0 <= k < i ==> PeriodCheck(deps[k], assetId, start, end) == Pass
        by {
          if rest.Fail? {
            var j :| 0 <= j < |deps[1..]| && rest == PeriodCheck(deps[1..][j], assetId, start, end)
                     && forall k :: 0 <= k < j ==> PeriodCheck(deps[1..][k], assetId, start, end) == Pass;
            forall k | 0 <= k < j + 1 ensures PeriodCheck(deps[k], assetId, start, end) == Pass {
              if k > 0 {
                assert deps[k] == deps[1..][k - 1];
              }
            }
          }
        }
        assert (forall i :: 0 <= i < |deps| ==> PeriodCheck(deps[i], assetId, start, end) == Pass)
           <==> (forall i :: 0 <= i < |deps[1..]| ==> PeriodCheck(deps[1..][i], assetId, start, end) == Pass)
        by {
          forall i | 0 <= i < |deps[1..]| ensures deps[1..][i] == deps[i + 1] {}
        }
        rest
  }

  /** When every depreciation event carries readable dates, a window is
      rejected exactly when it overlaps one of them. */
  lemma PeriodRejectedIffOverlap(es: seq<CapitalEvent>, assetId: Id, start: Date, end: Date)
    requires forall e :: e in es && e.eventType == "depreciation" ==>
      ParseDate(e.details, "start_date").Success? && ParseDate(e.details, "end_date").Success?
    ensures FirstConflict(DepreciationEvents(es), assetId, start, end).Fail? <==>
      exists e :: e in es && e.eventType == "depreciation"
        && Overlaps(start, end, ParseDate(e.details, "start_date").value, ParseDate(e.details, "end_date").value)
  {
    DepreciationEventsMembers(es);
    var deps := DepreciationEvents(es);
    if FirstConflict(deps, assetId, start, end).Fail? {
      var i :| 0 <= i < |deps| && PeriodCheck(deps[i], assetId, start, end).Fail?;
      assert deps[i] in deps;
    } else {
      forall e | e in es && e.eventType == "depreciation"
        ensures !Overlaps(start, end, ParseDate(e.details, "start_date").value, ParseDate(e.details, "end_date").value)
      {
        assert e in deps;
        var i :| 0 <= i < |deps| && deps[i] == e;
        assert PeriodCheck(deps[i], assetId, start, end) == Pass;
      }
    }
  }

  /** An asset with no depreciation event accepts every window. */
  lemma NoDepreciationEventsPass(es: seq<CapitalEvent>, assetId: Id, start: Date, end: Date)
    requires forall e :: e in es ==> e.eventType != "depreciation"
    ensures FirstConflict(DepreciationEvents(es), assetId, start, end) == Pass
  {
    DepreciationEventsMembers(es);
  }

  class IntegrityChecker {
    const ledger: CapitalLedger

    constructor(ledger: CapitalLedger)
      ensures this.ledger == ledger
    {
      this.ledger := ledger;
    }

    /** `check_all_integrity`: validates every asset, event and entry and
        collects one report line per failure instead of stopping; the report
        is empty exactly when everything passes. */
    method CheckAllIntegrity() returns (errors: seq<Report>)
      requires forall id :: id in ledger.assets <==> id in ledger.assetOrder
      ensures errors == AllReports(ledger.Contents())
      ensures errors == [] <==>
        && (forall id :: id in ledger.assets ==> ValidateAsset(ledger.assets[id]) == None)
        && (forall i :: 0 <= i < |ledger.events| ==> ValidateEvent(ledger.Contents(), ledger.events[i]) == None)
        && (forall i :: 0 <= i < |ledger.entries| ==> ValidateEntry(ledger.Contents(), ledger.entries[i]) == None)
    {
      var s := ledger.Contents();
      errors := [];
      var i := 0;
      while i < |s.assetOrder|
        invariant 0 <= i <= |s.assetOrder|
        invariant errors == AssetReports(s, s.assetOrder[..i])
      {
        assert s.assetOrder[..i + 1][..i] == s.assetOrder[..i];
        var asset := s.assets[s.assetOrder[i]];
        errors := errors + ReportOf(AssetKind, asset.assetId, ValidateAsset(asset));
        i := i + 1;
      }
      assert s.assetOrder[..i] == s.assetOrder;
      ghost var assetPart := errors;
      var j := 0;
      while j < |s.events|
        invariant 0 <= j <= |s.events|
        invariant errors == assetPart + EventReports(s, s.events[..j])
      {
        assert s.events[..j + 1][..j] == s.events[..j];
        var event := s.events[j];
        errors := errors + ReportOf(EventKind, event.eventId, ValidateEvent(s, event));
        j := j + 1;
      }
      assert s.events[..j] == s.events;
      ghost var eventPart := errors;
      var k := 0;
      while k < |s.entries|
        invariant 0 <= k <= |s.entries|
        invariant errors == eventPart + EntryReports(s, s.entries[..k])
      {
        assert s.entries[..k + 1][..k] == s.entries[..k];
        var entry := s.entries[k];
        errors := errors + ReportOf(EntryKind, entry.entryId, ValidateEntry(s, entry));
        k := k + 1;
      }
      assert s.entries[..k] == s.entries;
      AllReportsEmptyIff(s);
    }

    /** `validate_depreciation_period`: scans the asset's earlier
        depreciation events in order and fails on the first whose dates
        cannot be read or whose window overlaps [start, end]. It only reads
        the ledger. */
    method ValidateDepreciationPeriod(assetId: Id, start: Date, end: Date) returns (r: Outcome)
      requires ledger.Valid()
      ensures r == FirstConflict(DepreciationEvents(EventsOf(ledger.events, assetId)), assetId, start, end)
    {
      var existing := DepreciationEvents(ledger.GetEventsForAsset(assetId));
      var i := 0;
      while i < |existing|
        invariant 0 <= i <= |existing|
        invariant FirstConflict(existing, assetId, start, end) == FirstConflict(existing[i..], assetId, start, end)
      {
        var verdict := PeriodCheck(existing[i], assetId, start, end);
        if verdict.Fail? {
          return verdict;
        }
        assert existing[i..][1..] == existing[i + 1..];
        i := i + 1;
      }
      return Pass;
    }

    /** `ensure_no_retroactive_modification` accepts every event and reads
        nothing. */
    method EnsureNoRetroactiveModification(newEvent: CapitalEvent) returns (r: Outcome)
      ensures r == Pass
    {
      r := Pass;
    }
  }
}
