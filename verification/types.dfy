/** Data model of the intelligence-capital ledger: the closed enumerations,
    the five record kinds (asset, capital event, ledger entry, journal entry,
    capital proof) and the tamper-evident proof hash. */
module Types {

  /** Identifiers of assets, events, entries and proofs. The system draws
      random UUIDs; the model draws naturals from a counter kept by the ledger. */
  type Id = nat

  datatype Option<T> = None | Some(value: T)

  /** Lifecycle status of an asset (three values). */
  datatype AssetStatus = Active | Depreciated | Retired

  /** How book value decays (two values). */
  datatype DepreciationMethod = Linear | DecliningBalance

  /** Accounts a journal entry can debit or credit (three values). */
  datatype AccountType = Asset | AccumulatedDepreciation | DepreciationExpense

  /** The string value each status carries. */
  function StatusValue(s: AssetStatus): string
  {
    match s
    case Active => "active"
    case Depreciated => "depreciated"
    case Retired => "retired"
  }

  /** The string value each depreciation method carries. */
  function MethodValue(m: DepreciationMethod): string
  {
    match m
    case Linear => "linear"
    case DecliningBalance => "declining_balance"
  }

  /** Distinct enumeration members carry distinct string values, so the
      values written into a proof's content identify the member. */
  lemma EnumValuesDistinct(s1: AssetStatus, s2: AssetStatus, m1: DepreciationMethod, m2: DepreciationMethod)
    ensures StatusValue(s1) == StatusValue(s2) <==> s1 == s2
    ensures MethodValue(m1) == MethodValue(m2) <==> m1 == m2
  {
  }

  /** The integrity rules an entity or a depreciation window can break. */
  datatype Violation =
    | NoOwner                   // the asset's owner is empty
    | NonPositiveValue          // the asset's initial value is not positive
    | NonPositiveLife           // the asset's useful life is not positive
    | UnknownAssetRef(id: Id)   // an event or entry names an asset the ledger lacks
    | MissingEventType          // the event type is empty
    | OutOfOrder                // an entry is earlier than the last stored entry
    | OverlappingPeriod(assetId: Id, start: Date, end: Date, priorStart: Date, priorEnd: Date)

  /** The failures the core reports to its callers. */
  datatype Error =
    | UnknownAsset(id: Id)             // no asset with this id
    | DuplicateAsset(id: Id)           // an asset with this id already exists
    | Integrity(violation: Violation)  // a ledger rule is broken
    | BadDetail(key: string)           // a depreciation event lacks a date under this key
    | DivisionByZero                   // a useful life of zero months
    | InvalidAttribution(key: string)  // the attribution record under this key fails the schema

  datatype Result<T> = Success(value: T) | Failure(error: Error)

  datatype Outcome = Pass | Fail(error: Error)

  /** A point in time: calendar year and month, and `rest`, the position
      within the month (day and time of day) folded into one ordered number.
      The month is not limited to 1..12 as a calendar date's is: the order
      and the month count compute the source's arithmetic for any value, and
      the one fact that needs calendar months, that a positive month count
      runs forward in time, says so in its precondition. */
  datatype Date = Date(year: int, month: int, rest: nat)

  /** `a` is strictly earlier than `b` (lexicographic on year, month, rest). */
  predicate Before(a: Date, b: Date)
  {
    a.year < b.year
    || (a.year == b.year && a.month < b.month)
    || (a.year == b.year && a.month == b.month && a.rest < b.rest)
  }

  /** `a <= b` in time. */
  predicate NotAfter(a: Date, b: Date)
  {
    !Before(b, a)
  }

  /** `Before` is a strict total order, so `NotAfter` is its reflexive closure. */
  lemma BeforeIsStrictTotalOrder(a: Date, b: Date, c: Date)
    ensures !Before(a, a)
    ensures Before(a, b) && Before(b, c) ==> Before(a, c)
    ensures a == b || Before(a, b) || Before(b, a)
    ensures NotAfter(a, b) <==> a == b || Before(a, b)
  {
  }

  /** The scalar values that event details, entry metadata and proof content
      hold: JSON null, a string, a float, an int, a date, or an id rendered as
      a string. */
  datatype Scalar = Null | Str(s: string) | Num(r: real) | Int(i: int) | When(d: Date) | Uid(id: Id)

  /** A string-keyed mapping of scalars. */
  type Details = map<string, Scalar>

  /** An optional float as a scalar: None becomes null. */
  function OptionalNum(v: Option<real>): Scalar
  {
    match v
    case None => Null
    case Some(r) => Num(r)
  }

  /** A capitalized unit of intelligence capability. A freshly built record
      has status Active and no current value unless the builder gives one;
      `ledger.CreateAsset` always gives one. */
  datatype IntelligenceAsset = IntelligenceAsset(
    assetId: Id,
    owner: string,
    initialValue: real,
    depreciationMethod: DepreciationMethod,
    usefulLifeMonths: int,
    createdAt: Date,
    status: AssetStatus,
    currentValue: Option<real>)

  /** A discrete economic action on an asset. */
  datatype CapitalEvent = CapitalEvent(
    eventId: Id,
    assetId: Id,
    eventType: string,
    timestamp: Date,
    details: Details)

  /** The auditable record derived from one capital event. Its amount is
      whatever scalar the event's details hold under "amount". */
  datatype LedgerEntry = LedgerEntry(
    entryId: Id,
    eventId: Id,
    assetId: Id,
    timestamp: Date,
    amount: Scalar,
    description: string,
    metadata: Details)

  /** A double-entry posting: one debit and one credit of the same amount. */
  datatype JournalEntry = JournalEntry(
    entryId: Id,
    eventId: Id,
    timestamp: Date,
    debitAccount: AccountType,
    creditAccount: AccountType,
    amount: real,
    description: string,
    metadata: Details)

  /** A hex digest. */
  type Digest = string

  /** A hash-linked snapshot of an asset's state. */
  datatype CapitalProof = CapitalProof(
    proofId: Id,
    assetId: Id,
    eventId: Option<Id>,
    timestamp: Date,
    origin: string,
    content: Details,
    previousProofHash: Option<Digest>,
    proofHash: Option<Digest>)

  /** What the proof hash is taken over: the proof id, the timestamp, the
      content serialised with sorted keys (a map has no key order, so the
      map itself stands for that serialisation) and the previous hash, with
      a missing previous hash written as the empty string. */
  datatype HashPreimage = HashPreimage(proofId: Id, timestamp: Date, content: Details, previous: Digest)

  /** The preimage of a proof's hash. */
  function Preimage(p: CapitalProof): HashPreimage
  {
    HashPreimage(p.proofId, p.timestamp, p.content,
                 match p.previousProofHash case Some(h) => h case None => "")
  }

  /** `compute_hash`: the digest function applied to the preimage. The
      digest function is a parameter, so nothing is assumed of it beyond
      being a function. */
  function ComputeHash(p: CapitalProof, sha256: HashPreimage -> Digest): Digest
  {
    sha256(Preimage(p))
  }

  /** The hash sees only proof id, timestamp, content and previous hash:
      asset id, event id, origin and the stored hash itself do not affect it. */
  lemma HashIgnoresOtherFields(p: CapitalProof, q: CapitalProof, sha256: HashPreimage -> Digest)
    requires p.proofId == q.proofId && p.timestamp == q.timestamp
    requires p.content == q.content && p.previousProofHash == q.previousProofHash
    ensures ComputeHash(p, sha256) == ComputeHash(q, sha256)
  {
  }

  /** A missing previous hash and an empty previous hash hash alike. */
  lemma MissingAndEmptyPreviousHashAlike(p: CapitalProof, sha256: HashPreimage -> Digest)
    ensures ComputeHash(p.(previousProofHash := None), sha256)
         == ComputeHash(p.(previousProofHash := Some("")), sha256)
  {
  }

  /** A dictionary built by inserting key/value pairs in order: a later pair
      overrides an earlier one with the same key. */
  function ContentOf(pairs: seq<(string, Scalar)>): Details
  {
    if pairs == [] then map[]
    else ContentOf(pairs[..|pairs| - 1])[pairs[|pairs| - 1].0 := pairs[|pairs| - 1].1]
  }

  predicate DistinctKeys(pairs: seq<(string, Scalar)>)
  {
    forall i, j :: 0 <= i < j < |pairs| ==> pairs[i].0 != pairs[j].0
  }

  /** With distinct keys, the dictionary maps every inserted key to its own
      value and holds nothing else. */
  lemma {:induction false} ContentOfPairs(pairs: seq<(string, Scalar)>)
    requires DistinctKeys(pairs)
    ensures forall k :: k in ContentOf(pairs) <==> exists i :: 0 <= i < |pairs| && pairs[i].0 == k
    ensures forall i :: 0 <= i < |pairs| ==> pairs[i].0 in ContentOf(pairs) && ContentOf(pairs)[pairs[i].0] == pairs[i].1
  {
    if pairs != [] {
      var init := pairs[..|pairs| - 1];
      assert DistinctKeys(init);
      ContentOfPairs(init);
      forall k | k in ContentOf(pairs)
        ensures exists i :: 0 <= i < |pairs| && pairs[i].0 == k
      {
        if k != pairs[|pairs| - 1].0 {
          var i :| 0 <= i < |init| && init[i].0 == k;
          assert pairs[i].0 == k;
        }
      }
    }
  }

  /** The order in which a proof's content keys are inserted does not change
      its hash: two insertion orders of the same distinct-keyed pairs give the
      same content, hence the same hash. */
  lemma InsertionOrderDoesNotChangeHash(pairs1: seq<(string, Scalar)>, pairs2: seq<(string, Scalar)>,
                                        p: CapitalProof, sha256: HashPreimage -> Digest)
    requires DistinctKeys(pairs1) && multiset(pairs1) == multiset(pairs2)
    ensures DistinctKeys(pairs2)
    ensures ComputeHash(p.(content := ContentOf(pairs1)), sha256)
         == ComputeHash(p.(content := ContentOf(pairs2)), sha256)
  {
    forall i, j | 0 <= i < j < |pairs2|
      ensures pairs2[i].0 != pairs2[j].0
    {
      assert pairs2[i] in multiset(pairs1) && pairs2[j] in multiset(pairs1);
      var i' :| 0 <= i' < |pairs1| && pairs1[i'] == pairs2[i];
      var j' :| 0 <= j' < |pairs1| && pairs1[j'] == pairs2[j];
      if pairs2[i].0 == pairs2[j].0 {
        assert i' == j';
        MultiplicityAtLeastTwo(pairs2, i, j);
        MultiplicityAtMostOne(pairs1, i');
        assert false;
      }
    }
    ContentOfPairs(pairs1);
    ContentOfPairs(pairs2);
    var c1, c2 := ContentOf(pairs1), ContentOf(pairs2);
    forall k ensures k in c1 <==> k in c2 {
      if k in c1 {
        var i :| 0 <= i < |pairs1| && pairs1[i].0 == k;
        assert pairs1[i] in multiset(pairs2);
      }
      if k in c2 {
        var i :| 0 <= i < |pairs2| && pairs2[i].0 == k;
        assert pairs2[i] in multiset(pairs1);
      }
    }
    forall k | k in c1 ensures c1[k] == c2[k] {
      var i :| 0 <= i < |pairs1| && pairs1[i].0 == k;
      assert pairs1[i] in multiset(pairs2);
    }
    assert c1 == c2;
  }

  lemma {:induction false} MultiplicityAtLeastTwo<T>(s: seq<T>, i: int, j: int)
    requires 0 <= i < j < |s| && s[i] == s[j]
    ensures multiset(s)[s[i]] >= 2
  {
    assert s == s[..i] + [s[i]] + s[i + 1..j] + [s[j]] + s[j + 1..];
  }

  lemma {:induction false} MultiplicityAtMostOne(pairs: seq<(string, Scalar)>, i: int)
    requires DistinctKeys(pairs) && 0 <= i < |pairs|
    ensures multiset(pairs)[pairs[i]] <= 1
  {
    assert pairs == pairs[..i] + [pairs[i]] + pairs[i + 1..];
    forall k | 0 <= k < i ensures pairs[..i][k] != pairs[i] {
      assert pairs[..i][k] == pairs[k];
    }
    forall k | i + 1 <= k < |pairs| ensures pairs[k] != pairs[i] {
    }
    assert pairs[i] !in pairs[i + 1..];
    assert pairs[i] !in multiset(pairs[..i]);
    assert pairs[i] !in multiset(pairs[i + 1..]);
  }
}
