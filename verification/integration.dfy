/** The attribution adapter: all-or-nothing ingestion of a batch of
    inference-attribution records into a string-keyed store, and lookups
    of the record stored for an asset. */
module Integration {
  import opened Types

  /** A value of an incoming batch: a dictionary of fields, which is
      validated against the attribution schema, or any other scalar,
      which is stored as it is. */
  datatype Value = Record(fields: map<string, Scalar>) | Plain(v: Scalar)

  /** A record that passed the attribution schema. Costs and times are
      numbers; the other three fields are kept as given. */
  datatype Attribution = Attribution(
    assetId: Scalar,
    inferenceCost: real,
    executionTime: real,
    timestamp: Scalar,
    modelVersion: Scalar)

  /** What the adapter stores under a key. */
  datatype Stored = Validated(attribution: Attribution) | Kept(v: Scalar)

  /** The fields the schema requires. */
  predicate HasRequiredFields(f: map<string, Scalar>)
  {
    && "asset_id" in f && "inference_cost" in f && "execution_time" in f
    && "timestamp" in f && "model_version" in f
  }

  /** A scalar read as a number: floats and integers are numbers. */
  function Numeric(s: Scalar): Option<real>
  {
    match s
    case Num(r) => Some(r)
    case Int(i) => Some(i as real)
    case _ => None
  }

  /** The attribution schema: every required field is present, and the
      inference cost and the execution time are numbers above zero. */
  function ParseAttribution(f: map<string, Scalar>): (r: Option<Attribution>)
    ensures r.Some? ==> HasRequiredFields(f)
    ensures r.Some? ==> r.value.inferenceCost > 0.0 && r.value.executionTime > 0.0
    ensures r.Some? ==> Numeric(f["inference_cost"]) == Some(r.value.inferenceCost)
    ensures r.Some? ==> Numeric(f["execution_time"]) == Some(r.value.executionTime)
    ensures r.Some? ==> r.value.assetId == f["asset_id"] && r.value.timestamp == f["timestamp"]
    ensures r.Some? ==> r.value.modelVersion == f["model_version"]
  {
    if !HasRequiredFields(f) then None
    else match (Numeric(f["inference_cost"]), Numeric(f["execution_time"]))
      case (Some(cost), Some(time)) =>
        if cost > 0.0 && time > 0.0
        then Some(Attribution(f["asset_id"], cost, time, f["timestamp"], f["model_version"]))
        else None
      case _ => None
  }

  /** The schema accepts exactly the records with every required field and
      a positive numeric cost and time. */
  lemma ParseAttributionAccepts(f: map<string, Scalar>)
    ensures ParseAttribution(f).Some? <==>
      && HasRequiredFields(f)
      && Numeric(f["inference_cost"]).Some? && Numeric(f["inference_cost"]).value > 0.0
      && Numeric(f["execution_time"]).Some? && Numeric(f["execution_time"]).value > 0.0
  {
  }

  /** One batch value as the loop body treats it: a dictionary is
      validated, anything else is kept unchanged. */
  function Validate(v: Value): (r: Option<Stored>)
    ensures v.Plain? ==> r == Some(Kept(v.v))
    ensures v.Record? ==> (r.Some? <==> ParseAttribution(v.fields).Some?)
    ensures r.Some? && r.value.Validated? ==>
      r.value.attribution.inferenceCost > 0.0 && r.value.attribution.executionTime > 0.0
  {
    match v
    case Plain(x) => Some(Kept(x))
    case Record(f) =>
      match ParseAttribution(f)
      case Some(a) => Some(Validated(a))
      case None => None
  }

  /** The batch validated in order: the first value that fails rejects the
      whole batch under its key; otherwise every key maps to its validated
      value, a later occurrence of a key replacing an earlier one. */
  function ValidateBatch(items: seq<(string, Value)>): Result<map<string, Stored>>
  {
    if items == [] then Success(map[])
    else
      var last := items[|items| - 1];
      match ValidateBatch(items[..|items| - 1])
      case Failure(e) => Failure(e)
      case Success(m) =>
        match Validate(last.1)
        case None => Failure(InvalidAttribution(last.0))
        case Some(v) => Success(m[last.0 := v])
  }

  /** The position of the first value that fails validation, or the batch
      length when all pass. */
  function FirstInvalid(items: seq<(string, Value)>): (k: nat)
    ensures k <= |items|
    ensures forall i :: 0 <= i < k ==> Validate(items[i].1).Some?
    ensures k < |items| ==> Validate(items[k].1).None?
  {
    if items == [] then 0
    else
      var k := FirstInvalid(items[..|items| - 1]);
      if k < |items| - 1 then k
      else if Validate(items[|items| - 1].1).None? then |items| - 1
      else |items|
  }

  /** A batch is rejected exactly when one of its values fails, and then
      under the key of the first value that fails. */
  lemma {:induction false} BatchRejectsFirstInvalid(items: seq<(string, Value)>)
    ensures var k := FirstInvalid(items);
      && (k < |items| ==> ValidateBatch(items) == Failure(InvalidAttribution(items[k].0)))
      && (k == |items| ==> ValidateBatch(items).Success?)
  {
    if items != [] {
      var init := items[..|items| - 1];
      BatchRejectsFirstInvalid(init);
      if FirstInvalid(init) < |init| {
        assert items[FirstInvalid(init)] == init[FirstInvalid(init)];
      }
    }
  }

  /** A rejected prefix rejects the whole batch with the same error: the
      loop may stop at the first failure. */
  lemma {:induction false} RejectedPrefixRejects(items: seq<(string, Value)>, i: nat)
    requires i <= |items| && ValidateBatch(items[..i]).Failure?
    ensures ValidateBatch(items) == ValidateBatch(items[..i])
  {
    if i < |items| {
      assert items[..|items| - 1][..i] == items[..i];
      RejectedPrefixRejects(items[..|items| - 1], i);
    } else {
      assert items[..i] == items;
    }
  }

  /** An accepted batch stores exactly its keys. */
  lemma {:induction false} AcceptedBatchKeys(items: seq<(string, Value)>)
    requires ValidateBatch(items).Success?
    ensures forall key :: key in ValidateBatch(items).value <==> exists i :: 0 <= i < |items| && items[i].0 == key
  {
    if items != [] {
      var init := items[..|items| - 1];
      var last := items[|items| - 1];
      AcceptedBatchKeys(init);
      var m := ValidateBatch(items).value;
      forall key | key in m ensures exists i :: 0 <= i < |items| && items[i].0 == key {
        if key != last.0 {
          var i :| 0 <= i < |init| && init[i].0 == key;
          assert items[i].0 == key;
        }
      }
      forall key | exists i :: 0 <= i < |items| && items[i].0 == key ensures key in m {
        var i :| 0 <= i < |items| && items[i].0 == key;
        if i < |init| {
          assert init[i].0 == key;
        }
      }
    }
  }

  /** In an accepted batch, each key holds the validated value of its last
      occurrence. */
  lemma {:induction false} AcceptedBatchValues(items: seq<(string, Value)>)
    requires ValidateBatch(items).Success?
    ensures forall i :: 0 <= i < |items| && (forall j :: i < j < |items| ==> items[j].0 != items[i].0) ==>
      && items[i].0 in ValidateBatch(items).value
      && Some(ValidateBatch(items).value[items[i].0]) == Validate(items[i].1)
  {
    if items != [] {
      var init := items[..|items| - 1];
      AcceptedBatchValues(init);
      forall i | 0 <= i < |init| && (forall j :: i < j < |items| ==> items[j].0 != items[i].0)
        ensures items[i].0 in ValidateBatch(init).value
        ensures Some(ValidateBatch(init).value[items[i].0]) == Validate(items[i].1)
      {
        assert init[i] == items[i];
        assert forall j :: i < j < |init| ==> init[j] == items[j];
      }
    }
  }

  /** Every record an accepted batch stores passed the schema's bounds. */
  lemma {:induction false} AcceptedBatchBounds(items: seq<(string, Value)>)
    requires ValidateBatch(items).Success?
    ensures var m := ValidateBatch(items).value;
      forall key :: key in m && m[key].Validated? ==>
        m[key].attribution.inferenceCost > 0.0 && m[key].attribution.executionTime > 0.0
  {
    if items != [] {
      AcceptedBatchBounds(items[..|items| - 1]);
    }
  }

  /** Python truthiness of a stored value: a validated record is always
      true; null, the empty string and zero are false. */
  predicate Truthy(s: Stored)
  {
    match s
    case Validated(_) => true
    case Kept(Null) => false
    case Kept(Str(t)) => t != ""
    case Kept(Num(r)) => r != 0.0
    case Kept(Int(i)) => i != 0
    case Kept(When(_)) => true
    case Kept(Uid(_)) => true
  }

  /** Merging an accepted batch into a store (`dict.update`): each batch key
      then holds the value of its last occurrence in the batch, and keys
      outside the batch keep their values. */
  lemma MergeAcceptedBatch(data: map<string, Stored>, items: seq<(string, Value)>)
    requires ValidateBatch(items).Success?
    ensures var d := data + ValidateBatch(items).value;
      forall i :: 0 <= i < |items| && (forall j :: i < j < |items| ==> items[j].0 != items[i].0) ==>
        items[i].0 in d && Some(d[items[i].0]) == Validate(items[i].1)
    ensures var d := data + ValidateBatch(items).value;
      forall key :: (forall i :: 0 <= i < |items| ==> items[i].0 != key) ==>
        (key in d <==> key in data) && (key in data ==> d[key] == data[key])
  {
    AcceptedBatchValues(items);
    AcceptedBatchKeys(items);
  }

  /** After an accepted batch is merged, a record it carried under a key
      (as that key's last occurrence) reads as true. */
  lemma MergedRecordIsTrue(data: map<string, Stored>, items: seq<(string, Value)>, i: nat)
    requires ValidateBatch(items).Success?
    requires i < |items| && items[i].1.Record?
    requires forall j :: i < j < |items| ==> items[j].0 != items[i].0
    ensures var d := data + ValidateBatch(items).value;
      items[i].0 in d && d[items[i].0].Validated? && Truthy(d[items[i].0])
  {
    MergeAcceptedBatch(data, items);
  }

  class IntegrationAdapter {
    /** The attribution store, keyed by the string form of an asset id. */
    var icaeData: map<string, Stored>
    /** How an asset id is written as a key (`str` of a UUID). */
    const render: Id -> string

    constructor(render: Id -> string)
      ensures icaeData == map[] && this.render == render
    {
      icaeData := map[];
      this.render := render;
    }

    /** `consume_icae_attribution`: validates the batch in order; the first
        value that fails rejects it and leaves the store unchanged;
        otherwise the validated batch is merged into the store. */
    method ConsumeIcaeAttribution(data: seq<(string, Value)>) returns (r: Outcome)
      modifies this
      ensures ValidateBatch(data).Failure? ==> r == Fail(ValidateBatch(data).error) && icaeData == old(icaeData)
      ensures ValidateBatch(data).Success? ==> r == Pass && icaeData == old(icaeData) + ValidateBatch(data).value
    {
      var validated := map[];
      var i := 0;
      while i < |data|
        invariant i <= |data|
        invariant ValidateBatch(data[..i]) == Success(validated)
      {
        var (key, value) := data[i];
        assert data[..i + 1][..i] == data[..i];
        match Validate(value)
        case None =>
          RejectedPrefixRejects(data, i + 1);
          return Fail(InvalidAttribution(key));
        case Some(v) =>
          validated := validated[key := v];
        i := i + 1;
      }
      assert data[..i] == data;
      icaeData := icaeData + validated;
      r := Pass;
    }

    /** `validate_attribution`: true exactly when a value is stored under
        the asset's key and it is true in Python's sense; the execution
        details play no part. */
    function ValidateAttribution(assetId: Id, executionDetails: Details): (r: bool)
      reads this
      ensures r <==> render(assetId) in icaeData && Truthy(icaeData[render(assetId)])
    {
      var key := render(assetId);
      key in icaeData && Truthy(icaeData[key])
    }

    /** `get_execution_attribution`: the value stored under the asset's key,
        or none. */
    function GetExecutionAttribution(assetId: Id): (r: Option<Stored>)
      reads this
      ensures r.Some? <==> render(assetId) in icaeData
      ensures r.Some? ==> r.value == icaeData[render(assetId)]
    {
      var key := render(assetId);
      if key in icaeData then Some(icaeData[key]) else None
    }
  }
}
