/** The fixed feature order the model was trained on, and `prepare_payload`, which turns a
    payload dict into the model's input vector. */
module Features {
  import opened Wrappers
  import opened Errors
  import opened Values
  import opened Records

  /** `FEATURE_ORDER`: the 18 feature names, in training order. */
  const FeatureOrder: seq<string> := [
    "Age",
    "Annual_Income",
    "Num_Bank_Accounts",
    "Num_Credit_Card",
    "Num_of_Delayed_Payment",
    "Credit_Utilization_Ratio",
    "Payment_of_Min_Amount",
    "Total_EMI_per_month",
    "Credit_History_Age_Formated",
    "Auto_Loan",
    "Credit-Builder_Loan",
    "Personal_Loan",
    "Home_Equity_Loan",
    "Mortgage_Loan",
    "Student_Loan",
    "Debt_Consolidation_Loan",
    "Payday_Loan",
    "Missed_Payment_Day"
  ]

  /** One iteration of the loop in `prepare_payload`: fail on an absent key, otherwise
      normalise the value stored under it. */
  function FeatureStep(p: Parsers, data: Record, k: string): (r: Result<Value, Error>)
    ensures r == Failure(MissingFeature(k)) <==> Lookup(data, k).None?
    ensures Lookup(data, k).Some? ==> r == NormaliseValue(p, Lookup(data, k).value)
  {
    match Lookup(data, k)
    case None => Failure(MissingFeature(k))
    case Some(v) => NormaliseValue(p, v)
  }

  /** The loop of `prepare_payload` over an arbitrary key list: the values of `keys`, in that
      order, each normalised; or the error of the first key whose step fails. */
  function PrepareKeys(p: Parsers, data: Record, keys: seq<string>): (r: Result<seq<Value>, Error>)
    ensures r.Success? <==> forall i :: 0 <= i < |keys| ==> FeatureStep(p, data, keys[i]).Success?
    ensures r.Success? ==>
              && |r.value| == |keys|
              && forall i :: 0 <= i < |keys| ==> FeatureStep(p, data, keys[i]) == Success(r.value[i])
    ensures r.Failure? ==>
              exists i :: && 0 <= i < |keys|
                          && FeatureStep(p, data, keys[i]) == Failure(r.error)
                          && forall j :: 0 <= j < i ==> FeatureStep(p, data, keys[j]).Success?
    ensures r.Failure? ==> r.error.MissingFeature? || r.error.Unparsable?
    ensures r.Failure? && r.error.MissingFeature? ==> r.error.key in keys && Lookup(data, r.error.key).None?
    decreases |keys|
  {
    if |keys| == 0 then Success([])
    else
      var v :- FeatureStep(p, data, keys[0]);
      var rest :- PrepareKeys(p, data, keys[1..]);
      assert forall i :: 1 <= i < |keys| ==> keys[1..][i - 1] == keys[i];
      Success([v] + rest)
  }

  /** `prepare_payload`: the model's input vector for a payload. */
  function PreparePayload(p: Parsers, data: Record): (r: Result<seq<Value>, Error>)
    ensures r.Success? <==>
              forall i :: 0 <= i < |FeatureOrder| ==>
                && Lookup(data, FeatureOrder[i]).Some?
                && NormaliseValue(p, Lookup(data, FeatureOrder[i]).value).Success?
    ensures r.Success? ==>
              && |r.value| == |FeatureOrder| == 18
              && forall i :: 0 <= i < |FeatureOrder| ==>
                   && NormaliseValue(p, Lookup(data, FeatureOrder[i]).value) == Success(r.value[i])
                   && r.value[i].IsNumber()
    ensures r.Failure? && r.error.MissingFeature? ==>
              r.error.key in FeatureOrder && Lookup(data, r.error.key).None?
    ensures r.Failure? ==> r.error.MissingFeature? || r.error.Unparsable?
  {
    PrepareKeys(p, data, FeatureOrder)
  }

  /** The error reported is that of the first feature, in training order, that is absent or
      whose value does not parse; in particular, with every earlier feature present and
      parsable, an absent feature is reported by name. */
  lemma FirstFaultReported(p: Parsers, data: Record, i: nat)
    requires i < |FeatureOrder|
    requires FeatureStep(p, data, FeatureOrder[i]).Failure?
    requires forall j :: 0 <= j < i ==> FeatureStep(p, data, FeatureOrder[j]).Success?
    ensures PreparePayload(p, data) == FeatureStep(p, data, FeatureOrder[i]).PropagateFailure()
    ensures Lookup(data, FeatureOrder[i]).None? ==>
              PreparePayload(p, data) == Failure(MissingFeature(FeatureOrder[i]))
  {
    var r := PreparePayload(p, data);
    var i' :| && 0 <= i' < |FeatureOrder|
              && FeatureStep(p, data, FeatureOrder[i']) == Failure(r.error)
              && forall j :: 0 <= j < i' ==> FeatureStep(p, data, FeatureOrder[j]).Success?;
    assert i' == i;
  }

  /** An empty payload is rejected for its first feature, `Age`. */
  lemma EmptyPayloadMissesAge(p: Parsers)
    ensures PreparePayload(p, []) == Failure(MissingFeature("Age"))
  {
    assert FeatureOrder[0] == "Age";
    assert FeatureStep(p, [], "Age") == Failure(MissingFeature("Age"));
    FirstFaultReported(p, [], 0);
  }

  /** Only the entries of the listed keys matter to `PrepareKeys`. */
  lemma {:induction false} PrepareKeysReadsOnlyKeys(p: Parsers, a: Record, b: Record, keys: seq<string>)
    requires forall i :: 0 <= i < |keys| ==> Lookup(a, keys[i]) == Lookup(b, keys[i])
    ensures PrepareKeys(p, a, keys) == PrepareKeys(p, b, keys)
  {
    if |keys| > 0 {
      assert FeatureStep(p, a, keys[0]) == FeatureStep(p, b, keys[0]);
      PrepareKeysReadsOnlyKeys(p, a, b, keys[1..]);
    }
  }

  /** Adding or changing an entry whose key is not a feature leaves the result, or the error,
      unchanged. */
  lemma ExtraKeyIgnored(p: Parsers, data: Record, k: string, v: Value)
    requires k !in FeatureOrder
    ensures PreparePayload(p, Put(data, k, v)) == PreparePayload(p, data)
  {
    PutLookup(data, k, v);
    PrepareKeysReadsOnlyKeys(p, Put(data, k, v), data, FeatureOrder);
  }

  /** The payload's own key order does not matter: two dicts holding the same pairs give the
      same vector, or the same error. */
  lemma InputOrderIgnored(p: Parsers, a: Record, b: Record)
    requires DistinctKeys(a) && DistinctKeys(b)
    requires multiset(a) == multiset(b)
    ensures PreparePayload(p, a) == PreparePayload(p, b)
  {
    forall i | 0 <= i < |FeatureOrder|
      ensures Lookup(a, FeatureOrder[i]) == Lookup(b, FeatureOrder[i])
    {
      LookupIgnoresOrder(a, b, FeatureOrder[i]);
    }
    PrepareKeysReadsOnlyKeys(p, a, b, FeatureOrder);
  }

  /** A dict whose keys are exactly `keys`, in that order, and whose values are already
      numbers, yields its own values. */
  lemma PrepareKeysPassesThrough(p: Parsers, data: Record, keys: seq<string>)
    requires DistinctKeys(data)
    requires Keys(data) == keys
    requires forall i :: 0 <= i < |data| ==> data[i].1.IsNumber()
    ensures PrepareKeys(p, data, keys) == Success(Vals(data))
  {
    forall i | 0 <= i < |keys|
      ensures FeatureStep(p, data, keys[i]) == Success(data[i].1)
    {
      assert data[i].0 == keys[i];
      PositionUnique(data, keys[i], i);
    }
    var r := PrepareKeys(p, data, keys);
    assert r.value == Vals(data);
  }

  /** A payload that lists exactly the features, in training order, with values that are
      already numbers, is passed to the model as its own values. */
  lemma NumericPayloadPassesThrough(p: Parsers, data: Record)
    requires DistinctKeys(data)
    requires Keys(data) == FeatureOrder
    requires forall i :: 0 <= i < |data| ==> data[i].1.IsNumber()
    ensures PreparePayload(p, data) == Success(Vals(data))
  {
    PrepareKeysPassesThrough(p, data, FeatureOrder);
  }
}
