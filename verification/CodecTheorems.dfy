/** The backtest codecs over the canonical decimals: exactly which records survive, and
    two that do not. */
module CodecTheorems {
  import opened Base
  import opened Decimals
  import opened DecimalText
  import opened Codecs
  import opened CodecRoundTrips

  function Standard(hashRequest: HashedRequest -> string, hashResult: HashedResult -> string): Wire {
    Wire(Canonical, DecimalString, hashRequest, hashResult)
  }

  lemma {:induction false} CanonicalIsNotEmpty(d: Decimal)
    ensures Canonical(d) != ""
  {
    assert Magnitude("") == None;
    PrintedTextIsAccepted(d);
  }

  lemma {:induction false} SamePositive(v: Decimal, n: Decimal)
    requires SameValue(v, n) && 0 < Signed(n)
    ensures 0 < Signed(v)
  {
    if v.exponent <= n.exponent {
      SignsAgree(v, n, Pow10(n.exponent - v.exponent));
      MulPositive(n.coefficient, Pow10(n.exponent - v.exponent));
    } else {
      SignsAgree(n, v, Pow10(v.exponent - n.exponent));
    }
  }

  lemma {:induction false} RoundingKeepsPositive(d: Decimal)
    requires 0 < Signed(d)
    ensures 0 < Signed(Normalize(d))
  {
    NormalizedFits(d);
    RoundedIsSmall(d.coefficient);
    var k := Excess(d.coefficient);
    var _ := StripShape(d.negative, RoundHalfEven(d.coefficient, Pow10(k)), d.exponent + k);
  }

  lemma {:induction false} CanonicalWritesLegibly(w: Wire, d: Decimal)
    requires w.write == Canonical && w.parse == DecimalString
    ensures WritesLegibly(w, d)
  {
    CanonicalIsNotEmpty(d);
    PrintedTextIsAccepted(d);
    if 0 < Signed(d) {
      RoundingKeepsPositive(d);
      SamePositive(DecimalString(Canonical(d)).value, Normalize(d));
    }
  }

  lemma {:induction false} StandardIsLawful(w: Wire)
    requires w.write == Canonical && w.parse == DecimalString
    ensures Lawful(w)
  {
    forall d ensures WritesLegibly(w, d) { CanonicalWritesLegibly(w, d); }
    forall raw | w.parse(raw).Some? ensures w.write(w.parse(raw).value) == raw { AcceptsExactlyCanonicalText(raw); }
  }

  lemma {:induction false} SurvivesIffFits(w: Wire, d: Decimal)
    requires w.write == Canonical && w.parse == DecimalString
    ensures Survives(w, d) <==> Fits(d)
  {
    RoundTripIffFits(d);
  }

  predicate MetricsFit(ms: seq<Metric>) {
    forall i :: 0 <= i < |ms| ==> Fits(ms[i].value)
  }

  /** A valid request survives being written and read exactly when its signal and event
      have names, no reference or condition is empty, and its cash has at most 28
      significant digits. */
  lemma {:induction false} RequestRoundTripsExactly(r: BacktestRequest, hr: HashedRequest -> string, hs: HashedResult -> string)
    requires RequestValid(r)
    ensures var w := Standard(hr, hs); var back := RequestFromDict(RequestToDict(r, w), w);
      (back.Ok? && SameRequest(back.value, r)) <==> (SignalNamed(r.signal) && Fits(r.simulation.cash))
  {
    var w := Standard(hr, hs);
    StandardIsLawful(w);
    RequestRoundTrips(r, w);
    SurvivesIffFits(w, r.simulation.cash);
  }

  /** And a valid result exactly when its request does and every metric fits. */
  lemma {:induction false} ResultRoundTripsExactly(r: BacktestResult, hr: HashedRequest -> string, hs: HashedResult -> string)
    requires ResultValid(r, Standard(hr, hs))
    ensures var w := Standard(hr, hs); var back := ResultFromDict(ResultToDict(r, w), w);
      (back.Ok? && SameResult(back.value, r)) <==>
        (SignalNamed(r.manifest.request.signal) && Fits(r.manifest.request.simulation.cash) && MetricsFit(r.metrics))
  {
    var w := Standard(hr, hs);
    StandardIsLawful(w);
    ResultRoundTrips(r, w);
    SurvivesIffFits(w, r.manifest.request.simulation.cash);
    forall i | 0 <= i < |r.metrics| ensures Survives(w, r.metrics[i].value) <==> Fits(r.metrics[i].value) {
      SurvivesIffFits(w, r.metrics[i].value);
    }
  }

  /** Whatever a reader accepts is what the writer makes of the record it returns, so a
      stored document has one spelling. */
  lemma {:induction false} AcceptedDocumentsAreCanonical(
      o: map<Key, Json>, p: map<Key, Json>, hr: HashedRequest -> string, hs: HashedResult -> string)
    ensures var w := Standard(hr, hs);
      && (RequestFromDict(o, w).Ok? ==> RequestToDict(RequestFromDict(o, w).value, w) == o)
      && (ResultFromDict(p, w).Ok? ==> ResultToDict(ResultFromDict(p, w).value, w) == p)
  {
    var w := Standard(hr, hs);
    StandardIsLawful(w);
    if RequestFromDict(o, w).Ok? { RequestReadingIsExact(o, w); }
    if ResultFromDict(p, w).Ok? { ResultReadingIsExact(p, w); }
  }

  // ---- two that do not survive ------------------------------------------------------------------

  function Sample(signalId: string, cash: Decimal): BacktestRequest {
    BacktestRequest(
      "request", SignalIntent(signalId, "event", "XAU", Buy, 0, 10, ["reference"], ["condition"]), 1, 2, 3, "market",
      ["XAU"], "snapshot", "selection", "strategy", [1],
      SimulationSpec("daily", "book", "fill", "fee", "venue", "USD", cash, 0))
  }

  lemma {:induction false} SampleIsValid(signalId: string, cash: Decimal)
    requires 0 < Signed(cash)
    ensures RequestValid(Sample(signalId, cash))
  {
  }

  /** A signal without a name can be built and written, but not read again. */
  lemma {:induction false} NamelessSignalIsLost(hr: HashedRequest -> string, hs: HashedResult -> string)
    ensures var w := Standard(hr, hs); var r := Sample("", Decimal(false, 1, 0));
      RequestValid(r) && RequestFromDict(RequestToDict(r, w), w) == Bad
  {
    var w := Standard(hr, hs);
    SampleIsValid("", Decimal(false, 1, 0));
    StandardIsLawful(w);
    RequestRead(Sample("", Decimal(false, 1, 0)), w);
  }

  /** Cash of 29 significant digits comes back as another amount. */
  lemma {:induction false} LongCashIsRounded(c: nat, hr: HashedRequest -> string, hs: HashedResult -> string)
    requires |DigitsOf(c)| == PRECISION + 1 && c % 10 != 0
    ensures var w := Standard(hr, hs); var r := Sample("signal", Decimal(false, c, 0));
      var back := RequestFromDict(RequestToDict(r, w), w);
      RequestValid(r) && back.Ok? && !SameValue(back.value.simulation.cash, Decimal(false, c, 0))
  {
    var w := Standard(hr, hs);
    var d := Decimal(false, c, 0);
    SampleIsValid("signal", d);
    StandardIsLawful(w);
    RequestRead(Sample("signal", d), w);
    SurvivesIffFits(w, d);
  }
}
