/** The document in which a completed review is stored, and from which a later
    traversal reads the decision back. */
module DecisionCodec {
  import opened Base
  import Coordinator

  /** Reading casts without checking, so a field may hold any of these; `Absent` is
      the null value. */
  datatype Value = Text(text: string) | Number(number: int) | Absent

  datatype Key =
    | ResearchRun | PortfolioRun | Horizon | Action | DecisionRef | InitialAdoption | ResearchSuccessor
    | OtherKey(name: string)

  type Document = map<Key, Value>

  datatype ContinuousDecision = ContinuousDecision(
    researchRun: Value, portfolioRun: Value, horizon: Value, action: Value, decisionRef: Value,
    initialAdoption: Value, researchSuccessor: Value)

  const ACTIONS: set<string> := {"hold", "open", "increase", "reduce", "close", "rotate"}
  const REQUIRED: set<Key> := {ResearchRun, PortfolioRun, Horizon, Action, DecisionRef}

  /** What Python takes for true. */
  predicate Truthy(v: Value) {
    match v
    case Text(s) => s != ""
    case Number(n) => n != 0
    case Absent => false
  }

  /** What the constructor accepts. */
  predicate Valid(d: ContinuousDecision) {
    && d.horizon.Number? && d.horizon.number in Coordinator.HORIZONS
    && d.action.Text? && d.action.text in ACTIONS
    && Truthy(d.researchRun) && Truthy(d.portfolioRun) && Truthy(d.decisionRef)
  }

  function Optional(key: Key, v: Value): Document {
    if Truthy(v) then map[key := v] else map[]
  }

  function ToDict(d: ContinuousDecision): Document {
    map[ResearchRun := d.researchRun, PortfolioRun := d.portfolioRun, Horizon := d.horizon,
        Action := d.action, DecisionRef := d.decisionRef]
    + Optional(ResearchSuccessor, d.researchSuccessor)
    + Optional(InitialAdoption, d.initialAdoption)
  }

  function Get(doc: Document, key: Key): Value {
    if key in doc then doc[key] else Absent
  }

  /** `None` is a missing key or a refusal by the constructor. */
  function FromDict(doc: Document): Option<ContinuousDecision> {
    if !(REQUIRED <= doc.Keys) then None
    else
      var d := ContinuousDecision(
        doc[ResearchRun], doc[PortfolioRun], doc[Horizon], doc[Action], doc[DecisionRef],
        Get(doc, InitialAdoption), Get(doc, ResearchSuccessor));
      if Valid(d) then Some(d) else None
  }

  // ---- what a stored decision says ---------------------------------------------------------

  /** An optional reference that is there but empty is not written. */
  predicate KeptByWriting(v: Value) {
    v.Absent? || Truthy(v)
  }

  /** The reading of one key of a written document. */
  lemma {:induction false} WrittenKeys(d: ContinuousDecision)
    ensures var doc := ToDict(d);
      && REQUIRED <= doc.Keys <= REQUIRED + {InitialAdoption, ResearchSuccessor}
      && doc[ResearchRun] == d.researchRun && doc[PortfolioRun] == d.portfolioRun && doc[Horizon] == d.horizon
      && doc[Action] == d.action && doc[DecisionRef] == d.decisionRef
      && Get(doc, InitialAdoption) == (if Truthy(d.initialAdoption) then d.initialAdoption else Absent)
      && Get(doc, ResearchSuccessor) == (if Truthy(d.researchSuccessor) then d.researchSuccessor else Absent)
  {
  }

  /** A document is readable exactly when it has the five fields, three of them not empty,
      with a registered horizon and an action of the account. */
  lemma {:induction false} ReadableIff(doc: Document)
    ensures FromDict(doc).Some? <==>
      && ResearchRun in doc && PortfolioRun in doc && DecisionRef in doc && Horizon in doc && Action in doc
      && doc[ResearchRun] !in {Absent, Text(""), Number(0)} && doc[PortfolioRun] !in {Absent, Text(""), Number(0)}
      && doc[DecisionRef] !in {Absent, Text(""), Number(0)}
      && doc[Horizon] in {Number(1), Number(3), Number(5), Number(10), Number(20), Number(60)}
      && doc[Action] in {Text("hold"), Text("open"), Text("increase"), Text("reduce"), Text("close"), Text("rotate")}
  {
  }

  /** A decision read back is the decision written, exactly when neither optional
      reference is present but empty; whatever the references, it is readable. */
  lemma {:induction false} ReplayedDecisionIsTheSame(d: ContinuousDecision)
    requires Valid(d)
    ensures FromDict(ToDict(d)).Some?
    ensures FromDict(ToDict(d)) == Some(d) <==> KeptByWriting(d.initialAdoption) && KeptByWriting(d.researchSuccessor)
  {
    WrittenKeys(d);
  }

  /** Reading forgets nothing that writing would show: a replayed decision is stored,
      and hashed into the episode's configuration, under the same document. */
  lemma {:induction false} ReplayKeepsTheDocument(d: ContinuousDecision)
    requires Valid(d)
    ensures ToDict(FromDict(ToDict(d)).value) == ToDict(d)
  {
    WrittenKeys(d);
    SameDocumentIff(d, FromDict(ToDict(d)).value);
  }

  /** Two decisions share a document exactly when they agree up to empty references. */
  lemma {:induction false} SameDocumentIff(d: ContinuousDecision, e: ContinuousDecision)
    ensures ToDict(d) == ToDict(e) <==>
      && d.researchRun == e.researchRun && d.portfolioRun == e.portfolioRun && d.horizon == e.horizon
      && d.action == e.action && d.decisionRef == e.decisionRef
      && (d.initialAdoption == e.initialAdoption || (!Truthy(d.initialAdoption) && !Truthy(e.initialAdoption)))
      && (d.researchSuccessor == e.researchSuccessor || (!Truthy(d.researchSuccessor) && !Truthy(e.researchSuccessor)))
  {
    WrittenKeys(d);
    WrittenKeys(e);
  }

  /** A document is what the writer makes of the decision read from it exactly when it
      has no foreign key and no empty optional reference. */
  lemma {:induction false} RewrittenDocumentIsTheSame(doc: Document)
    requires FromDict(doc).Some?
    ensures ToDict(FromDict(doc).value) == doc <==>
      && doc.Keys <= REQUIRED + {InitialAdoption, ResearchSuccessor}
      && (forall key :: key in doc && key in {InitialAdoption, ResearchSuccessor} ==> Truthy(doc[key]))
  {
  }

  /** The one family of decisions that a replay hands on changed. */
  lemma {:induction false} EmptyReferenceIsForgotten()
    ensures exists d: ContinuousDecision ::
      Valid(d) && d.initialAdoption == Text("") && FromDict(ToDict(d)) == Some(d.(initialAdoption := Absent))
  {
    var d := ContinuousDecision(Text("r"), Text("p"), Number(1), Text("hold"), Text("d"), Text(""), Absent);
    WrittenKeys(d);
    assert "hold" in ACTIONS;
    assert FromDict(ToDict(d)) == Some(d.(initialAdoption := Absent));
  }
}
