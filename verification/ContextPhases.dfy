/** Building the context of a case: nine phases that offer facts to one builder. */
module ContextPhases {
  import opened Common
  import opened ContextBuilder

  // ----- what the repositories return -----

  /** A row that becomes one fact, and whether the actor may see it. */
  datatype Row = Row(id: Id, accessible: bool, value: Value)

  /** A document; `readable` tells whether its content could be fetched. */
  datatype DocumentRow = DocumentRow(id: Id, accessible: bool, readable: bool, value: Value)

  datatype ObservationRow = ObservationRow(id: Id, status: string, value: Value)

  /** `None` stands for a failed read. */
  datatype EvidenceRow = EvidenceRow(id: Id, status: string, accessible: bool, value: Value,
                                     documents: Option<seq<DocumentRow>>, observations: Option<seq<ObservationRow>>)

  datatype CaseData = CaseData(
    metadata: Option<Row>,
    person: Option<Row>,               // the linked person, if the case and the person can be read
    evidence: Option<seq<EvidenceRow>>,
    hasDocumentProvider: bool,
    submissions: Option<seq<Row>>,
    evaluations: Option<seq<Row>>,
    instance: Option<Row>,
    history: Option<seq<Row>>,
    decisions: Option<seq<Row>>)       // `None` too if the case cannot be read once more

  datatype Options = Options(
    caseMetadata: bool, person: bool, evidence: bool, verifiedEvidence: bool, documents: bool,
    formSubmissions: bool, ruleEvaluations: bool, workflowHistory: bool, decisions: bool, aiObservations: bool,
    maxTokens: int, maxFacts: int, onlyVerified: bool, onlyHumanVerified: bool)

  // ----- what each phase offers -----

  function ByStatus(status: string, settled: string, otherwise: Provenance): Provenance {
    if status == settled then HumanVerified else otherwise
  }

  function EvidenceOffer(o: Options, e: EvidenceRow): seq<Fact> {
    if (o.verifiedEvidence || o.onlyVerified) && e.status != "VERIFIED" then []
    else if !e.accessible then []
    else [Fact(Evidence, e.id, ByStatus(e.status, "VERIFIED", SourceFact), "evidence", e.value)]
  }

  function EvidenceFacts(o: Options, es: seq<EvidenceRow>): seq<Fact> {
    if es == [] then [] else EvidenceOffer(o, es[0]) + EvidenceFacts(o, es[1..])
  }

  function DocumentOffer(status: string, d: DocumentRow): seq<Fact> {
    if !d.accessible || !d.readable then []
    else [Fact(Document, d.id, ByStatus(status, "VERIFIED", SourceFact), "document", d.value)]
  }

  function DocumentsOf(status: string, ds: seq<DocumentRow>): seq<Fact> {
    if ds == [] then [] else DocumentOffer(status, ds[0]) + DocumentsOf(status, ds[1..])
  }

  function DocumentsOfEvidence(o: Options, e: EvidenceRow): seq<Fact> {
    if (o.onlyVerified && e.status != "VERIFIED") || e.documents.None? then []
    else DocumentsOf(e.status, e.documents.value)
  }

  function DocumentFacts(o: Options, es: seq<EvidenceRow>): seq<Fact> {
    if es == [] then [] else DocumentsOfEvidence(o, es[0]) + DocumentFacts(o, es[1..])
  }

  function ObservationOffer(o: Options, b: ObservationRow): seq<Fact> {
    if o.onlyHumanVerified && b.status != "ACCEPTED" then []
    else [Fact(Observation, b.id, ByStatus(b.status, "ACCEPTED", AIObservation), "ai_observation", b.value)]
  }

  function ObservationsOf(o: Options, bs: seq<ObservationRow>): seq<Fact> {
    if bs == [] then [] else ObservationOffer(o, bs[0]) + ObservationsOf(o, bs[1..])
  }

  function ObservationsOfEvidence(o: Options, e: EvidenceRow): seq<Fact> {
    if e.observations.None? then [] else ObservationsOf(o, e.observations.value)
  }

  function ObservationFacts(o: Options, es: seq<EvidenceRow>): seq<Fact> {
    if es == [] then [] else ObservationsOfEvidence(o, es[0]) + ObservationFacts(o, es[1..])
  }

  function RowOffer(source: Source, provenance: Provenance, key: string, r: Row): seq<Fact> {
    if r.accessible then [Fact(source, r.id, provenance, key, r.value)] else []
  }

  function RowFacts(source: Source, provenance: Provenance, key: string, rows: seq<Row>): seq<Fact> {
    if rows == [] then []
    else RowOffer(source, provenance, key, rows[0]) + RowFacts(source, provenance, key, rows[1..])
  }

  /** Rows of the workflow are offered without an access check. */
  function Visible(r: Row): Row {
    r.(accessible := true)
  }

  function VisibleRows(rows: seq<Row>): seq<Row> {
    if rows == [] then [] else [Visible(rows[0])] + VisibleRows(rows[1..])
  }

  function OrNone<T>(on: bool, rows: Option<seq<T>>): seq<T> {
    if on && rows.Some? then rows.value else []
  }

  /** The offers of the list phases, in the order of the phases. */
  function Offers(o: Options, d: CaseData): seq<seq<Fact>> {
    [EvidenceFacts(o, OrNone(o.evidence || o.verifiedEvidence, d.evidence)),
     DocumentFacts(o, OrNone(o.documents && d.hasDocumentProvider, d.evidence)),
     RowFacts(Form, FormSubmission, "form_submission", OrNone(o.formSubmissions, d.submissions)),
     RowFacts(RuleEvaluation, RuleResult, "rule_evaluation", OrNone(o.ruleEvaluations, d.evaluations)),
     WorkflowFacts(o, d),
     RowFacts(Decision, HumanDecision, "decision", OrNone(o.decisions, d.decisions)),
     ObservationFacts(o, OrNone(o.aiObservations, d.evidence))]
  }

  function WorkflowFacts(o: Options, d: CaseData): seq<Fact> {
    if !o.workflowHistory then []
    else
      (if d.instance.None? then []
       else RowOffer(WorkflowInstance, SourceFact, "workflow_instance", Visible(d.instance.value)))
      + RowFacts(History, WorkflowHistory, "workflow_transition", VisibleRows(OrNone(true, d.history)))
  }

  /** The case itself is not checked again. */
  function Unchecked(r: Option<Row>): Option<Row> {
    if r.None? then None else Some(Visible(r.value))
  }

  function Single(on: bool, r: Option<Row>, source: Source, key: string): seq<Fact> {
    if on && r.Some? && r.value.accessible then [Fact(source, r.value.id, SourceFact, key, r.value.value)] else []
  }

  /** The facts after the first `n` list phases. */
  ghost function PushPhases(limits: Limits, facts: seq<Fact>, offers: seq<seq<Fact>>, n: nat): seq<Fact>
    requires n <= |offers|
  {
    if n == 0 then facts else Push(limits, PushPhases(limits, facts, offers, n - 1), offers[n - 1])
  }

  // ----- the phases -----

  /** Offers one fact. `stop` tells the phase to end: nothing more is taken from its offer. */
  method OfferOne(b: Builder, f: Fact, ghost rest: seq<Fact>) returns (stop: bool)
    requires b.Valid()
    modifies b
    ensures b.Valid()
    ensures Push(b.limits, old(b.facts), [f] + rest) == if stop then b.facts else Push(b.limits, b.facts, rest)
  {
    PushNext(b.limits, b.facts, f, rest);
    var ok := b.AddFact(f);
    stop := !ok;
  }

  method BuildEvidenceFacts(b: Builder, o: Options, d: CaseData)
    requires b.Valid()
    modifies b
    ensures b.Valid()
    ensures b.facts == Push(b.limits, old(b.facts),
                            EvidenceFacts(o, OrNone(o.evidence || o.verifiedEvidence, d.evidence)))
  {
    hide Push, Fits, Total;
    PushNothing(b.limits, b.facts);
    if !o.evidence && !o.verifiedEvidence {
      return;
    }
    if d.evidence.None? {
      return;
    }
    var es := d.evidence.value;
    assert es[0..] == es;
    for i := 0 to |es|
      invariant b.Valid()
      invariant Push(b.limits, old(b.facts), EvidenceFacts(o, es)) == Push(b.limits, b.facts, EvidenceFacts(o, es[i..]))
    {
      var e := es[i];
      ghost var rest := EvidenceFacts(o, es[i + 1..]);
      assert es[i..][1..] == es[i + 1..];
      assert EvidenceOffer(o, e) == [] ==> [] + rest == rest;
      if o.verifiedEvidence && e.status != "VERIFIED" {
        continue;
      }
      if o.onlyVerified && e.status != "VERIFIED" {
        continue;
      }
      if !e.accessible {
        continue;
      }
      var provenance := SourceFact;
      if e.status == "VERIFIED" {
        provenance := HumanVerified;
      }
      var stop := OfferOne(b, Fact(Evidence, e.id, provenance, "evidence", e.value), rest);
      if stop {
        return;
      }
    }
    PushNothing(b.limits, b.facts);
  }

  lemma PushNothing(limits: Limits, facts: seq<Fact>)
    ensures Push(limits, facts, []) == facts
  {
  }

  method BuildDocumentFacts(b: Builder, o: Options, d: CaseData)
    requires b.Valid()
    modifies b
    ensures b.Valid()
    ensures b.facts == Push(b.limits, old(b.facts),
                            DocumentFacts(o, OrNone(o.documents && d.hasDocumentProvider, d.evidence)))
  {
    hide Push, Fits, Total, DocumentOffer, DocumentsOf;
    PushNothing(b.limits, b.facts);
    if !o.documents || !d.hasDocumentProvider {
      return;
    }
    if d.evidence.None? {
      return;
    }
    var es := d.evidence.value;
    assert es[0..] == es;
    for i := 0 to |es|
      invariant b.Valid()
      invariant Push(b.limits, old(b.facts), DocumentFacts(o, es)) == Push(b.limits, b.facts, DocumentFacts(o, es[i..]))
    {
      var e := es[i];
      ghost var later := DocumentFacts(o, es[i + 1..]);
      assert es[i..][1..] == es[i + 1..];
      assert [] + later == later;
      if o.onlyVerified && e.status != "VERIFIED" {
        continue;
      }
      if e.documents.None? {
        continue;
      }
      var stop := BuildDocumentsOf(b, e.status, e.documents.value, later);
      if stop {
        return;
      }
    }
    PushNothing(b.limits, b.facts);
  }

  /** The inner loop of the document phase. */
  method BuildDocumentsOf(b: Builder, status: string, docs: seq<DocumentRow>, ghost later: seq<Fact>)
      returns (stop: bool)
    requires b.Valid()
    modifies b
    ensures b.Valid()
    ensures Push(b.limits, old(b.facts), DocumentsOf(status, docs) + later) ==
            if stop then b.facts else Push(b.limits, b.facts, later)
  {
    hide Push, Fits, Total, DocumentsOf;
    assert docs[0..] == docs;
    assert DocumentsOf(status, []) == [] by { NoDocuments(status); }
    for j := 0 to |docs|
      invariant b.Valid()
      invariant Push(b.limits, old(b.facts), DocumentsOf(status, docs) + later) ==
                Push(b.limits, b.facts, DocumentsOf(status, docs[j..]) + later)
    {
      var doc := docs[j];
      ghost var rest := DocumentsOf(status, docs[j + 1..]) + later;
      DocumentsStep(status, docs, j, later);
      if !doc.accessible {
        assert [] + rest == rest;
        continue;
      }
      if !doc.readable {
        assert [] + rest == rest;
        continue;
      }
      var provenance := SourceFact;
      if status == "VERIFIED" {
        provenance := HumanVerified;
      }
      stop := OfferOne(b, Fact(Document, doc.id, provenance, "document", doc.value), rest);
      if stop {
        return;
      }
    }
    assert docs[|docs|..] == [];
    assert [] + later == later;
    stop := false;
  }

  lemma DocumentsStep(status: string, docs: seq<DocumentRow>, j: nat, later: seq<Fact>)
    requires j < |docs|
    ensures DocumentsOf(status, docs[j..]) + later ==
            DocumentOffer(status, docs[j]) + (DocumentsOf(status, docs[j + 1..]) + later)
  {
    hide DocumentOffer;
    assert docs[j..][1..] == docs[j + 1..];
  }

  lemma NoDocuments(status: string)
    ensures DocumentsOf(status, []) == []
  {
  }

  method BuildObservationFacts(b: Builder, o: Options, d: CaseData)
    requires b.Valid()
    modifies b
    ensures b.Valid()
    ensures b.facts == Push(b.limits, old(b.facts), ObservationFacts(o, OrNone(o.aiObservations, d.evidence)))
  {
    hide Push, Fits, Total, ObservationOffer, ObservationsOf;
    PushNothing(b.limits, b.facts);
    if !o.aiObservations {
      return;
    }
    if d.evidence.None? {
      return;
    }
    var es := d.evidence.value;
    assert es[0..] == es;
    for i := 0 to |es|
      invariant b.Valid()
      invariant Push(b.limits, old(b.facts), ObservationFacts(o, es)) ==
                Push(b.limits, b.facts, ObservationFacts(o, es[i..]))
    {
      var e := es[i];
      ghost var later := ObservationFacts(o, es[i + 1..]);
      assert es[i..][1..] == es[i + 1..];
      assert [] + later == later;
      if e.observations.None? {
        continue;
      }
      var stop := BuildObservationsOf(b, o, e.observations.value, later);
      if stop {
        return;
      }
    }
    PushNothing(b.limits, b.facts);
  }

  /** The inner loop of the observation phase. */
  method BuildObservationsOf(b: Builder, o: Options, obs: seq<ObservationRow>, ghost later: seq<Fact>)
      returns (stop: bool)
    requires b.Valid()
    modifies b
    ensures b.Valid()
    ensures Push(b.limits, old(b.facts), ObservationsOf(o, obs) + later) ==
            if stop then b.facts else Push(b.limits, b.facts, later)
  {
    hide Push, Fits, Total;
    assert obs[0..] == obs;
    for j := 0 to |obs|
      invariant b.Valid()
      invariant Push(b.limits, old(b.facts), ObservationsOf(o, obs) + later) ==
                Push(b.limits, b.facts, ObservationsOf(o, obs[j..]) + later)
    {
      var ob := obs[j];
      ghost var rest := ObservationsOf(o, obs[j + 1..]) + later;
      assert obs[j..][1..] == obs[j + 1..];
      assert ObservationsOf(o, obs[j..]) + later == ObservationOffer(o, ob) + rest;
      if o.onlyHumanVerified && ob.status != "ACCEPTED" {
        assert [] + rest == rest;
        continue;
      }
      var provenance := AIObservation;
      if ob.status == "ACCEPTED" {
        provenance := HumanVerified;
      }
      stop := OfferOne(b, Fact(Observation, ob.id, provenance, "ai_observation", ob.value), rest);
      if stop {
        return;
      }
    }
    assert [] + later == later;
    stop := false;
  }

  /** The loop that the phases for submissions, evaluations, decisions and history share. */
  method BuildRowFacts(b: Builder, on: bool, rows: Option<seq<Row>>, source: Source, provenance: Provenance,
                       key: string)
    requires b.Valid()
    modifies b
    ensures b.Valid()
    ensures b.facts == Push(b.limits, old(b.facts), RowFacts(source, provenance, key, OrNone(on, rows)))
  {
    hide Push, Fits, Total;
    PushNothing(b.limits, b.facts);
    if !on {
      return;
    }
    if rows.None? {
      return;
    }
    var rs := rows.value;
    assert rs[0..] == rs;
    for i := 0 to |rs|
      invariant b.Valid()
      invariant Push(b.limits, old(b.facts), RowFacts(source, provenance, key, rs)) ==
                Push(b.limits, b.facts, RowFacts(source, provenance, key, rs[i..]))
    {
      var r := rs[i];
      ghost var rest := RowFacts(source, provenance, key, rs[i + 1..]);
      assert rs[i..][1..] == rs[i + 1..];
      if !r.accessible {
        assert [] + rest == rest;
        continue;
      }
      var stop := OfferOne(b, Fact(source, r.id, provenance, key, r.value), rest);
      if stop {
        return;
      }
    }
    PushNothing(b.limits, b.facts);
  }

  /** `buildWorkflowFacts`: if the instance does not fit, the history is not offered. */
  method BuildWorkflowFacts(b: Builder, o: Options, d: CaseData)
    requires b.Valid()
    modifies b
    ensures b.Valid()
    ensures b.facts == Push(b.limits, old(b.facts), WorkflowFacts(o, d))
  {
    hide Push, Fits, Total, RowFacts;
    PushNothing(b.limits, b.facts);
    if !o.workflowHistory {
      return;
    }
    var history := VisibleRows(OrNone(true, d.history));
    ghost var rest := RowFacts(History, WorkflowHistory, "workflow_transition", history);
    assert [] + rest == rest;
    if d.instance.Some? {
      var inst := d.instance.value;
      var stop := OfferOne(b, Fact(WorkflowInstance, inst.id, SourceFact, "workflow_instance", inst.value), rest);
      if stop {
        return;
      }
    }
    BuildRowFacts(b, true, Some(history), History, WorkflowHistory, "workflow_transition");
  }

  /** The phases for the case itself and its person: here a fact that does not fit is an error. */
  method BuildSingle(b: Builder, on: bool, r: Option<Row>, source: Source, key: string) returns (ok: bool)
    requires b.Valid()
    modifies b
    ensures b.Valid()
    ensures ok == Fits(b.limits, old(b.facts) + Single(on, r, source, key))
    ensures ok ==> b.facts == old(b.facts) + Single(on, r, source, key)
  {
    assert b.facts + [] == b.facts;
    if !on || r.None? {
      return true;
    }
    if !r.value.accessible {
      return true;
    }
    ok := b.AddFact(Fact(source, r.value.id, SourceFact, key, r.value.value));
  }

  // ----- the whole context -----

  datatype Context = Context(facts: seq<Fact>, tokenEstimate: int)

  /** Facts before the list phases. */
  function Head(o: Options, d: CaseData): seq<Fact> {
    Single(o.caseMetadata, Unchecked(d.metadata), CaseMetadata, "case") + Single(o.person, d.person, Person, "person")
  }

  /** The facts that `BuildContext` ends with, if the head fits. */
  ghost function Collected(o: Options, d: CaseData): seq<Fact> {
    PushPhases(Effective(o.maxTokens, o.maxFacts), Head(o, d), Offers(o, d), |Offers(o, d)|)
  }

  /** `BuildContext`, after the access checks. It fails exactly when the facts of the case and its
      person exceed the budget, there is no fact at all, or the context cannot be saved. */
  method BuildContext(o: Options, d: CaseData, saves: bool) returns (r: Option<Context>)
    ensures var limits := Effective(o.maxTokens, o.maxFacts);
            && (r.Some? <==> Fits(limits, Head(o, d)) && Collected(o, d) != [] && saves)
            && (r.Some? ==>
                  && r.value.facts == Collected(o, d)
                  && r.value.tokenEstimate == Total(r.value.facts) <= limits.maxTokens
                  && 1 <= |r.value.facts| <= limits.maxFacts)
  {
    hide Push, Total, PushPhases, Offers;
    var b := new Builder(o.maxTokens, o.maxFacts);
    var metadata := Single(o.caseMetadata, Unchecked(d.metadata), CaseMetadata, "case");
    var person := Single(o.person, d.person, Person, "person");
    assert b.facts + metadata == metadata;
    HeadFits(b.limits, metadata, person);
    var ok := BuildSingle(b, o.caseMetadata, Unchecked(d.metadata), CaseMetadata, "case");
    if !ok {
      return None;
    }
    ok := BuildSingle(b, o.person, d.person, Person, "person");
    if !ok {
      return None;
    }
    BuildLists(b, o, d);
    if |b.facts| == 0 || !saves {
      return None;
    }
    return Some(Context(b.facts, b.tokenCount));
  }

  /** The list phases in their order. */
  method BuildLists(b: Builder, o: Options, d: CaseData)
    requires b.Valid()
    modifies b
    ensures b.Valid()
    ensures b.facts == PushPhases(b.limits, old(b.facts), Offers(o, d), |Offers(o, d)|)
  {
    hide *;
    ghost var head, offers := b.facts, Offers(o, d);
    OffersInOrder(o, d);
    PhaseStart(b.limits, head, offers);
    BuildEvidenceFacts(b, o, d);
    PhaseStep(b.limits, head, offers, 0, b.facts);
    BuildDocumentFacts(b, o, d);
    PhaseStep(b.limits, head, offers, 1, b.facts);
    BuildRowFacts(b, o.formSubmissions, d.submissions, Form, FormSubmission, "form_submission");
    PhaseStep(b.limits, head, offers, 2, b.facts);
    BuildRowFacts(b, o.ruleEvaluations, d.evaluations, RuleEvaluation, RuleResult, "rule_evaluation");
    PhaseStep(b.limits, head, offers, 3, b.facts);
    BuildWorkflowFacts(b, o, d);
    PhaseStep(b.limits, head, offers, 4, b.facts);
    BuildRowFacts(b, o.decisions, d.decisions, Decision, HumanDecision, "decision");
    PhaseStep(b.limits, head, offers, 5, b.facts);
    BuildObservationFacts(b, o, d);
    PhaseStep(b.limits, head, offers, 6, b.facts);
  }

  lemma OffersInOrder(o: Options, d: CaseData)
    ensures var offers := Offers(o, d);
            && |offers| == 7
            && offers[0] == EvidenceFacts(o, OrNone(o.evidence || o.verifiedEvidence, d.evidence))
            && offers[1] == DocumentFacts(o, OrNone(o.documents && d.hasDocumentProvider, d.evidence))
            && offers[2] == RowFacts(Form, FormSubmission, "form_submission", OrNone(o.formSubmissions, d.submissions))
            && offers[3] == RowFacts(RuleEvaluation, RuleResult, "rule_evaluation",
                                     OrNone(o.ruleEvaluations, d.evaluations))
            && offers[4] == WorkflowFacts(o, d)
            && offers[5] == RowFacts(Decision, HumanDecision, "decision", OrNone(o.decisions, d.decisions))
            && offers[6] == ObservationFacts(o, OrNone(o.aiObservations, d.evidence))
  {
  }

  lemma HeadFits(limits: Limits, a: seq<Fact>, b: seq<Fact>)
    ensures Fits(limits, a + b) ==> Fits(limits, a)
  {
    TotalOfConcat(a, b);
  }

  lemma PhaseStart(limits: Limits, facts: seq<Fact>, offers: seq<seq<Fact>>)
    ensures PushPhases(limits, facts, offers, 0) == facts
  {
  }

  lemma PhaseStep(limits: Limits, facts: seq<Fact>, offers: seq<seq<Fact>>, n: nat, after: seq<Fact>)
    requires n < |offers| && after == Push(limits, PushPhases(limits, facts, offers, n), offers[n])
    ensures PushPhases(limits, facts, offers, n + 1) == after
  {
  }

  lemma {:induction false} PhasesFit(limits: Limits, facts: seq<Fact>, offers: seq<seq<Fact>>, n: nat)
    requires n <= |offers| && Fits(limits, facts)
    ensures Fits(limits, PushPhases(limits, facts, offers, n))
  {
    hide Fits, Push;
    if n > 0 {
      PhasesFit(limits, facts, offers, n - 1);
      var _ := PushIsPrefix(limits, PushPhases(limits, facts, offers, n - 1), offers[n - 1]);
    }
  }

  /** Each list phase contributes exactly the longest prefix of its offer that fits what the
      earlier phases left; a phase that is cut short does not stop the later ones. */
  lemma PhaseTakesLongestPrefix(o: Options, d: CaseData, n: nat) returns (taken: nat)
    requires n < |Offers(o, d)| && Fits(Effective(o.maxTokens, o.maxFacts), Head(o, d))
    ensures var limits, offer := Effective(o.maxTokens, o.maxFacts), Offers(o, d)[n];
            var before := PushPhases(limits, Head(o, d), Offers(o, d), n);
            && taken <= |offer|
            && PushPhases(limits, Head(o, d), Offers(o, d), n + 1) == before + offer[..taken]
            && forall k :: 0 <= k <= |offer| ==> (Fits(limits, before + offer[..k]) <==> k <= taken)
  {
    hide Fits, Push, Offers, Head;
    var limits := Effective(o.maxTokens, o.maxFacts);
    PhasesFit(limits, Head(o, d), Offers(o, d), n);
    taken := PushTakesLongestPrefix(limits, PushPhases(limits, Head(o, d), Offers(o, d), n), Offers(o, d)[n]);
  }

  // ----- where verified facts come from -----

  /** The fact is verified evidence, a document of verified evidence, or an accepted observation. */
  ghost predicate BackedBy(e: EvidenceRow, f: Fact) {
    || (f.source == Evidence && f.sourceId == e.id && e.status == "VERIFIED")
    || (f.source == Document && e.status == "VERIFIED" && e.documents.Some?
        && exists i :: 0 <= i < |e.documents.value| && e.documents.value[i].id == f.sourceId)
    || (f.source == Observation && e.observations.Some?
        && exists i :: 0 <= i < |e.observations.value| && AcceptedAs(e.observations.value[i], f.sourceId))
  }

  predicate AcceptedAs(b: ObservationRow, id: Id) {
    b.id == id && b.status == "ACCEPTED"
  }

  ghost predicate Backed(es: seq<EvidenceRow>, f: Fact) {
    f.provenance == HumanVerified ==> exists i :: 0 <= i < |es| && BackedBy(es[i], f)
  }

  ghost predicate AllBacked(es: seq<EvidenceRow>, facts: seq<Fact>) {
    forall i :: 0 <= i < |facts| ==> Backed(es, facts[i])
  }

  lemma BackedConcat(es: seq<EvidenceRow>, a: seq<Fact>, b: seq<Fact>)
    requires AllBacked(es, a) && AllBacked(es, b)
    ensures AllBacked(es, a + b)
  {
    hide Backed;
  }

  lemma BackedInLonger(e: EvidenceRow, es: seq<EvidenceRow>, facts: seq<Fact>)
    requires AllBacked(es, facts)
    ensures AllBacked([e] + es, facts)
  {
    hide BackedBy;
    forall i | 0 <= i < |facts| && facts[i].provenance == HumanVerified ensures Backed([e] + es, facts[i]) {
      assert Backed(es, facts[i]);
      var k :| 0 <= k < |es| && BackedBy(es[k], facts[i]);
      assert ([e] + es)[k + 1] == es[k];
    }
  }

  lemma BackedByFirst(e: EvidenceRow, es: seq<EvidenceRow>, facts: seq<Fact>)
    requires forall i :: 0 <= i < |facts| && facts[i].provenance == HumanVerified ==> BackedBy(e, facts[i])
    ensures AllBacked([e] + es, facts)
  {
    hide BackedBy;
    assert ([e] + es)[0] == e;
  }

  lemma {:induction false} EvidenceBacked(o: Options, es: seq<EvidenceRow>)
    ensures AllBacked(es, EvidenceFacts(o, es))
  {
    hide AllBacked;
    if es == [] {
      assert AllBacked(es, []) by { NothingToBack(es); }
    } else {
      EvidenceBacked(o, es[1..]);
      BackedByFirst(es[0], es[1..], EvidenceOffer(o, es[0]));
      BackedInLonger(es[0], es[1..], EvidenceFacts(o, es[1..]));
      assert [es[0]] + es[1..] == es;
      BackedConcat(es, EvidenceOffer(o, es[0]), EvidenceFacts(o, es[1..]));
    }
  }

  lemma NothingToBack(es: seq<EvidenceRow>)
    ensures AllBacked(es, [])
  {
  }

  lemma {:induction false} DocumentsComeFromRows(status: string, ds: seq<DocumentRow>, i: nat)
    requires i < |DocumentsOf(status, ds)|
    ensures var f := DocumentsOf(status, ds)[i];
            && f.source == Document && (f.provenance == HumanVerified ==> status == "VERIFIED")
            && exists k :: 0 <= k < |ds| && ds[k].id == f.sourceId
  {
    var n := |DocumentOffer(status, ds[0])|;
    if i < n {
      assert DocumentsOf(status, ds)[i] == DocumentOffer(status, ds[0])[i];
      assert ds[0].id == DocumentsOf(status, ds)[i].sourceId;
    } else {
      DocumentsComeFromRows(status, ds[1..], i - n);
      var f := DocumentsOf(status, ds)[i];
      assert f == DocumentsOf(status, ds[1..])[i - n];
      var k :| 0 <= k < |ds[1..]| && ds[1..][k].id == f.sourceId;
      assert ds[k + 1].id == f.sourceId;
    }
  }

  lemma {:induction false} DocumentsBacked(o: Options, es: seq<EvidenceRow>)
    ensures AllBacked(es, DocumentFacts(o, es))
  {
    hide AllBacked, DocumentsOf;
    if es == [] {
      assert AllBacked(es, []) by { NothingToBack(es); }
    } else {
      var e, offer := es[0], DocumentsOfEvidence(o, es[0]);
      DocumentsBacked(o, es[1..]);
      forall i | 0 <= i < |offer| && offer[i].provenance == HumanVerified ensures BackedBy(e, offer[i]) {
        DocumentsComeFromRows(e.status, e.documents.value, i);
      }
      BackedByFirst(e, es[1..], offer);
      BackedInLonger(e, es[1..], DocumentFacts(o, es[1..]));
      assert [e] + es[1..] == es;
      BackedConcat(es, offer, DocumentFacts(o, es[1..]));
    }
  }

  lemma {:induction false} ObservationsComeFromRows(o: Options, bs: seq<ObservationRow>, i: nat)
    requires i < |ObservationsOf(o, bs)| && ObservationsOf(o, bs)[i].provenance == HumanVerified
    ensures var f := ObservationsOf(o, bs)[i];
            f.source == Observation && exists k :: 0 <= k < |bs| && AcceptedAs(bs[k], f.sourceId)
  {
    var n := |ObservationOffer(o, bs[0])|;
    var f := ObservationsOf(o, bs)[i];
    if i < n {
      assert f == ObservationOffer(o, bs[0])[i];
      assert AcceptedAs(bs[0], f.sourceId);
    } else {
      assert f == ObservationsOf(o, bs[1..])[i - n];
      ObservationsComeFromRows(o, bs[1..], i - n);
      var k :| 0 <= k < |bs[1..]| && AcceptedAs(bs[1..][k], f.sourceId);
      assert AcceptedAs(bs[k + 1], f.sourceId);
    }
  }

  lemma {:induction false} ObservationsBacked(o: Options, es: seq<EvidenceRow>)
    ensures AllBacked(es, ObservationFacts(o, es))
  {
    hide AllBacked, ObservationsOf;
    if es == [] {
      assert AllBacked(es, []) by { NothingToBack(es); }
    } else {
      var e, offer := es[0], ObservationsOfEvidence(o, es[0]);
      ObservationsBacked(o, es[1..]);
      forall i | 0 <= i < |offer| && offer[i].provenance == HumanVerified ensures BackedBy(e, offer[i]) {
        ObservationsComeFromRows(o, e.observations.value, i);
      }
      BackedByFirst(e, es[1..], offer);
      BackedInLonger(e, es[1..], ObservationFacts(o, es[1..]));
      assert [e] + es[1..] == es;
      BackedConcat(es, offer, ObservationFacts(o, es[1..]));
    }
  }

  predicate Unverified(facts: seq<Fact>) {
    forall i :: 0 <= i < |facts| ==> facts[i].provenance != HumanVerified
  }

  lemma {:induction false} RowsUnverified(source: Source, provenance: Provenance, key: string, rows: seq<Row>)
    requires provenance != HumanVerified
    ensures Unverified(RowFacts(source, provenance, key, rows))
  {
    if rows != [] {
      RowsUnverified(source, provenance, key, rows[1..]);
    }
  }

  lemma UnverifiedBacked(es: seq<EvidenceRow>, facts: seq<Fact>)
    requires Unverified(facts)
    ensures AllBacked(es, facts)
  {
  }

  lemma OfferBacked(o: Options, d: CaseData, es: seq<EvidenceRow>, n: nat)
    requires n < |Offers(o, d)| && d.evidence == Some(es)
    ensures AllBacked(es, Offers(o, d)[n])
  {
    hide AllBacked, EvidenceFacts, DocumentFacts, ObservationFacts, RowFacts, Unverified;
    NothingToBack(es);
    EvidenceBacked(o, es);
    DocumentsBacked(o, es);
    ObservationsBacked(o, es);
    NoOffers(o);
    UnverifiedOffer(o, d, n);
    if n in {2, 3, 4, 5} { UnverifiedBacked(es, Offers(o, d)[n]); }
  }

  lemma NoOffers(o: Options)
    ensures EvidenceFacts(o, []) == [] && DocumentFacts(o, []) == [] && ObservationFacts(o, []) == []
  {
  }

  lemma UnverifiedOffer(o: Options, d: CaseData, n: nat)
    requires n < |Offers(o, d)|
    ensures n in {2, 3, 4, 5} || d.evidence.None? ==> Unverified(Offers(o, d)[n])
  {
    hide EvidenceFacts, DocumentFacts, ObservationFacts, RowFacts;
    NoOffers(o);
    RowsUnverified(Form, FormSubmission, "form_submission", OrNone(o.formSubmissions, d.submissions));
    RowsUnverified(RuleEvaluation, RuleResult, "rule_evaluation", OrNone(o.ruleEvaluations, d.evaluations));
    RowsUnverified(History, WorkflowHistory, "workflow_transition", VisibleRows(OrNone(true, d.history)));
    RowsUnverified(Decision, HumanDecision, "decision", OrNone(o.decisions, d.decisions));
  }

  lemma {:induction false} PhasesBacked(limits: Limits, o: Options, d: CaseData, es: seq<EvidenceRow>, n: nat)
    requires n <= |Offers(o, d)| && Fits(limits, Head(o, d))
    requires if d.evidence.Some? then d.evidence.value == es else es == []
    ensures AllBacked(es, PushPhases(limits, Head(o, d), Offers(o, d), n))
  {
    hide Fits, Push, Offers, AllBacked, Unverified;
    if n == 0 {
      UnverifiedBacked(es, Head(o, d)) by { HeadUnverified(o, d); }
    } else {
      var before := PushPhases(limits, Head(o, d), Offers(o, d), n - 1);
      PhasesBacked(limits, o, d, es, n - 1);
      PhasesFit(limits, Head(o, d), Offers(o, d), n - 1);
      var taken := PushIsPrefix(limits, before, Offers(o, d)[n - 1]);
      if d.evidence.Some? {
        OfferBacked(o, d, es, n - 1);
      } else {
        UnverifiedOffer(o, d, n - 1);
        UnverifiedBacked(es, Offers(o, d)[n - 1]);
      }
      BackedPrefix(es, Offers(o, d)[n - 1], taken);
      BackedConcat(es, before, Offers(o, d)[n - 1][..taken]);
    }
  }

  lemma BackedPrefix(es: seq<EvidenceRow>, facts: seq<Fact>, n: nat)
    requires n <= |facts| && AllBacked(es, facts)
    ensures AllBacked(es, facts[..n])
  {
    hide Backed;
  }

  lemma HeadUnverified(o: Options, d: CaseData)
    ensures Unverified(Head(o, d))
  {
  }

  /** Every fact of a context that claims to be verified by a human comes from verified evidence,
      from a document of verified evidence, or from an accepted observation. */
  lemma VerifiedFactsAreBacked(o: Options, d: CaseData)
    requires Fits(Effective(o.maxTokens, o.maxFacts), Head(o, d))
    ensures AllBacked(if d.evidence.Some? then d.evidence.value else [], Collected(o, d))
  {
    hide AllBacked, Offers, Head, Fits, Push;
    PhasesBacked(Effective(o.maxTokens, o.maxFacts), o, d, if d.evidence.Some? then d.evidence.value else [],
                 |Offers(o, d)|);
  }
}
