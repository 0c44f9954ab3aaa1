/** What the phases of a context offer, row by row, and what the options promise about it. */
module ContextMeanings {
  import opened Common
  import opened ContextBuilder
  import opened ContextPhases

  // ----- every phase takes its rows one after the other -----

  lemma {:induction false} EvidenceInOrder(o: Options, a: seq<EvidenceRow>, b: seq<EvidenceRow>)
    ensures EvidenceFacts(o, a + b) == EvidenceFacts(o, a) + EvidenceFacts(o, b)
  {
    hide EvidenceOffer;
    if a == [] {
      assert a + b == b && [] + EvidenceFacts(o, b) == EvidenceFacts(o, b);
    } else {
      EvidenceInOrder(o, a[1..], b);
      assert (a + b)[1..] == a[1..] + b;
      Associate(EvidenceOffer(o, a[0]), EvidenceFacts(o, a[1..]), EvidenceFacts(o, b));
    }
  }

  lemma Associate(a: seq<Fact>, b: seq<Fact>, c: seq<Fact>)
    ensures a + (b + c) == a + b + c
  {
  }

  lemma {:induction false} DocumentsInOrder(o: Options, a: seq<EvidenceRow>, b: seq<EvidenceRow>)
    ensures DocumentFacts(o, a + b) == DocumentFacts(o, a) + DocumentFacts(o, b)
  {
    hide DocumentsOfEvidence;
    if a == [] {
      assert a + b == b && [] + DocumentFacts(o, b) == DocumentFacts(o, b);
    } else {
      DocumentsInOrder(o, a[1..], b);
      assert (a + b)[1..] == a[1..] + b;
      Associate(DocumentsOfEvidence(o, a[0]), DocumentFacts(o, a[1..]), DocumentFacts(o, b));
    }
  }

  lemma {:induction false} DocumentRowsInOrder(status: string, a: seq<DocumentRow>, b: seq<DocumentRow>)
    ensures DocumentsOf(status, a + b) == DocumentsOf(status, a) + DocumentsOf(status, b)
  {
    hide DocumentOffer;
    if a == [] {
      assert a + b == b && [] + DocumentsOf(status, b) == DocumentsOf(status, b);
    } else {
      DocumentRowsInOrder(status, a[1..], b);
      assert (a + b)[1..] == a[1..] + b;
      Associate(DocumentOffer(status, a[0]), DocumentsOf(status, a[1..]), DocumentsOf(status, b));
    }
  }

  lemma {:induction false} ObservationsInOrder(o: Options, a: seq<EvidenceRow>, b: seq<EvidenceRow>)
    ensures ObservationFacts(o, a + b) == ObservationFacts(o, a) + ObservationFacts(o, b)
  {
    hide ObservationsOfEvidence;
    if a == [] {
      assert a + b == b && [] + ObservationFacts(o, b) == ObservationFacts(o, b);
    } else {
      ObservationsInOrder(o, a[1..], b);
      assert (a + b)[1..] == a[1..] + b;
      Associate(ObservationsOfEvidence(o, a[0]), ObservationFacts(o, a[1..]), ObservationFacts(o, b));
    }
  }

  lemma {:induction false} ObservationRowsInOrder(o: Options, a: seq<ObservationRow>, b: seq<ObservationRow>)
    ensures ObservationsOf(o, a + b) == ObservationsOf(o, a) + ObservationsOf(o, b)
  {
    hide ObservationOffer;
    if a == [] {
      assert a + b == b && [] + ObservationsOf(o, b) == ObservationsOf(o, b);
    } else {
      ObservationRowsInOrder(o, a[1..], b);
      assert (a + b)[1..] == a[1..] + b;
      Associate(ObservationOffer(o, a[0]), ObservationsOf(o, a[1..]), ObservationsOf(o, b));
    }
  }

  lemma {:induction false} RowsInOrder(source: Source, provenance: Provenance, key: string, a: seq<Row>, b: seq<Row>)
    ensures RowFacts(source, provenance, key, a + b) ==
            RowFacts(source, provenance, key, a) + RowFacts(source, provenance, key, b)
  {
    hide RowOffer;
    if a == [] {
      assert a + b == b;
      assert [] + RowFacts(source, provenance, key, b) == RowFacts(source, provenance, key, b);
    } else {
      RowsInOrder(source, provenance, key, a[1..], b);
      assert (a + b)[1..] == a[1..] + b;
      Associate(RowOffer(source, provenance, key, a[0]), RowFacts(source, provenance, key, a[1..]),
                RowFacts(source, provenance, key, b));
    }
  }

  /** One piece of evidence is offered exactly if the actor may see it and it is verified or need not
      be; it counts as verified by a human exactly if its status says so. */
  lemma OneEvidence(o: Options, e: EvidenceRow)
    ensures EvidenceFacts(o, [e]) ==
            if !e.accessible || ((o.verifiedEvidence || o.onlyVerified) && e.status != "VERIFIED") then []
            else [Fact(Evidence, e.id, if e.status == "VERIFIED" then HumanVerified else SourceFact, "evidence",
                       e.value)]
  {
    assert [e][1..] == [];
  }

  /** A document is offered exactly if its evidence is verified or need not be, the actor may see it,
      and its content can be read; it counts as its evidence does. */
  lemma OneDocument(o: Options, e: EvidenceRow, d: DocumentRow)
    requires e.documents == Some([d])
    ensures DocumentFacts(o, [e]) ==
            if !d.accessible || !d.readable || (o.onlyVerified && e.status != "VERIFIED") then []
            else [Fact(Document, d.id, if e.status == "VERIFIED" then HumanVerified else SourceFact, "document",
                       d.value)]
  {
    assert [e][1..] == [] && [d][1..] == [];
    assert DocumentsOf(e.status, [d]) == DocumentOffer(e.status, d) + [];
  }

  /** An observation is offered exactly if it is accepted or need not be; it counts as verified by a
      human exactly if it is accepted. */
  lemma OneObservation(o: Options, e: EvidenceRow, b: ObservationRow)
    requires e.observations == Some([b])
    ensures ObservationFacts(o, [e]) ==
            if o.onlyHumanVerified && b.status != "ACCEPTED" then []
            else [Fact(Observation, b.id, if b.status == "ACCEPTED" then HumanVerified else AIObservation,
                       "ai_observation", b.value)]
  {
    assert [e][1..] == [] && [b][1..] == [];
    assert ObservationsOf(o, [b]) == ObservationOffer(o, b) + [];
  }

  /** Evidence whose documents or observations cannot be read offers none. */
  lemma NothingRead(o: Options, e: EvidenceRow)
    ensures e.documents.None? ==> DocumentFacts(o, [e]) == []
    ensures e.observations.None? ==> ObservationFacts(o, [e]) == []
    ensures EvidenceFacts(o, []) == DocumentFacts(o, []) == ObservationFacts(o, []) == []
  {
    assert [e][1..] == [];
  }

  /** Another row is offered exactly if the actor may see it. */
  lemma OneRow(source: Source, provenance: Provenance, key: string, r: Row)
    ensures RowFacts(source, provenance, key, [r]) ==
            if r.accessible then [Fact(source, r.id, provenance, key, r.value)] else []
  {
    assert [r][1..] == [];
  }

  /** The case is offered if it is asked for and can be read, the person if besides the actor may see
      it. */
  lemma HeadIs(o: Options, d: CaseData)
    ensures Head(o, d) ==
            (if o.caseMetadata && d.metadata.Some? then
               [Fact(CaseMetadata, d.metadata.value.id, SourceFact, "case", d.metadata.value.value)]
             else [])
            + (if o.person && d.person.Some? && d.person.value.accessible then
                 [Fact(Person, d.person.value.id, SourceFact, "person", d.person.value.value)]
               else [])
  {
  }

  lemma {:induction false} HistoryIs(rows: seq<Row>)
    ensures var facts := RowFacts(History, WorkflowHistory, "workflow_transition", VisibleRows(rows));
            |facts| == |rows| && forall k :: 0 <= k < |rows| ==>
              facts[k] == Fact(History, rows[k].id, WorkflowHistory, "workflow_transition", rows[k].value)
  {
    if rows != [] {
      HistoryIs(rows[1..]);
      assert VisibleRows(rows)[1..] == VisibleRows(rows[1..]) && VisibleRows(rows)[0] == Visible(rows[0]);
    }
  }

  /** The workflow phase offers the instance, if there is one, and then every entry of the history. */
  lemma WorkflowIs(o: Options, d: CaseData)
    ensures !o.workflowHistory ==> WorkflowFacts(o, d) == []
    ensures o.workflowHistory ==>
              var facts := WorkflowFacts(o, d);
              var n := if d.instance.Some? then 1 else 0;
              var rows := if d.history.Some? then d.history.value else [];
              && |facts| == n + |rows|
              && (d.instance.Some? ==>
                    facts[0] == Fact(WorkflowInstance, d.instance.value.id, SourceFact, "workflow_instance",
                                     d.instance.value.value))
              && forall k :: 0 <= k < |rows| ==>
                   facts[n + k] == Fact(History, rows[k].id, WorkflowHistory, "workflow_transition", rows[k].value)
  {
    hide RowFacts, VisibleRows;
    HistoryIs(if d.history.Some? then d.history.value else []);
  }

  /** The limits of a context: 8000 tokens and 200 facts unless positive ones are given. */
  lemma LimitsAre(maxTokens: int, maxFacts: int)
    ensures Effective(maxTokens, maxFacts).maxTokens == if maxTokens >= 1 then maxTokens else 8000
    ensures Effective(maxTokens, maxFacts).maxFacts == if maxFacts >= 1 then maxFacts else 200
  {
  }

  // ----- only verified facts -----

  /** The fact comes from verified evidence and is marked so. */
  ghost predicate FromVerified(es: seq<EvidenceRow>, f: Fact) {
    f.provenance == HumanVerified && exists k :: 0 <= k < |es| && es[k].status == "VERIFIED" && Holds(es[k], f)
  }

  ghost predicate Holds(e: EvidenceRow, f: Fact) {
    || (f.source == Evidence && f.sourceId == e.id && f.value == e.value)
    || (f.source == Document && e.documents.Some?
        && exists i :: 0 <= i < |e.documents.value| && IsDocument(e.documents.value[i], f))
  }

  predicate IsDocument(d: DocumentRow, f: Fact) {
    d.id == f.sourceId && d.value == f.value
  }

  /** What the two options for verified facts promise of one fact. */
  ghost predicate AsAsked(o: Options, es: seq<EvidenceRow>, f: Fact) {
    && (o.onlyVerified && (f.source == Evidence || f.source == Document) ==> FromVerified(es, f))
    && (o.onlyHumanVerified && f.source == Observation ==> f.provenance == HumanVerified)
  }

  ghost predicate AllAsAsked(o: Options, es: seq<EvidenceRow>, facts: seq<Fact>) {
    forall i :: 0 <= i < |facts| ==> AsAsked(o, es, facts[i])
  }

  lemma {:induction false} EvidenceAsAsked(o: Options, es: seq<EvidenceRow>, i: nat)
    requires i < |EvidenceFacts(o, es)|
    ensures EvidenceFacts(o, es)[i].source == Evidence
    ensures o.onlyVerified ==> FromVerified(es, EvidenceFacts(o, es)[i])
  {
    var offer, all := EvidenceOffer(o, es[0]), EvidenceFacts(o, es);
    if i < |offer| {
      assert all[i] == offer[i] && Holds(es[0], all[i]);
    } else {
      EvidenceAsAsked(o, es[1..], i - |offer|);
      assert all[i] == EvidenceFacts(o, es[1..])[i - |offer|];
      if o.onlyVerified { VerifiedInTail(es, all[i]); }
    }
  }

  lemma VerifiedInTail(es: seq<EvidenceRow>, f: Fact)
    requires es != [] && FromVerified(es[1..], f)
    ensures FromVerified(es, f)
  {
    hide Holds;
    var k :| 0 <= k < |es[1..]| && es[1..][k].status == "VERIFIED" && Holds(es[1..][k], f);
    assert es[k + 1].status == "VERIFIED" && Holds(es[k + 1], f);
  }

  lemma {:induction false} DocumentsFrom(status: string, ds: seq<DocumentRow>, i: nat)
    requires i < |DocumentsOf(status, ds)|
    ensures var f := DocumentsOf(status, ds)[i];
            && f.source == Document && (status == "VERIFIED" ==> f.provenance == HumanVerified)
            && exists k :: 0 <= k < |ds| && IsDocument(ds[k], f)
  {
    var offer, all := DocumentOffer(status, ds[0]), DocumentsOf(status, ds);
    if i < |offer| {
      assert all[i] == offer[i] && IsDocument(ds[0], all[i]);
    } else {
      DocumentsFrom(status, ds[1..], i - |offer|);
      assert all[i] == DocumentsOf(status, ds[1..])[i - |offer|];
      var k :| 0 <= k < |ds[1..]| && IsDocument(ds[1..][k], all[i]);
      assert IsDocument(ds[k + 1], all[i]);
    }
  }

  lemma {:induction false} DocumentsAsAsked(o: Options, es: seq<EvidenceRow>, i: nat)
    requires i < |DocumentFacts(o, es)|
    ensures DocumentFacts(o, es)[i].source == Document
    ensures o.onlyVerified ==> FromVerified(es, DocumentFacts(o, es)[i])
  {
    hide DocumentsOf;
    var offer, all := DocumentsOfEvidence(o, es[0]), DocumentFacts(o, es);
    if i < |offer| {
      DocumentsFrom(es[0].status, es[0].documents.value, i);
      assert all[i] == offer[i] && Holds(es[0], all[i]);
    } else {
      DocumentsAsAsked(o, es[1..], i - |offer|);
      assert all[i] == DocumentFacts(o, es[1..])[i - |offer|];
      if o.onlyVerified { VerifiedInTail(es, all[i]); }
    }
  }

  lemma {:induction false} ObservationRowsAsAsked(o: Options, bs: seq<ObservationRow>, i: nat)
    requires i < |ObservationsOf(o, bs)|
    ensures ObservationsOf(o, bs)[i].source == Observation
    ensures o.onlyHumanVerified ==> ObservationsOf(o, bs)[i].provenance == HumanVerified
  {
    var offer := ObservationOffer(o, bs[0]);
    if i >= |offer| {
      ObservationRowsAsAsked(o, bs[1..], i - |offer|);
    }
  }

  lemma {:induction false} ObservationsAsAsked(o: Options, es: seq<EvidenceRow>, i: nat)
    requires i < |ObservationFacts(o, es)|
    ensures ObservationFacts(o, es)[i].source == Observation
    ensures o.onlyHumanVerified ==> ObservationFacts(o, es)[i].provenance == HumanVerified
  {
    hide ObservationsOf;
    var offer := ObservationsOfEvidence(o, es[0]);
    if i < |offer| {
      ObservationRowsAsAsked(o, es[0].observations.value, i);
    } else {
      ObservationsAsAsked(o, es[1..], i - |offer|);
    }
  }

  lemma {:induction false} RowsHaveSource(source: Source, provenance: Provenance, key: string, rows: seq<Row>, i: nat)
    requires i < |RowFacts(source, provenance, key, rows)|
    ensures RowFacts(source, provenance, key, rows)[i].source == source
  {
    var offer := RowOffer(source, provenance, key, rows[0]);
    if i >= |offer| {
      RowsHaveSource(source, provenance, key, rows[1..], i - |offer|);
    }
  }

  lemma RowsAsAsked(o: Options, es: seq<EvidenceRow>, source: Source, provenance: Provenance, key: string,
                    rows: seq<Row>)
    requires source !in {Evidence, Document, Observation}
    ensures AllAsAsked(o, es, RowFacts(source, provenance, key, rows))
  {
    hide RowFacts, FromVerified;
    forall i | 0 <= i < |RowFacts(source, provenance, key, rows)|
      ensures AsAsked(o, es, RowFacts(source, provenance, key, rows)[i])
    {
      RowsHaveSource(source, provenance, key, rows, i);
    }
  }

  lemma OfferAsAsked(o: Options, d: CaseData, es: seq<EvidenceRow>, n: nat)
    requires n < 7 && es == (if d.evidence.Some? then d.evidence.value else [])
    ensures |Offers(o, d)| == 7 && AllAsAsked(o, es, Offers(o, d)[n])
  {
    hide EvidenceFacts, DocumentFacts, ObservationFacts, RowFacts, VisibleRows, FromVerified;
    OffersInOrder(o, d);
    NoOffers(o);
    if n == 0 {
      forall i | 0 <= i < |Offers(o, d)[0]| ensures AsAsked(o, es, Offers(o, d)[0][i]) { EvidenceAsAsked(o, es, i); }
    } else if n == 1 {
      forall i | 0 <= i < |Offers(o, d)[1]| ensures AsAsked(o, es, Offers(o, d)[1][i]) { DocumentsAsAsked(o, es, i); }
    } else if n == 6 {
      forall i | 0 <= i < |Offers(o, d)[6]| ensures AsAsked(o, es, Offers(o, d)[6][i]) {
        ObservationsAsAsked(o, es, i);
      }
    } else {
      RowsAsAsked(o, es, Form, FormSubmission, "form_submission", OrNone(o.formSubmissions, d.submissions));
      RowsAsAsked(o, es, RuleEvaluation, RuleResult, "rule_evaluation", OrNone(o.ruleEvaluations, d.evaluations));
      RowsAsAsked(o, es, Decision, HumanDecision, "decision", OrNone(o.decisions, d.decisions));
      RowsAsAsked(o, es, History, WorkflowHistory, "workflow_transition", VisibleRows(OrNone(true, d.history)));
    }
  }

  lemma {:induction false} PhasesAsAsked(limits: Limits, o: Options, d: CaseData, es: seq<EvidenceRow>, n: nat)
    requires n <= 7 && Fits(limits, Head(o, d)) && es == (if d.evidence.Some? then d.evidence.value else [])
    ensures |Offers(o, d)| == 7 && AllAsAsked(o, es, PushPhases(limits, Head(o, d), Offers(o, d), n))
  {
    hide Fits, Push, Offers, AsAsked;
    if n == 0 {
      OfferAsAsked(o, d, es, 0);
      assert AllAsAsked(o, es, Head(o, d)) by { HeadAsAsked(o, d, es); }
    } else {
      OfferAsAsked(o, d, es, n - 1);
      var before := PushPhases(limits, Head(o, d), Offers(o, d), n - 1);
      PhasesAsAsked(limits, o, d, es, n - 1);
      PhasesFit(limits, Head(o, d), Offers(o, d), n - 1);
      var taken := PushIsPrefix(limits, before, Offers(o, d)[n - 1]);
    }
  }

  lemma HeadAsAsked(o: Options, d: CaseData, es: seq<EvidenceRow>)
    ensures AllAsAsked(o, es, Head(o, d))
  {
  }

  /** If only verified evidence is wanted, every fact from evidence or a document comes from verified
      evidence and is marked so; if only facts verified by a human are, every observation is. */
  lemma OnlyVerifiedIsKept(o: Options, d: CaseData)
    requires Fits(Effective(o.maxTokens, o.maxFacts), Head(o, d))
    ensures AllAsAsked(o, if d.evidence.Some? then d.evidence.value else [], Collected(o, d))
  {
    hide AllAsAsked, Offers, Head, Fits, Push;
    OfferAsAsked(o, d, if d.evidence.Some? then d.evidence.value else [], 0);
    PhasesAsAsked(Effective(o.maxTokens, o.maxFacts), o, d, if d.evidence.Some? then d.evidence.value else [], 7);
  }
}
