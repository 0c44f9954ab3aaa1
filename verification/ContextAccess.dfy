/** What a context may contain: only facts from rows that the actor may see. */
module ContextAccess {
  import opened Common
  import opened Text
  import opened ContextBuilder
  import opened ContextPhases

  // ----- where facts come from -----

  predicate RowGives(r: Row, f: Fact) {
    r.accessible && r.id == f.sourceId && r.value == f.value
  }

  ghost predicate FromRows(rows: Option<seq<Row>>, f: Fact) {
    rows.Some? && exists i :: 0 <= i < |rows.value| && RowGives(rows.value[i], f)
  }

  predicate EvidenceGives(e: EvidenceRow, f: Fact) {
    e.accessible && e.id == f.sourceId && e.value == f.value
  }

  predicate DocumentGives(d: DocumentRow, f: Fact) {
    d.accessible && d.readable && d.id == f.sourceId && d.value == f.value
  }

  ghost predicate DocumentFrom(e: EvidenceRow, f: Fact) {
    e.documents.Some? && exists i :: 0 <= i < |e.documents.value| && DocumentGives(e.documents.value[i], f)
  }

  /** Rows of the workflow belong to the case and are open to everyone who may see the case. */
  predicate Carries(r: Row, f: Fact) {
    r.id == f.sourceId && r.value == f.value
  }

  predicate ObservationGives(b: ObservationRow, f: Fact) {
    b.id == f.sourceId && b.value == f.value
  }

  /** The fact is an observation of this evidence. */
  ghost predicate ObservationFrom(e: EvidenceRow, f: Fact) {
    e.observations.Some? && exists i :: 0 <= i < |e.observations.value| && ObservationGives(e.observations.value[i], f)
  }

  ghost predicate ObservationOfVisible(es: seq<EvidenceRow>, f: Fact) {
    exists i :: 0 <= i < |es| && es[i].accessible && ObservationFrom(es[i], f)
  }

  /** A fact that was read from a row the actor may see: an observation must be one of evidence that
      the actor may see. */
  ghost predicate Permitted(d: CaseData, f: Fact) {
    match f.source
    case Evidence =>
      d.evidence.Some? && exists i :: 0 <= i < |d.evidence.value| && EvidenceGives(d.evidence.value[i], f)
    case Document =>
      d.evidence.Some? && exists i :: 0 <= i < |d.evidence.value| && DocumentFrom(d.evidence.value[i], f)
    case Form => FromRows(d.submissions, f)
    case RuleEvaluation => FromRows(d.evaluations, f)
    case Decision => FromRows(d.decisions, f)
    case CaseMetadata => d.metadata.Some? && Carries(d.metadata.value, f)
    case Person => d.person.Some? && RowGives(d.person.value, f)
    case WorkflowInstance => d.instance.Some? && Carries(d.instance.value, f)
    case History => d.history.Some? && exists i :: 0 <= i < |d.history.value| && Carries(d.history.value[i], f)
    case Observation => d.evidence.Some? && ObservationOfVisible(d.evidence.value, f)
  }

  ghost predicate AllPermitted(d: CaseData, facts: seq<Fact>) {
    forall i :: 0 <= i < |facts| ==> Permitted(d, facts[i])
  }

  // ----- offers -----

  lemma {:induction false} RowFactsFromRows(source: Source, provenance: Provenance, key: string, rows: seq<Row>, i: nat)
    requires i < |RowFacts(source, provenance, key, rows)|
    ensures var f := RowFacts(source, provenance, key, rows)[i]; f.source == source && FromRows(Some(rows), f)
  {
    var offer := RowOffer(source, provenance, key, rows[0]);
    var all := RowFacts(source, provenance, key, rows);
    if i < |offer| {
      assert all[i] == offer[i] && RowGives(rows[0], all[i]);
    } else {
      RowFactsFromRows(source, provenance, key, rows[1..], i - |offer|);
      var k :| 0 <= k < |rows[1..]| && RowGives(rows[1..][k], all[i]);
      assert RowGives(rows[k + 1], all[i]);
    }
  }

  lemma {:induction false} EvidenceFactsFromRows(o: Options, es: seq<EvidenceRow>, i: nat)
    requires i < |EvidenceFacts(o, es)|
    ensures var f := EvidenceFacts(o, es)[i];
            f.source == Evidence && exists k :: 0 <= k < |es| && EvidenceGives(es[k], f)
  {
    var offer, all := EvidenceOffer(o, es[0]), EvidenceFacts(o, es);
    if i < |offer| {
      assert all[i] == offer[i] && EvidenceGives(es[0], all[i]);
    } else {
      EvidenceFactsFromRows(o, es[1..], i - |offer|);
      var k :| 0 <= k < |es[1..]| && EvidenceGives(es[1..][k], all[i]);
      assert EvidenceGives(es[k + 1], all[i]);
    }
  }

  lemma {:induction false} DocumentsFromRows(status: string, ds: seq<DocumentRow>, i: nat)
    requires i < |DocumentsOf(status, ds)|
    ensures var f := DocumentsOf(status, ds)[i];
            f.source == Document && exists k :: 0 <= k < |ds| && DocumentGives(ds[k], f)
  {
    var offer, all := DocumentOffer(status, ds[0]), DocumentsOf(status, ds);
    if i < |offer| {
      assert all[i] == offer[i] && DocumentGives(ds[0], all[i]);
    } else {
      DocumentsFromRows(status, ds[1..], i - |offer|);
      var k :| 0 <= k < |ds[1..]| && DocumentGives(ds[1..][k], all[i]);
      assert DocumentGives(ds[k + 1], all[i]);
    }
  }

  lemma {:induction false} DocumentFactsFromRows(o: Options, es: seq<EvidenceRow>, i: nat)
    requires i < |DocumentFacts(o, es)|
    ensures var f := DocumentFacts(o, es)[i];
            f.source == Document && exists k :: 0 <= k < |es| && DocumentFrom(es[k], f)
  {
    hide DocumentsOf;
    var offer, all := DocumentsOfEvidence(o, es[0]), DocumentFacts(o, es);
    if i < |offer| {
      DocumentsFromRows(es[0].status, es[0].documents.value, i);
      assert all[i] == offer[i] && DocumentFrom(es[0], all[i]);
    } else {
      DocumentFactsFromRows(o, es[1..], i - |offer|);
      var k :| 0 <= k < |es[1..]| && DocumentFrom(es[1..][k], all[i]);
      assert DocumentFrom(es[k + 1], all[i]);
    }
  }

  lemma {:induction false} ObservationsFromRows(o: Options, bs: seq<ObservationRow>, i: nat)
    requires i < |ObservationsOf(o, bs)|
    ensures var f := ObservationsOf(o, bs)[i];
            f.source == Observation && exists k :: 0 <= k < |bs| && Passes(o, bs[k]) && ObservationGives(bs[k], f)
  {
    var offer, all := ObservationOffer(o, bs[0]), ObservationsOf(o, bs);
    if i < |offer| {
      assert all[i] == offer[i] && Passes(o, bs[0]) && ObservationGives(bs[0], all[i]);
    } else {
      ObservationsFromRows(o, bs[1..], i - |offer|);
      var k :| 0 <= k < |bs[1..]| && Passes(o, bs[1..][k]) && ObservationGives(bs[1..][k], all[i]);
      assert Passes(o, bs[k + 1]) && ObservationGives(bs[k + 1], all[i]);
    }
  }

  /** The filter of the observation phase. */
  predicate Passes(o: Options, b: ObservationRow) {
    o.onlyHumanVerified ==> b.status == "ACCEPTED"
  }

  /** Some observation of this evidence is offered. */
  ghost predicate OffersObservation(o: Options, e: EvidenceRow) {
    e.observations.Some? && exists k :: 0 <= k < |e.observations.value| && Passes(o, e.observations.value[k])
  }

  lemma {:induction false} ObservationFactsFromRows(o: Options, es: seq<EvidenceRow>, i: nat)
    requires i < |ObservationFacts(o, es)|
    ensures var f := ObservationFacts(o, es)[i];
            f.source == Observation
            && exists k :: 0 <= k < |es| && OffersObservation(o, es[k]) && ObservationFrom(es[k], f)
  {
    hide ObservationsOf, Passes, ObservationGives;
    var offer, all := ObservationsOfEvidence(o, es[0]), ObservationFacts(o, es);
    if i < |offer| {
      ObservationsFromRows(o, es[0].observations.value, i);
      assert all[i] == offer[i] && OffersObservation(o, es[0]) && ObservationFrom(es[0], all[i]);
    } else {
      ObservationFactsFromRows(o, es[1..], i - |offer|);
      var k :| 0 <= k < |es[1..]| && OffersObservation(o, es[1..][k]) && ObservationFrom(es[1..][k], all[i]);
      assert OffersObservation(o, es[k + 1]) && ObservationFrom(es[k + 1], all[i]);
    }
  }

  // ----- observations -----

  /** What the observation phase would have to check: evidence that the actor may not see has no
      observation that passes the filter. */
  ghost predicate HiddenEvidenceIsSilent(o: Options, es: seq<EvidenceRow>) {
    forall i :: 0 <= i < |es| && !es[i].accessible ==> !OffersObservation(o, es[i])
  }

  /** Identifiers of observations are unique, as the primary key of their table demands. */
  ghost predicate UniqueObservations(es: seq<EvidenceRow>) {
    forall i, j, f :: 0 <= i < |es| && 0 <= j < |es| && ObservationFrom(es[i], f) && ObservationFrom(es[j], f) ==>
      i == j
  }

  lemma {:induction false} ObservationIsOffered(o: Options, bs: seq<ObservationRow>, k: nat) returns (i: nat)
    requires k < |bs| && Passes(o, bs[k])
    ensures i < |ObservationsOf(o, bs)| && ObservationGives(bs[k], ObservationsOf(o, bs)[i])
  {
    var offer := ObservationOffer(o, bs[0]);
    if k == 0 {
      i := 0;
    } else {
      i := ObservationIsOffered(o, bs[1..], k - 1);
      i := i + |offer|;
    }
  }

  lemma {:induction false} EvidenceIsHeard(o: Options, es: seq<EvidenceRow>, k: nat) returns (i: nat)
    requires k < |es| && OffersObservation(o, es[k])
    ensures i < |ObservationFacts(o, es)| && ObservationFrom(es[k], ObservationFacts(o, es)[i])
    ensures ObservationFacts(o, es)[i].source == Observation
  {
    hide ObservationsOf, ObservationGives, Passes;
    var offer := ObservationsOfEvidence(o, es[0]);
    if k == 0 {
      var bs := es[0].observations.value;
      var n :| 0 <= n < |bs| && Passes(o, bs[n]);
      i := ObservationIsOffered(o, bs, n);
      ObservationsFromRows(o, bs, i);
    } else {
      i := EvidenceIsHeard(o, es[1..], k - 1);
      i := i + |offer|;
    }
  }

  /** The offer of the observation phase is permitted exactly when hidden evidence is silent. */
  lemma ObservationsPermittedIff(o: Options, d: CaseData, es: seq<EvidenceRow>)
    requires d.evidence == Some(es) && UniqueObservations(es)
    ensures AllPermitted(d, ObservationFacts(o, es)) <==> HiddenEvidenceIsSilent(o, es)
  {
    hide ObservationFacts, OffersObservation, ObservationFrom;
    if HiddenEvidenceIsSilent(o, es) {
      SilenceSuffices(o, d, es);
    } else {
      var k :| 0 <= k < |es| && !es[k].accessible && OffersObservation(o, es[k]);
      var i := EvidenceIsHeard(o, es, k);
      assert !Permitted(d, ObservationFacts(o, es)[i]);
    }
  }

  lemma SilenceSuffices(o: Options, d: CaseData, es: seq<EvidenceRow>)
    requires d.evidence == Some(es) && HiddenEvidenceIsSilent(o, es)
    ensures AllPermitted(d, ObservationFacts(o, es))
  {
    hide ObservationFacts, OffersObservation, ObservationFrom;
    forall i | 0 <= i < |ObservationFacts(o, es)| ensures Permitted(d, ObservationFacts(o, es)[i]) {
      ObservationFactsFromRows(o, es, i);
    }
  }

  // ----- the other offers -----

  lemma RowsPermitted(d: CaseData, source: Source, provenance: Provenance, key: string, on: bool,
                      rows: Option<seq<Row>>)
    requires (source == Form && rows == d.submissions) || (source == RuleEvaluation && rows == d.evaluations)
             || (source == Decision && rows == d.decisions)
    ensures AllPermitted(d, RowFacts(source, provenance, key, OrNone(on, rows)))
  {
    hide RowFacts, FromRows;
    var facts := RowFacts(source, provenance, key, OrNone(on, rows));
    NoRows(source, provenance, key);
    forall i | 0 <= i < |facts| ensures Permitted(d, facts[i]) {
      RowFactsFromRows(source, provenance, key, OrNone(on, rows), i);
    }
  }

  lemma NoRows(source: Source, provenance: Provenance, key: string)
    ensures RowFacts(source, provenance, key, []) == []
  {
  }

  lemma EvidencePermitted(o: Options, d: CaseData, on: bool)
    ensures AllPermitted(d, EvidenceFacts(o, OrNone(on, d.evidence)))
    ensures AllPermitted(d, DocumentFacts(o, OrNone(on, d.evidence)))
  {
    hide EvidenceFacts, DocumentFacts, EvidenceGives, DocumentFrom;
    NoOffers(o);
    var es := OrNone(on, d.evidence);
    forall i | 0 <= i < |EvidenceFacts(o, es)| ensures Permitted(d, EvidenceFacts(o, es)[i]) {
      EvidenceFactsFromRows(o, es, i);
    }
    forall i | 0 <= i < |DocumentFacts(o, es)| ensures Permitted(d, DocumentFacts(o, es)[i]) {
      DocumentFactsFromRows(o, es, i);
    }
  }

  lemma {:induction false} VisibleRowsAre(rows: seq<Row>)
    ensures |VisibleRows(rows)| == |rows| && forall i :: 0 <= i < |rows| ==> VisibleRows(rows)[i] == Visible(rows[i])
  {
    if rows != [] {
      VisibleRowsAre(rows[1..]);
    }
  }

  lemma WorkflowPermitted(o: Options, d: CaseData)
    ensures AllPermitted(d, WorkflowFacts(o, d))
  {
    hide RowFacts, VisibleRows;
    var rows := OrNone(true, d.history);
    var history := RowFacts(History, WorkflowHistory, "workflow_transition", VisibleRows(rows));
    VisibleRowsAre(rows);
    NoRows(History, WorkflowHistory, "workflow_transition");
    forall i | 0 <= i < |history| ensures Permitted(d, history[i]) {
      RowFactsFromRows(History, WorkflowHistory, "workflow_transition", VisibleRows(rows), i);
      var k :| 0 <= k < |VisibleRows(rows)| && RowGives(VisibleRows(rows)[k], history[i]);
      assert Carries(rows[k], history[i]);
    }
  }

  /** The phases before the observations. */
  lemma OfferPermitted(o: Options, d: CaseData, n: nat)
    requires n < 6
    ensures n < |Offers(o, d)| && AllPermitted(d, Offers(o, d)[n])
  {
    hide EvidenceFacts, DocumentFacts, ObservationFacts, RowFacts, WorkflowFacts, Permitted;
    OffersInOrder(o, d);
    EvidencePermitted(o, d, o.evidence || o.verifiedEvidence);
    EvidencePermitted(o, d, o.documents && d.hasDocumentProvider);
    RowsPermitted(d, Form, FormSubmission, "form_submission", o.formSubmissions, d.submissions);
    RowsPermitted(d, RuleEvaluation, RuleResult, "rule_evaluation", o.ruleEvaluations, d.evaluations);
    RowsPermitted(d, Decision, HumanDecision, "decision", o.decisions, d.decisions);
    WorkflowPermitted(o, d);
  }

  // ----- the whole context -----

  /** What a caller could check before the context is built. */
  ghost predicate Guard(o: Options, d: CaseData) {
    o.aiObservations && d.evidence.Some? ==> HiddenEvidenceIsSilent(o, d.evidence.value)
  }

  lemma LastOffer(o: Options, d: CaseData)
    ensures |Offers(o, d)| == 7
    ensures Offers(o, d)[6] ==
            if o.aiObservations && d.evidence.Some? then ObservationFacts(o, d.evidence.value) else []
    ensures Guard(o, d) ==> AllPermitted(d, Offers(o, d)[6])
  {
    hide ObservationFacts, HiddenEvidenceIsSilent, Permitted;
    OffersInOrder(o, d);
    NoOffers(o);
    if Guard(o, d) && o.aiObservations && d.evidence.Some? {
      SilenceSuffices(o, d, d.evidence.value);
    }
  }

  lemma {:induction false} PhasesPermitted(limits: Limits, o: Options, d: CaseData, n: nat)
    requires n <= 7 && Fits(limits, Head(o, d)) && (n == 7 ==> Guard(o, d))
    ensures |Offers(o, d)| == 7 && AllPermitted(d, PushPhases(limits, Head(o, d), Offers(o, d), n))
  {
    hide Fits, Push, Offers, Permitted, Guard;
    LastOffer(o, d);
    if n == 0 {
      HeadPermitted(o, d);
    } else {
      var before := PushPhases(limits, Head(o, d), Offers(o, d), n - 1);
      PhasesPermitted(limits, o, d, n - 1);
      PhasesFit(limits, Head(o, d), Offers(o, d), n - 1);
      var taken := PushIsPrefix(limits, before, Offers(o, d)[n - 1]);
      if n < 7 { OfferPermitted(o, d, n - 1); }
    }
  }

  lemma HeadPermitted(o: Options, d: CaseData)
    ensures AllPermitted(d, Head(o, d))
  {
  }

  /** Whatever the budget cuts off: every fact but an observation was read from a row the actor may
      see, and under the guard every observation too. */
  lemma CollectedFactsArePermitted(o: Options, d: CaseData)
    requires Fits(Effective(o.maxTokens, o.maxFacts), Head(o, d))
    ensures forall i :: 0 <= i < |Collected(o, d)| && Collected(o, d)[i].source != Observation ==>
              Permitted(d, Collected(o, d)[i])
    ensures Guard(o, d) ==> AllPermitted(d, Collected(o, d))
  {
    hide Offers, Head, Fits, Push, Permitted, Guard;
    var limits := Effective(o.maxTokens, o.maxFacts);
    LastOffer(o, d);
    PhasesPermitted(limits, o, d, 6);
    if Guard(o, d) { PhasesPermitted(limits, o, d, 7); }
    var before := PushPhases(limits, Head(o, d), Offers(o, d), 6);
    PhasesFit(limits, Head(o, d), Offers(o, d), 6);
    var taken := PushIsPrefix(limits, before, Offers(o, d)[6]);
    forall i | 0 <= i < |Offers(o, d)[6]| ensures Offers(o, d)[6][i].source == Observation {
      ObservationFactsFromRows(o, d.evidence.value, i);
    }
  }

  // ----- the guard is needed -----

  function WithBudget(o: Options, maxTokens: int, maxFacts: int): Options {
    o.(maxTokens := maxTokens, maxFacts := maxFacts)
  }

  ghost function AllOffered(facts: seq<Fact>, offers: seq<seq<Fact>>, n: nat): seq<Fact>
    requires n <= |offers|
  {
    if n == 0 then facts else AllOffered(facts, offers, n - 1) + offers[n - 1]
  }

  /** Within a budget that suffices for all of them, every phase takes its whole offer. */
  lemma {:induction false} AmpleBudgetTakesAll(limits: Limits, facts: seq<Fact>, offers: seq<seq<Fact>>, n: nat)
    requires n <= |offers| && Fits(limits, AllOffered(facts, offers, n))
    ensures PushPhases(limits, facts, offers, n) == AllOffered(facts, offers, n)
  {
    hide Fits, Push;
    if n > 0 {
      var before := AllOffered(facts, offers, n - 1);
      HeadFits(limits, before, offers[n - 1]);
      AmpleBudgetTakesAll(limits, facts, offers, n - 1);
      var taken := PushTakesLongestPrefix(limits, before, offers[n - 1]);
      assert offers[n - 1][..|offers[n - 1]|] == offers[n - 1];
    }
  }

  lemma {:induction false} EvidenceIgnoresBudget(o: Options, o': Options, es: seq<EvidenceRow>)
    requires o == WithBudget(o', o.maxTokens, o.maxFacts)
    ensures EvidenceFacts(o', es) == EvidenceFacts(o, es)
    ensures DocumentFacts(o', es) == DocumentFacts(o, es)
  {
    hide DocumentsOf;
    if es != [] {
      EvidenceIgnoresBudget(o, o', es[1..]);
    }
  }

  lemma {:induction false} ObservationsIgnoreBudget(o: Options, o': Options, bs: seq<ObservationRow>)
    requires o == WithBudget(o', o.maxTokens, o.maxFacts)
    ensures ObservationsOf(o', bs) == ObservationsOf(o, bs)
  {
    if bs != [] {
      ObservationsIgnoreBudget(o, o', bs[1..]);
    }
  }

  lemma {:induction false} ObservationFactsIgnoreBudget(o: Options, o': Options, es: seq<EvidenceRow>)
    requires o == WithBudget(o', o.maxTokens, o.maxFacts)
    ensures ObservationFacts(o', es) == ObservationFacts(o, es)
  {
    hide ObservationsOf;
    if es != [] {
      if es[0].observations.Some? { ObservationsIgnoreBudget(o, o', es[0].observations.value); }
      ObservationFactsIgnoreBudget(o, o', es[1..]);
    }
  }

  lemma OffersIgnoreBudget(o: Options, d: CaseData, tokens: int, facts: int)
    ensures var o' := WithBudget(o, tokens, facts);
            Offers(o', d) == Offers(o, d) && Head(o', d) == Head(o, d)
  {
    hide Offers, WorkflowFacts, Head, EvidenceFacts, DocumentFacts, ObservationFacts, RowFacts;
    var o' := WithBudget(o, tokens, facts);
    OffersInOrder(o, d);
    OffersInOrder(o', d);
    EvidenceIgnoresBudget(o, o', OrNone(o.evidence || o.verifiedEvidence, d.evidence));
    EvidenceIgnoresBudget(o, o', OrNone(o.documents && d.hasDocumentProvider, d.evidence));
    ObservationFactsIgnoreBudget(o, o', OrNone(o.aiObservations, d.evidence));
    RestIgnoresBudget(o, d, tokens, facts);
    assert forall n :: 0 <= n < 7 ==> Offers(o', d)[n] == Offers(o, d)[n];
  }

  lemma RestIgnoresBudget(o: Options, d: CaseData, tokens: int, facts: int)
    ensures var o' := WithBudget(o, tokens, facts);
            WorkflowFacts(o', d) == WorkflowFacts(o, d) && Head(o', d) == Head(o, d)
  {
    hide RowFacts, VisibleRows, RowOffer, Single;
  }

  /** A budget under which the observation phase takes its whole offer. */
  lemma AmpleBudget(o: Options, d: CaseData) returns (o': Options, before: seq<Fact>)
    ensures o' == WithBudget(o, o'.maxTokens, o'.maxFacts)
    ensures Fits(Effective(o'.maxTokens, o'.maxFacts), Head(o', d))
    ensures |Offers(o', d)| == 7 && Collected(o', d) == before + Offers(o', d)[6]
  {
    hide Offers, Head, Total, Push;
    LastOffer(o, d);
    var all := AllOffered(Head(o, d), Offers(o, d), 7);
    before := AllOffered(Head(o, d), Offers(o, d), 6);
    o' := WithBudget(o, 1 + Total(all), 1 + |all|);
    OffersIgnoreBudget(o, d, o'.maxTokens, o'.maxFacts);
    var limits := Effective(o'.maxTokens, o'.maxFacts);
    assert Fits(limits, all);
    AmpleBudgetTakesAll(limits, Head(o, d), Offers(o, d), 7);
    HeadOfAllFits(limits, Head(o, d), Offers(o, d), 7);
  }

  lemma {:induction false} HeadOfAllFits(limits: Limits, facts: seq<Fact>, offers: seq<seq<Fact>>, n: nat)
    requires n <= |offers| && Fits(limits, AllOffered(facts, offers, n))
    ensures Fits(limits, facts)
  {
    hide Fits;
    if n > 0 {
      HeadFits(limits, AllOffered(facts, offers, n - 1), offers[n - 1]);
      HeadOfAllFits(limits, facts, offers, n - 1);
    }
  }

  lemma SuffixPermitted(d: CaseData, before: seq<Fact>, facts: seq<Fact>)
    requires AllPermitted(d, before + facts)
    ensures AllPermitted(d, facts)
  {
    hide Permitted;
    forall i | 0 <= i < |facts| ensures Permitted(d, facts[i]) {
      assert (before + facts)[|before| + i] == facts[i];
    }
  }

  /** Whether every context of these options, whatever its budget, holds only permitted facts. */
  ghost predicate AlwaysPermitted(o: Options, d: CaseData) {
    forall tokens, facts :: Fits(Effective(tokens, facts), Head(WithBudget(o, tokens, facts), d)) ==>
      AllPermitted(d, Collected(WithBudget(o, tokens, facts), d))
  }

  /** Exactly under the guard do contexts of every budget hold only permitted facts. */
  lemma PermittedUnderEveryBudgetIff(o: Options, d: CaseData)
    requires d.evidence.Some? ==> UniqueObservations(d.evidence.value)
    ensures AlwaysPermitted(o, d) <==> Guard(o, d)
  {
    hide Fits, Head, Collected, Permitted, AllPermitted, UniqueObservations, HiddenEvidenceIsSilent, Offers;
    if Guard(o, d) {
      forall tokens, facts | Fits(Effective(tokens, facts), Head(WithBudget(o, tokens, facts), d))
        ensures AllPermitted(d, Collected(WithBudget(o, tokens, facts), d))
      {
        GuardIgnoresBudget(o, d, tokens, facts);
        CollectedFactsArePermitted(WithBudget(o, tokens, facts), d);
      }
    }
    if AlwaysPermitted(o, d) {
      var o', before := AmpleBudget(o, d);
      GuardIgnoresBudget(o, d, o'.maxTokens, o'.maxFacts);
      LastOffer(o', d);
      assert AllPermitted(d, Collected(o', d));
      SuffixPermitted(d, before, Offers(o', d)[6]);
      if o.aiObservations && d.evidence.Some? { ObservationsPermittedIff(o', d, d.evidence.value); }
    }
  }

  lemma GuardIgnoresBudget(o: Options, d: CaseData, tokens: int, facts: int)
    ensures Guard(WithBudget(o, tokens, facts), d) == Guard(o, d)
  {
    var o' := WithBudget(o, tokens, facts);
    assert forall b :: Passes(o', b) == Passes(o, b);
    forall e ensures OffersObservation(o', e) == OffersObservation(o, e) {
    }
  }

  /** Under a checker that gives one answer for the case and for all its evidence, as one does that
      asks for membership of the organization only, the guard holds: the context of a case is not
      built at all unless that answer is yes. */
  lemma UniformCheckerKeepsGuard(o: Options, d: CaseData, answer: bool)
    requires answer && (d.evidence.Some? ==> forall e :: e in d.evidence.value ==> e.accessible == answer)
    ensures Guard(o, d)
    ensures Fits(Effective(o.maxTokens, o.maxFacts), Head(o, d)) ==> AllPermitted(d, Collected(o, d))
  {
    hide Fits, Head, Collected, AllPermitted, OffersObservation;
    if d.evidence.Some? {
      assert forall i :: 0 <= i < |d.evidence.value| ==> d.evidence.value[i] in d.evidence.value;
    }
    if Fits(Effective(o.maxTokens, o.maxFacts), Head(o, d)) {
      CollectedFactsArePermitted(o, d);
    }
  }

  // An input without the guard.

  const HIDDEN: EvidenceRow :=
    EvidenceRow(1, "VERIFIED", false, Other, None, Some([ObservationRow(7, "ACCEPTED", Other)]))

  const ONLY_OBSERVATIONS: Options :=
    Options(false, false, false, false, false, false, false, false, false, true, 0, 0, false, false)

  const HIDDEN_CASE: CaseData := CaseData(None, None, Some([HIDDEN]), false, None, None, None, None, None)

  const HEARD: Fact := Fact(Observation, 7, HumanVerified, "ai_observation", Other)

  lemma HiddenOffer()
    ensures ObservationFacts(ONLY_OBSERVATIONS, [HIDDEN]) == [HEARD]
  {
    var bs := HIDDEN.observations.value;
    assert bs[1..] == [] && [HIDDEN][1..] == [];
    assert ObservationsOf(ONLY_OBSERVATIONS, bs) == [HEARD];
  }

  lemma HiddenOffers()
    ensures Offers(ONLY_OBSERVATIONS, HIDDEN_CASE) == [[], [], [], [], [], [], [HEARD]]
    ensures Head(ONLY_OBSERVATIONS, HIDDEN_CASE) == []
  {
    hide ObservationFacts, EvidenceFacts, DocumentFacts, RowFacts;
    HiddenOffer();
    NoOffers(ONLY_OBSERVATIONS);
    NoRows(Form, FormSubmission, "form_submission");
    NoRows(RuleEvaluation, RuleResult, "rule_evaluation");
    NoRows(Decision, HumanDecision, "decision");
  }

  lemma HeardFits()
    ensures Fits(Effective(0, 0), [HEARD])
  {
    hide ByteLength;
    ByteLengthExceedsUnlessAscii("ai_observation");
    assert ByteLength("ai_observation") == 14;
    assert [HEARD][..0] == [];
    assert Total([HEARD]) == Total([]) + Tokens(HEARD);
  }

  lemma {:induction false} NothingOffered(offers: seq<seq<Fact>>, n: nat)
    requires n <= |offers| && forall i :: 0 <= i < n ==> offers[i] == []
    ensures AllOffered([], offers, n) == []
  {
    if n > 0 {
      NothingOffered(offers, n - 1);
    }
  }

  lemma SevenOffers(facts: seq<Fact>)
    ensures AllOffered([], [[], [], [], [], [], [], facts], 7) == facts
  {
    var offers: seq<seq<Fact>> := [[], [], [], [], [], [], facts];
    NothingOffered(offers, 6);
    assert [] + facts == facts;
  }

  /** An accepted observation of the only evidence, which the actor may not see, is collected under
      the default budget as a fact that a human has verified. */
  lemma HiddenObservationIsCollected()
    ensures Collected(ONLY_OBSERVATIONS, HIDDEN_CASE) == [HEARD]
    ensures !HIDDEN.accessible && !Permitted(HIDDEN_CASE, HEARD)
  {
    hide Fits, Push, Offers, Head, AllOffered;
    HiddenOffers();
    HeardFits();
    SevenOffers([HEARD]);
    AmpleBudgetTakesAll(Effective(0, 0), [], Offers(ONLY_OBSERVATIONS, HIDDEN_CASE), 7);
  }
}
