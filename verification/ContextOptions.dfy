/** What it means to ask for evidence and for verified evidence at once. */
module ContextOptions {
  import opened Common
  import opened ContextBuilder
  import opened ContextPhases

  function NotOnlyVerified(o: Options): Options {
    o.(verifiedEvidence := false)
  }

  /** All evidence that the actor may see is verified. */
  predicate VisibleIsVerified(es: seq<EvidenceRow>) {
    forall i :: 0 <= i < |es| && es[i].accessible ==> es[i].status == "VERIFIED"
  }

  lemma {:induction false} VerifiedFilter(o: Options, es: seq<EvidenceRow>)
    requires o.verifiedEvidence && !o.onlyVerified
    ensures |EvidenceFacts(o, es)| <= |EvidenceFacts(NotOnlyVerified(o), es)|
    ensures |EvidenceFacts(o, es)| == |EvidenceFacts(NotOnlyVerified(o), es)| <==> VisibleIsVerified(es)
    ensures VisibleIsVerified(es) ==> EvidenceFacts(o, es) == EvidenceFacts(NotOnlyVerified(o), es)
  {
    if es != [] {
      VerifiedFilter(o, es[1..]);
      assert forall i :: 0 < i < |es| ==> es[i] == es[1..][i - 1];
      assert VisibleIsVerified(es) <==>
             (es[0].accessible ==> es[0].status == "VERIFIED") && VisibleIsVerified(es[1..]) by {
        assert forall i :: 0 <= i < |es[1..]| ==> es[1..][i] == es[i + 1];
      }
    }
  }

  lemma {:induction false} SameFilter(o: Options, es: seq<EvidenceRow>)
    requires !o.verifiedEvidence || o.onlyVerified
    ensures EvidenceFacts(o, es) == EvidenceFacts(NotOnlyVerified(o), es)
  {
    if es != [] {
      SameFilter(o, es[1..]);
    }
  }

  /** Asking for verified evidence next to evidence changes nothing, as documented, exactly when
      only verified evidence is wanted anyway, or all that the actor may see is verified. */
  lemma AskingForVerifiedIff(o: Options, d: CaseData)
    requires o.evidence
    ensures |Offers(o, d)| == |Offers(NotOnlyVerified(o), d)| == 7
    ensures Offers(o, d)[0] == Offers(NotOnlyVerified(o), d)[0] <==>
            !o.verifiedEvidence || o.onlyVerified || d.evidence.None? || VisibleIsVerified(d.evidence.value)
  {
    hide EvidenceFacts, VisibleIsVerified, Offers;
    OffersInOrder(o, d);
    OffersInOrder(NotOnlyVerified(o), d);
    NoOffers(o);
    NoOffers(NotOnlyVerified(o));
    if d.evidence.Some? {
      if o.verifiedEvidence && !o.onlyVerified {
        VerifiedFilter(o, d.evidence.value);
      } else {
        SameFilter(o, d.evidence.value);
      }
    }
  }

  /** `DefaultContextOptions`. */
  const DEFAULT_OPTIONS: Options :=
    Options(true, true, true, true, true, true, true, true, true, true, 8000, 200, false, false)

  /** Under the default options, evidence that is not verified is not offered, although evidence is
      asked for, the actor may see it, and not only verified evidence is wanted. */
  lemma DefaultOptionsDropUnverified(e: EvidenceRow)
    requires e.accessible && e.status == "UNVERIFIED"
    ensures EvidenceFacts(DEFAULT_OPTIONS, [e]) == []
    ensures EvidenceFacts(NotOnlyVerified(DEFAULT_OPTIONS), [e]) ==
            [Fact(Evidence, e.id, SourceFact, "evidence", e.value)]
  {
    assert [e][1..] == [];
  }
}
