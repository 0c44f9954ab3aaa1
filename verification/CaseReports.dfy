/** When the report about a case and the gate of its transitions say the same. */
module CaseReports {
  import opened Common
  import Submissions
  import opened CaseStore
  import opened CaseWorkflow
  import opened CaseRuns
  import opened CaseMoves

  /** No assignment that is active and required asks for an archived form or an unpublished version. */
  predicate Tidy(s: Store) {
    forall i :: 0 <= i < |s.assignments| && s.assignments[i].active && s.assignments[i].required ==>
      Shown(s, s.assignments[i])
  }

  /** Gate and report agree on every case in every state. */
  ghost predicate Agree(s: Store) {
    forall c, w, st :: GatePasses(s, c, w, st) <==> CanProceed(s, c, w, st)
  }

  lemma TidyStoresAgree(s: Store)
    requires Tidy(s)
    ensures Agree(s)
  {
    hide Shown, Submitted;
    forall c, w, st ensures GatePasses(s, c, w, st) <==> CanProceed(s, c, w, st) {
      TidyHidesNothing(s, c, w, st);
    }
  }

  lemma TidyHidesNothing(s: Store, c: Id, w: Id, st: string)
    requires Tidy(s)
    ensures GatePasses(s, c, w, st) <==> CanProceed(s, c, w, st)
  {
    hide Shown, Submitted;
    GateAgreesWithReport(s, c, w, st);
  }

  // ----- the condition is exact -----

  /** The same forms and assignments with other submissions. */
  function WithSubmissions(s: Store, subs: seq<Submission>): Store {
    s.(submissions := subs)
  }

  /** A version belongs to one form. */
  ghost predicate OneFormPerVersion(s: Store) {
    forall i, j :: 0 <= i < |s.assignments| && 0 <= j < |s.assignments| ==>
      (s.assignments[i].version == s.assignments[j].version ==> s.assignments[i].form == s.assignments[j].form)
  }

  /** Submissions for the versions of all assignments but one version. */
  function AllBut(all: seq<Assignment>, version: Id): seq<Submission> {
    if all == [] then []
    else
      (if all[0].version == version then [] else [Submission(0, all[0].form, all[0].version, map[])])
      + AllBut(all[1..], version)
  }

  lemma {:induction false} AllButCovers(all: seq<Assignment>, version: Id)
    ensures forall sub :: sub in AllBut(all, version) ==> sub.version != version
    ensures forall a :: a in all && a.version != version ==>
              Submission(0, a.form, a.version, map[]) in AllBut(all, version)
  {
    if all != [] {
      AllButCovers(all[1..], version);
    }
  }

  lemma SubmittedByAllBut(s: Store, version: Id, i: nat)
    requires i < |s.assignments|
    ensures Submitted(WithSubmissions(s, AllBut(s.assignments, version)), 0, s.assignments[i].version) <==>
            s.assignments[i].version != version
  {
    var subs := AllBut(s.assignments, version);
    AllButCovers(s.assignments, version);
    var a := s.assignments[i];
    if a.version != version {
      var k :| 0 <= k < |subs| && subs[k] == Submission(0, a.form, a.version, map[]);
      assert IsFor(subs[k], 0, a.version);
    } else {
      assert forall k :: 0 <= k < |subs| ==> subs[k] in subs;
    }
  }

  /** An assignment that is asked for but not shown is missed by the report as soon as everything
      else has been submitted. */
  lemma UntidyStoresDisagree(s: Store, i: nat)
    requires OneFormPerVersion(s) && i < |s.assignments|
    requires s.assignments[i].active && s.assignments[i].required && !Shown(s, s.assignments[i])
    ensures var a := s.assignments[i];
            var t := WithSubmissions(s, AllBut(s.assignments, a.version));
            CanProceed(t, 0, a.workflow, a.state) && !GatePasses(t, 0, a.workflow, a.state)
  {
    hide Submitted;
    var a := s.assignments[i];
    var t := WithSubmissions(s, AllBut(s.assignments, a.version));
    SubmittedByAllBut(s, a.version, i);
    assert Demands(t.assignments[i], a.workflow, a.state);
    forall j | 0 <= j < |t.assignments| && Demands(t.assignments[j], a.workflow, a.state) && Shown(t, t.assignments[j])
      ensures Submitted(t, 0, t.assignments[j].version)
    {
      SubmittedByAllBut(s, a.version, j);
    }
  }

  /** Gate and report agree whatever has been submitted exactly when the store is tidy. */
  lemma AgreeIffTidy(s: Store)
    requires OneFormPerVersion(s)
    ensures (forall subs :: Agree(WithSubmissions(s, subs))) <==> Tidy(s)
  {
    hide Shown, Submitted, GatePasses, CanProceed;
    if Tidy(s) {
      forall subs ensures Agree(WithSubmissions(s, subs)) {
        TidyIgnoresSubmissions(s, subs);
        TidyStoresAgree(WithSubmissions(s, subs));
      }
    } else {
      var i :| 0 <= i < |s.assignments| && s.assignments[i].active && s.assignments[i].required
               && !Shown(s, s.assignments[i]);
      UntidyStoresDisagree(s, i);
      assert !Agree(WithSubmissions(s, AllBut(s.assignments, s.assignments[i].version)));
    }
  }

  lemma TidyIgnoresSubmissions(s: Store, subs: seq<Submission>)
    requires Tidy(s)
    ensures Tidy(WithSubmissions(s, subs))
  {
    assert forall a :: Shown(WithSubmissions(s, subs), a) == Shown(s, a);
  }

  // ----- runs -----

  /** The guard of an administrative change: what it stores is tidy. */
  predicate TidyAction(a: Action) {
    a.Administer? ==> Tidy(Store(map[], map[], map[], a.assignments, a.archived, a.versions, []))
  }

  lemma SameForms(s: Store, t: Store)
    requires s.assignments == t.assignments && s.archived == t.archived && s.versions == t.versions
    ensures Tidy(s) == Tidy(t)
  {
    assert forall a :: Shown(s, a) == Shown(t, a);
  }

  lemma ConfinedKeepsForms(a: Store, b: Store)
    requires Confined(a, b)
    ensures b.assignments == a.assignments && b.archived == a.archived && b.versions == a.versions
  {
  }

  /** A store of a run that is not tidy has an administrative change behind it that was not. */
  lemma {:induction false} UntidyHasCause(fmt: Submissions.Formats, start: Store, actions: seq<Action>)
      returns (k: nat)
    requires Fresh(start) && Tidy(start) && !Tidy(Run(fmt, start, actions)[|actions|])
    ensures k < |actions| && actions[k].Administer? && !TidyAction(actions[k])
  {
    hide Tidy, Fresh, Confined, Lawful, Created, Transitioned, StatusChanged, FormSubmitted;
    var n := |actions| - 1;
    var before := Run(fmt, start, actions[..n]);
    var a, s := actions[n], Do(fmt, before, actions[n]);
    EveryStepIsLawful(fmt, start, actions[..n], a);
    if a.Administer? && !TidyAction(a) {
      k := n;
    } else {
      if a.Administer? {
        if Attempt(fmt, before, a).Some? {
          SameForms(s, Store(map[], map[], map[], a.assignments, a.archived, a.versions, []));
        }
      } else {
        ConfinedKeepsForms(before[n], s);
        SameForms(before[n], s);
      }
      k := UntidyHasCause(fmt, start, actions[..n]);
    }
  }

  /** If no administrative change leaves an active required assignment with an archived form or an
      unpublished version, gate and report agree in every store of the run. */
  lemma ReportIsReliable(fmt: Submissions.Formats, start: Store, actions: seq<Action>, k: nat)
    requires Fresh(start) && Tidy(start) && k <= |actions|
    requires forall i :: 0 <= i < |actions| ==> TidyAction(actions[i])
    ensures Agree(Run(fmt, start, actions)[k])
  {
    hide Tidy, Fresh, Agree, Do;
    RunOfPrefix(fmt, start, actions, k);
    assert forall i :: 0 <= i < k ==> actions[..k][i] == actions[i];
    if !Tidy(Run(fmt, start, actions)[k]) {
      var j := UntidyHasCause(fmt, start, actions[..k]);
    }
    TidyStoresAgree(Run(fmt, start, actions)[k]);
  }

  lemma {:induction false} RunOfPrefix(fmt: Submissions.Formats, start: Store, actions: seq<Action>, k: nat)
    requires k <= |actions|
    ensures Run(fmt, start, actions)[k] == Run(fmt, start, actions[..k])[k]
  {
    hide Do;
    if k == |actions| {
      assert actions[..k] == actions;
    } else {
      var n := |actions| - 1;
      RunOfPrefix(fmt, start, actions[..n], k);
      assert actions[..n][..k] == actions[..k];
    }
  }

  /** A store of a run in which gate and report disagree has an administrative change before it that
      left such an assignment: the guard that was not kept. */
  lemma DisagreementHasCause(fmt: Submissions.Formats, start: Store, actions: seq<Action>, k: nat) returns (j: nat)
    requires Fresh(start) && Tidy(start) && k <= |actions| && !Agree(Run(fmt, start, actions)[k])
    ensures j < k && actions[j].Administer? && !TidyAction(actions[j])
  {
    hide Tidy, Fresh, Agree, Do, TidyAction;
    RunOfPrefix(fmt, start, actions, k);
    if Tidy(Run(fmt, start, actions)[k]) {
      TidyStoresAgree(Run(fmt, start, actions)[k]);
    }
    j := UntidyHasCause(fmt, start, actions[..k]);
    assert actions[..k][j] == actions[j];
  }
}
