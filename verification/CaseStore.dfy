/** The records behind cases, workflows and forms, and the checks that decide whether a case may
    leave its state. */
module CaseStore {
  import opened Common
  import Submissions

  type Id = nat

  datatype Case = Case(status: string, workflowState: string, instance: Option<Id>, workflow: Id,
                       version: nat, closed: bool)

  datatype Instance = Instance(caseId: Id, workflow: Id, state: string, version: nat, completed: bool)

  datatype Transition = Transition(key: string, from: string, to: string, active: bool, roles: seq<string>)

  /** `terminal` tells for every state of the definition whether it is terminal. */
  datatype Definition = Definition(active: bool, initial: string, terminal: map<string, bool>,
                                   transitions: seq<Transition>)

  datatype Assignment = Assignment(workflow: Id, state: string, form: Id, version: Id, required: bool, active: bool)

  datatype FormVersion = FormVersion(form: Id, published: bool, fields: seq<Submissions.Field>)

  datatype Submission = Submission(caseId: Id, form: Id, version: Id, data: Submissions.Data)

  datatype Store = Store(
    cases: map<Id, Case>,
    instances: map<Id, Instance>,
    definitions: map<Id, Definition>,
    assignments: seq<Assignment>,
    archived: map<Id, bool>,           // for every form, whether it is archived
    versions: map<Id, FormVersion>,
    submissions: seq<Submission>)

  // ----- the gate of a transition -----

  predicate Submitted(s: Store, caseId: Id, version: Id) {
    exists i :: 0 <= i < |s.submissions| && IsFor(s.submissions[i], caseId, version)
  }

  predicate IsFor(sub: Submission, caseId: Id, version: Id) {
    sub.caseId == caseId && sub.version == version
  }

  /** An assignment that must be answered before a case leaves the state. */
  predicate Demands(a: Assignment, workflow: Id, state: string) {
    a.workflow == workflow && a.state == state && a.active && a.required
  }

  /** Every active required assignment of the state has a submission. */
  predicate GatePasses(s: Store, caseId: Id, workflow: Id, state: string) {
    forall i :: 0 <= i < |s.assignments| && Demands(s.assignments[i], workflow, state) ==>
      Submitted(s, caseId, s.assignments[i].version)
  }

  /** `FindByCaseAndFormVersion`. */
  method FindSubmission(s: Store, caseId: Id, version: Id) returns (r: Option<Submission>)
    ensures r.Some? <==> Submitted(s, caseId, version)
    ensures r.Some? ==> r.value in s.submissions && IsFor(r.value, caseId, version)
  {
    for i := 0 to |s.submissions|
      invariant forall k :: 0 <= k < i ==> !IsFor(s.submissions[k], caseId, version)
    {
      if IsFor(s.submissions[i], caseId, version) {
        return Some(s.submissions[i]);
      }
    }
    return None;
  }

  /** `FindByWorkflowAndState`: the assignments of a state, in order. */
  function AssignmentsOf(all: seq<Assignment>, workflow: Id, state: string): (r: seq<Assignment>)
    ensures forall a :: a in r <==> a in all && a.workflow == workflow && a.state == state
  {
    if all == [] then []
    else
      (if all[0].workflow == workflow && all[0].state == state then [all[0]] else [])
      + AssignmentsOf(all[1..], workflow, state)
  }

  /** `checkRequiredFormsCompleteInTx`: the form versions that are still missing. The transition
      is refused if there is any. */
  method CheckRequiredForms(s: Store, caseId: Id, workflow: Id, state: string) returns (missing: seq<Id>)
    ensures missing == [] <==> GatePasses(s, caseId, workflow, state)
    ensures forall v :: v in missing <==>
              !Submitted(s, caseId, v)
              && exists a :: a in s.assignments && Demands(a, workflow, state) && a.version == v
  {
    hide Submitted, AssignmentsOf;
    missing := [];
    var assignments := AssignmentsOf(s.assignments, workflow, state);
    for i := 0 to |assignments|
      invariant forall k :: 0 <= k < i && Demands(assignments[k], workflow, state) ==>
                  Submitted(s, caseId, assignments[k].version) || assignments[k].version in missing
      invariant forall v :: v in missing ==>
                  !Submitted(s, caseId, v)
                  && exists a :: a in s.assignments && Demands(a, workflow, state) && a.version == v
    {
      var a := assignments[i];
      if !a.active || !a.required {
        continue;
      }
      assert a in s.assignments && Demands(a, workflow, state);
      var found := FindSubmission(s, caseId, a.version);
      if found.None? {
        missing := missing + [a.version];
      }
    }
    assert forall a :: a in s.assignments && Demands(a, workflow, state) ==> a in assignments;
    if missing != [] {
      var v := missing[0];
      assert v in missing;
      var a :| a in s.assignments && Demands(a, workflow, state) && a.version == v;
    }
  }

  // ----- the second opinion -----

  /** A required assignment whose form is shown: not archived, in a published version. */
  predicate Shown(s: Store, a: Assignment) {
    && a.form in s.archived && !s.archived[a.form]
    && a.version in s.versions && s.versions[a.version].published
  }

  /** What `GetWorkflowRequirements` reports as `CanProceed`. */
  predicate CanProceed(s: Store, caseId: Id, workflow: Id, state: string) {
    forall i :: 0 <= i < |s.assignments| && Demands(s.assignments[i], workflow, state) && Shown(s, s.assignments[i]) ==>
      Submitted(s, caseId, s.assignments[i].version)
  }

  /** A required assignment that is missing although its form is not shown. */
  predicate HiddenMissing(s: Store, caseId: Id, workflow: Id, state: string) {
    exists i :: 0 <= i < |s.assignments| && Demands(s.assignments[i], workflow, state)
                && !Shown(s, s.assignments[i]) && !Submitted(s, caseId, s.assignments[i].version)
  }

  datatype Requirements = Requirements(state: string, required: seq<Assignment>, submitted: seq<Submission>,
                                       missing: seq<Assignment>, canProceed: bool)

  /** `GetWorkflowRequirements`, for the case and instance that were read. */
  method GetWorkflowRequirements(s: Store, caseId: Id, c: Case) returns (r: Option<Requirements>)
    ensures r.None? <==> c.instance.Some? && c.instance.value !in s.instances
    ensures c.instance.None? ==> r == Some(Requirements(c.workflowState, [], [], [], true))
    ensures r.Some? && c.instance.Some? ==>
              var inst := s.instances[c.instance.value];
              && r.value.state == inst.state
              && r.value.canProceed == CanProceed(s, caseId, inst.workflow, inst.state)
              && (forall a :: a in r.value.required <==>
                    a in s.assignments && Demands(a, inst.workflow, inst.state) && Shown(s, a))
              && (forall a :: a in r.value.missing <==> a in r.value.required && !Submitted(s, caseId, a.version))
              && (forall sub :: sub in r.value.submitted <==> sub in s.submissions && sub.caseId == caseId)
  {
    hide Submitted, AssignmentsOf, Shown;
    if c.instance.None? {
      return Some(Requirements(c.workflowState, [], [], [], true));
    }
    if c.instance.value !in s.instances {
      return None;
    }
    var inst := s.instances[c.instance.value];
    var required := RequiredForms(s, inst.workflow, inst.state);
    var submitted, versions := SubmissionsOf(s, caseId);
    var missing: seq<Assignment> := [];
    for i := 0 to |required|
      invariant forall a :: a in missing <==> a in required[..i] && !Submitted(s, caseId, a.version)
    {
      assert required[..i + 1] == required[..i] + [required[i]];
      if required[i].version !in versions {
        missing := missing + [required[i]];
      }
    }
    assert required[..|required|] == required;
    NothingMissing(s, caseId, inst.workflow, inst.state, required, missing);
    return Some(Requirements(inst.state, required, submitted, missing, missing == []));
  }

  lemma NothingMissing(s: Store, caseId: Id, workflow: Id, state: string, required: seq<Assignment>,
                       missing: seq<Assignment>)
    requires forall a :: a in required <==> a in s.assignments && Demands(a, workflow, state) && Shown(s, a)
    requires forall a :: a in missing <==> a in required && !Submitted(s, caseId, a.version)
    ensures missing == [] <==> CanProceed(s, caseId, workflow, state)
  {
    hide Submitted, Shown;
    if missing != [] {
      var a := missing[0];
      assert a in missing;
      var i :| 0 <= i < |s.assignments| && s.assignments[i] == a;
    }
    if !CanProceed(s, caseId, workflow, state) {
      var i :| 0 <= i < |s.assignments| && Demands(s.assignments[i], workflow, state)
               && Shown(s, s.assignments[i]) && !Submitted(s, caseId, s.assignments[i].version);
      assert s.assignments[i] in required && s.assignments[i] in missing;
    }
  }

  method RequiredForms(s: Store, workflow: Id, state: string) returns (required: seq<Assignment>)
    ensures forall a :: a in required <==> a in s.assignments && Demands(a, workflow, state) && Shown(s, a)
  {
    hide AssignmentsOf, Shown;
    required := [];
    var assignments := AssignmentsOf(s.assignments, workflow, state);
    for i := 0 to |assignments|
      invariant forall a :: a in required <==> a in assignments[..i] && Demands(a, workflow, state) && Shown(s, a)
    {
      var a := assignments[i];
      assert assignments[..i + 1] == assignments[..i] + [a];
      if !a.active || !a.required {
        continue;
      }
      assert Shown(s, a) == (a.form in s.archived && !s.archived[a.form]
                             && a.version in s.versions && s.versions[a.version].published) by { ShownMeans(s, a); }
      if a.form !in s.archived || s.archived[a.form] {
        continue;
      }
      if a.version !in s.versions || !s.versions[a.version].published {
        continue;
      }
      required := required + [a];
    }
    assert assignments[..|assignments|] == assignments;
  }

  lemma ShownMeans(s: Store, a: Assignment)
    ensures Shown(s, a) <==> a.form in s.archived && !s.archived[a.form]
                             && a.version in s.versions && s.versions[a.version].published
  {
  }

  /** `ListByCase`, with the set of form versions it covers. */
  method SubmissionsOf(s: Store, caseId: Id) returns (subs: seq<Submission>, versions: set<Id>)
    ensures forall sub :: sub in subs <==> sub in s.submissions && sub.caseId == caseId
    ensures forall v :: v in versions <==> Submitted(s, caseId, v)
  {
    subs, versions := [], {};
    for i := 0 to |s.submissions|
      invariant forall sub :: sub in subs <==> sub in s.submissions[..i] && sub.caseId == caseId
      invariant forall v :: v in versions <==> exists k :: 0 <= k < i && IsFor(s.submissions[k], caseId, v)
    {
      var sub := s.submissions[i];
      assert s.submissions[..i + 1] == s.submissions[..i] + [sub];
      if sub.caseId == caseId {
        subs, versions := subs + [sub], versions + {sub.version};
        assert IsFor(s.submissions[i], caseId, sub.version);
      }
    }
    assert s.submissions[..|s.submissions|] == s.submissions;
  }

  /** The two computations agree: the gate passes exactly when the report says so and no missing
      required form is hidden from the report. */
  lemma GateAgreesWithReport(s: Store, caseId: Id, workflow: Id, state: string)
    ensures GatePasses(s, caseId, workflow, state) <==>
            CanProceed(s, caseId, workflow, state) && !HiddenMissing(s, caseId, workflow, state)
  {
    hide Submitted, Shown, Demands;
  }

  /** A store in which the report lets a case proceed that the gate holds back: its one required
      form has been archived. */
  lemma ReportCanDisagree() returns (s: Store)
    ensures CanProceed(s, 0, 0, "OPEN") && !GatePasses(s, 0, 0, "OPEN")
  {
    s := Store(map[], map[], map[], [Assignment(0, "OPEN", 7, 8, true, true)], map[7 := true],
               map[8 := FormVersion(7, true, [])], []);
    assert Demands(s.assignments[0], 0, "OPEN") && !Submitted(s, 0, s.assignments[0].version);
  }
}
