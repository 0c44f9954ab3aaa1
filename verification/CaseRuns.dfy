/** Safety of cases over every run of transactions, with reads from any earlier store. */
module CaseRuns {
  import opened Common
  import Submissions
  import opened CaseStore
  import opened CaseWorkflow

  /** One step of the system. `first`, `listed` and `seen` name the earlier stores from which
      records are read before a transaction. Administrators may change definitions, assignments and forms. */
  datatype Action =
    | Create(caseId: Id, instanceId: Id, workflow: Id, fate: Fate)
    | Transit(seen: nat, instanceId: Id, key: string, role: string, fate: Fate)
    | ChangeStatus(first: nat, listed: nat, seen: nat, caseId: Id, status: string, role: string, fate: Fate)
    | Submit(seen: nat, caseId: Id, version: Id, data: Submissions.Data, fate: Fate)
    | Administer(definitions: map<Id, Definition>, assignments: seq<Assignment>, archived: map<Id, bool>,
                 versions: map<Id, FormVersion>)

  /** Definitions are stored only with an initial state. */
  predicate NamedInitials(definitions: map<Id, Definition>) {
    forall d :: d in definitions ==> definitions[d].initial != ""
  }

  /** The transaction that an action attempts on the last store of a history. */
  function Attempt(fmt: Submissions.Formats, history: seq<Store>, a: Action): Option<Store>
    requires history != []
  {
    var db := history[|history| - 1];
    match a
    case Create(c, i, w, fate) => Created(db, c, i, w, fate)
    case Transit(seen, i, key, role, fate) =>
      if seen < |history| then Transitioned(db, history[seen], i, key, role, fate) else None
    case ChangeStatus(first, listed, seen, c, status, role, fate) =>
      if first < |history| && listed < |history| && seen < |history| then
        StatusChanged(db, history[first], history[listed], history[seen], c, status, role, fate)
      else None
    case Submit(seen, c, v, data, fate) =>
      if seen < |history| then FormSubmitted(fmt, db, history[seen], c, v, data, fate) else None
    case Administer(ds, assignments, archived, versions) =>
      if NamedInitials(ds) then
        Some(db.(definitions := ds, assignments := assignments, archived := archived, versions := versions))
      else None
  }

  /** The store after an action; a refused or rolled-back one leaves it as it was. */
  function Do(fmt: Submissions.Formats, history: seq<Store>, a: Action): Store
    requires history != []
  {
    match Attempt(fmt, history, a)
    case None => history[|history| - 1]
    case Some(s) => s
  }

  /** All stores of a run, from the first to the last. */
  function Run(fmt: Submissions.Formats, start: Store, actions: seq<Action>): (h: seq<Store>)
    ensures |h| == |actions| + 1
  {
    if actions == [] then [start]
    else
      var before := Run(fmt, start, actions[..|actions| - 1]);
      before + [Do(fmt, before, actions[|actions| - 1])]
  }

  /** A store without cases. */
  predicate Fresh(s: Store) {
    s.cases == map[] && s.instances == map[] && s.submissions == [] && NamedInitials(s.definitions)
  }

  // ----- what every store of a run satisfies -----

  /** A case and its workflow instance point at each other and agree on the state. */
  predicate Mirrors(s: Store, caseId: Id)
    requires caseId in s.cases
  {
    var c := s.cases[caseId];
    && c.instance.Some? && c.instance.value in s.instances
    && s.instances[c.instance.value].caseId == caseId
    && c.status == c.workflowState == s.instances[c.instance.value].state
  }

  predicate Owned(s: Store, instanceId: Id)
    requires instanceId in s.instances
  {
    var c := s.instances[instanceId].caseId;
    c in s.cases && s.cases[c].instance == Some(instanceId)
  }

  predicate SameSlot(a: Submission, b: Submission) {
    a.caseId == b.caseId && a.version == b.version
  }

  ghost predicate Consistent(s: Store) {
    && NamedInitials(s.definitions)
    && (forall c :: c in s.cases ==> Mirrors(s, c))
    && (forall i :: i in s.instances ==> Owned(s, i))
    && (forall i, j :: 0 <= i < j < |s.submissions| ==> !SameSlot(s.submissions[i], s.submissions[j]))
  }

  /** How an instance may change over time: its identity stays, and a version names a state. */
  predicate InstanceLater(a: Instance, b: Instance) {
    a.caseId == b.caseId && a.workflow == b.workflow && a.version <= b.version && (a.version == b.version ==> a == b)
  }

  ghost predicate Later(a: Store, b: Store) {
    forall i :: i in a.instances ==> i in b.instances && InstanceLater(a.instances[i], b.instances[i])
  }

  lemma LaterTransitive(a: Store, b: Store, c: Store)
    requires Later(a, b) && Later(b, c)
    ensures Later(a, c)
  {
  }

  // ----- one step -----

  /** What a committed departure from a state requires: the gate of the state that was left. */
  ghost predicate DeparturesGated(a: Store, b: Store) {
    forall i :: i in a.instances && i in b.instances && a.instances[i].state != b.instances[i].state ==>
      GatePasses(b, a.instances[i].caseId, a.instances[i].workflow, a.instances[i].state)
  }

  ghost predicate SubmissionsSafe(fmt: Submissions.Formats, a: Store, b: Store) {
    && a.submissions <= b.submissions
    && forall k :: |a.submissions| <= k < |b.submissions| ==> Accepted(fmt, a, b.submissions[k])
  }

  /** A new submission is for a published version of a form that is not archived, is the first for
      its case and version, and is valid for the fields of the version. */
  ghost predicate Accepted(fmt: Submissions.Formats, s: Store, sub: Submission) {
    && sub.version in s.versions && s.versions[sub.version].published && s.versions[sub.version].form == sub.form
    && sub.form in s.archived && !s.archived[sub.form]
    && !Submitted(s, sub.caseId, sub.version)
    && Submissions.ValidSubmission(fmt, sub.data, s.versions[sub.version].fields)
  }

  ghost predicate StepSafe(fmt: Submissions.Formats, a: Store, b: Store) {
    Consistent(b) && Later(a, b) && DeparturesGated(a, b) && SubmissionsSafe(fmt, a, b)
  }

  lemma StayingIsSafe(fmt: Submissions.Formats, s: Store)
    requires Consistent(s)
    ensures StepSafe(fmt, s, s)
  {
  }

  lemma CreatingIsSafe(fmt: Submissions.Formats, db: Store, caseId: Id, instanceId: Id, workflow: Id, fate: Fate)
    requires Consistent(db) && Created(db, caseId, instanceId, workflow, fate).Some?
    ensures StepSafe(fmt, db, Created(db, caseId, instanceId, workflow, fate).value)
  {
    hide Created, Mirrors, Owned, SameSlot, NamedInitials, GatePasses, Accepted;
    var s := Created(db, caseId, instanceId, workflow, fate).value;
    CreatingAdds(db, caseId, instanceId, workflow, fate);
    forall c | c in s.cases ensures Mirrors(s, c) {
      if c in db.cases { StillMirrors(db, s, c); }
    }
    forall i | i in s.instances ensures Owned(s, i) {
      if i in db.instances { StillOwned(db, s, i); }
    }
  }

  lemma CreatingAdds(db: Store, caseId: Id, instanceId: Id, workflow: Id, fate: Fate)
    requires NamedInitials(db.definitions) && Created(db, caseId, instanceId, workflow, fate).Some?
    ensures var s := Created(db, caseId, instanceId, workflow, fate).value;
            && Extends(db, s) && s.definitions == db.definitions && s.submissions == db.submissions
            && s.cases.Keys == db.cases.Keys + {caseId} && s.instances.Keys == db.instances.Keys + {instanceId}
            && Mirrors(s, caseId) && Owned(s, instanceId)
  {
  }

  ghost predicate Extends(a: Store, b: Store) {
    && (forall c :: c in a.cases ==> c in b.cases && b.cases[c] == a.cases[c])
    && (forall i :: i in a.instances ==> i in b.instances && b.instances[i] == a.instances[i])
  }

  lemma StillMirrors(a: Store, b: Store, c: Id)
    requires Extends(a, b) && c in a.cases && Mirrors(a, c)
    ensures Mirrors(b, c)
  {
  }

  lemma StillOwned(a: Store, b: Store, i: Id)
    requires Extends(a, b) && i in a.instances && Owned(a, i)
    ensures Owned(b, i)
  {
  }

  /** A new case mirrors its instance exactly when the workflow names its initial state. */
  lemma CreatedMirrorsIffNamed(db: Store, caseId: Id, instanceId: Id, workflow: Id, fate: Fate)
    requires Created(db, caseId, instanceId, workflow, fate).Some?
    ensures Mirrors(Created(db, caseId, instanceId, workflow, fate).value, caseId) <==>
            db.definitions[workflow].initial != ""
  {
  }

  /** The compare-and-set makes a stale plan harmless: a transition that commits leaves the state
      that was planned for. */
  lemma TransitionIsSafe(fmt: Submissions.Formats, db: Store, seen: Store, instanceId: Id, key: string, role: string,
                         fate: Fate)
    requires Consistent(db) && Later(seen, db)
    requires TransitionTx(db, seen, instanceId, key, role, fate).Some?
    ensures StepSafe(fmt, db, TransitionTx(db, seen, instanceId, key, role, fate).value)
  {
    hide GatePasses, FindByKey, Submissions.ValidSubmission, SameSlot, Mirrors, Owned, NamedInitials;
    var s := TransitionTx(db, seen, instanceId, key, role, fate).value;
    var (inst, t) := Planned(seen, instanceId, key, role).value;
    var terminal := seen.definitions[inst.workflow].terminal[t.to];
    assert InstanceLater(inst, db.instances[instanceId]);
    var moved := MoveInstance(db, instanceId, inst, t.to, terminal).value;
    assert Owned(db, instanceId);
    GateReadsForms(moved, s, inst.caseId, inst.workflow, t.from);
    MoveMirrors(db, instanceId, inst, t, terminal, fate);
  }

  lemma MoveMirrors(db: Store, instanceId: Id, inst: Instance, t: Transition, terminal: bool, fate: Fate)
    requires instanceId in db.instances && db.instances[instanceId] == inst && Owned(db, instanceId)
    requires forall c :: c in db.cases ==> Mirrors(db, c)
    requires forall i :: i in db.instances ==> Owned(db, i)
    requires Observed(MoveInstance(db, instanceId, inst, t.to, terminal).value, inst, t, terminal, fate).Some?
    ensures var s := Observed(MoveInstance(db, instanceId, inst, t.to, terminal).value, inst, t, terminal, fate).value;
            (forall c :: c in s.cases ==> Mirrors(s, c)) && (forall i :: i in s.instances ==> Owned(s, i))
  {
    hide GatePasses;
    var moved := MoveInstance(db, instanceId, inst, t.to, terminal).value;
    var s := Observed(moved, inst, t, terminal, fate).value;
    forall c | c in s.cases ensures Mirrors(s, c) {
      assert Mirrors(db, c);
    }
    forall i | i in s.instances ensures Owned(s, i) {
      assert Owned(db, i);
    }
  }

  lemma GateReadsForms(a: Store, b: Store, caseId: Id, workflow: Id, state: string)
    requires a.assignments == b.assignments && a.submissions == b.submissions
    ensures GatePasses(a, caseId, workflow, state) == GatePasses(b, caseId, workflow, state)
  {
  }

  lemma SubmittingIsSafe(fmt: Submissions.Formats, db: Store, inst: Instance, caseId: Id, version: Id,
                         data: Submissions.Data, fate: Fate)
    requires Consistent(db) && SubmissionTx(fmt, db, inst, caseId, version, data, fate).Some?
    ensures StepSafe(fmt, db, SubmissionTx(fmt, db, inst, caseId, version, data, fate).value)
  {
    hide Submissions.ValidSubmission, GatePasses;
    var s := SubmissionTx(fmt, db, inst, caseId, version, data, fate).value;
    forall c | c in s.cases ensures Mirrors(s, c) { assert Mirrors(db, c); }
    forall i | i in s.instances ensures Owned(s, i) { assert Owned(db, i); }
    var n := |db.submissions|;
    forall i, j | 0 <= i < j < |s.submissions| ensures !SameSlot(s.submissions[i], s.submissions[j]) {
      assert s.submissions[i] == db.submissions[i];
      if j == n {
        assert !IsFor(db.submissions[i], caseId, version);
      } else {
        assert !SameSlot(db.submissions[i], db.submissions[j]);
      }
    }
  }

  lemma AdministeringIsSafe(fmt: Submissions.Formats, db: Store, s: Store)
    requires Consistent(db) && NamedInitials(s.definitions)
    requires s == db.(definitions := s.definitions, assignments := s.assignments, archived := s.archived,
                      versions := s.versions)
    ensures StepSafe(fmt, db, s)
  {
    hide Submissions.ValidSubmission, SameSlot;
    forall c | c in s.cases ensures Mirrors(s, c) { assert Mirrors(db, c); }
    forall i | i in s.instances ensures Owned(s, i) { assert Owned(db, i); }
  }

  lemma ActionIsSafe(fmt: Submissions.Formats, history: seq<Store>, a: Action)
    requires history != [] && Consistent(history[|history| - 1])
    requires AllEarlier(history, history[|history| - 1])
    ensures StepSafe(fmt, history[|history| - 1], Do(fmt, history, a))
  {
    hide StepSafe, Consistent, Later, Created, TransitionTx, SubmissionTx, Submissions.ValidSubmission;
    hide GatePasses, NamedInitials, Targeted;
    var db := history[|history| - 1];
    StayingIsSafe(fmt, db);
    match Attempt(fmt, history, a) {
      case None =>
      case Some(s) =>
        match a
        case Create(c, i, w, fate) => CreatingIsSafe(fmt, db, c, i, w, fate);
        case Transit(seen, i, key, role, fate) => TransitionIsSafe(fmt, db, history[seen], i, key, role, fate);
        case ChangeStatus(first, listed, seen, c, status, role, fate) =>
          var (i, _, t) := Targeted(history[first], history[listed], c, status).value;
          TransitionIsSafe(fmt, db, history[seen], i, t.key, role, fate);
        case Submit(seen, c, v, data, fate) =>
          var inst := history[seen].instances[history[seen].cases[c].instance.value];
          SubmittingIsSafe(fmt, db, inst, c, v, data, fate);
        case Administer(ds, assignments, archived, versions) => AdministeringIsSafe(fmt, db, s);
    }
  }

  // ----- whole runs -----

  ghost predicate Step(fmt: Submissions.Formats, h: seq<Store>, k: nat)
    requires k + 1 < |h|
  {
    StepSafe(fmt, h[k], h[k + 1])
  }

  /** Every store is consistent and every step is safe. */
  ghost predicate Safe(fmt: Submissions.Formats, h: seq<Store>) {
    && (forall k :: 0 <= k < |h| ==> Consistent(h[k]))
    && (forall k :: 0 <= k < |h| - 1 ==> Step(fmt, h, k))
  }

  ghost predicate AllEarlier(h: seq<Store>, s: Store) {
    forall k :: 0 <= k < |h| ==> Later(h[k], s)
  }

  lemma SafeExtends(fmt: Submissions.Formats, h: seq<Store>, s: Store)
    requires h != [] && Safe(fmt, h) && AllEarlier(h, h[|h| - 1]) && StepSafe(fmt, h[|h| - 1], s)
    ensures Safe(fmt, h + [s]) && AllEarlier(h + [s], s)
  {
    hide Consistent, Later, StepSafe;
    var g := h + [s];
    StepSafeMeans(fmt, h[|h| - 1], s);
    LaterReflexive(s);
    forall k | 0 <= k < |g| ensures Later(g[k], s) {
      if k < |h| { LaterTransitive(h[k], h[|h| - 1], s); }
    }
    forall k | 0 <= k < |g| - 1 ensures Step(fmt, g, k) {
      assert k < |h| - 1 ==> Step(fmt, h, k);
    }
  }

  /** Workflow safety: in every run, every store is consistent, so a case's status is the state of
      its instance and no case has two submissions for one form version; and every step that
      takes a case out of a state finds, when it commits, a submission for each active required
      assignment of that state, and every submission it stores is valid. */
  lemma {:induction false} RunIsSafe(fmt: Submissions.Formats, start: Store, actions: seq<Action>)
    requires Fresh(start)
    ensures Safe(fmt, Run(fmt, start, actions))
    ensures AllEarlier(Run(fmt, start, actions), Run(fmt, start, actions)[|actions|])
  {
    hide Consistent, Later, Do, StepSafe, Safe;
    if actions == [] {
      FreshIsSafe(fmt, start);
    } else {
      var n := |actions| - 1;
      var before := Run(fmt, start, actions[..n]);
      RunIsSafe(fmt, start, actions[..n]);
      SafeMeans(fmt, before, n);
      ActionIsSafe(fmt, before, actions[n]);
      SafeExtends(fmt, before, Do(fmt, before, actions[n]));
    }
  }

  lemma SafeMeans(fmt: Submissions.Formats, h: seq<Store>, k: nat)
    requires Safe(fmt, h) && k < |h|
    ensures Consistent(h[k]) && (k + 1 < |h| ==> StepSafe(fmt, h[k], h[k + 1]))
  {
    hide Consistent, StepSafe;
    assert k + 1 < |h| ==> Step(fmt, h, k);
  }

  lemma StepSafeMeans(fmt: Submissions.Formats, a: Store, b: Store)
    requires StepSafe(fmt, a, b)
    ensures Consistent(b) && Later(a, b)
  {
  }

  lemma LaterReflexive(s: Store)
    ensures Later(s, s)
  {
  }

  lemma FreshIsSafe(fmt: Submissions.Formats, s: Store)
    requires Fresh(s)
    ensures Safe(fmt, [s]) && AllEarlier([s], s)
  {
  }

  /** Every submission in the last store was accepted by some step of the run. */
  lemma {:induction false} SubmissionHasStep(fmt: Submissions.Formats, start: Store, actions: seq<Action>, i: nat)
      returns (k: nat)
    requires Fresh(start) && i < |Run(fmt, start, actions)[|actions|].submissions|
    ensures k < |actions| && Accepted(fmt, Run(fmt, start, actions)[k],
                                      Run(fmt, start, actions)[|actions|].submissions[i])
  {
    hide Do, Accepted, Consistent, Later;
    var n := |actions| - 1;
    var h := Run(fmt, start, actions);
    var before := Run(fmt, start, actions[..n]);
    RunIsSafe(fmt, start, actions);
    SafeMeans(fmt, h, n);
    assert h[n] == before[n];
    if i < |h[n].submissions| {
      k := SubmissionHasStep(fmt, start, actions[..n], i);
      assert h[k] == before[k];
    } else {
      k := n;
    }
  }
}
