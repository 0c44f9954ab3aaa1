/** The service behind cases, over a store that its transactions change in place. */
module CaseOperations {
  import opened Common
  import Submissions
  import opened CaseStore
  import opened CaseWorkflow
  import opened CaseRuns

  lemma FindStep(ts: seq<Transition>, i: nat, state: string, key: string)
    requires i < |ts|
    ensures FindByKey(ts[i..], state, key) ==
            if ts[i].from == state && ts[i].key == key && ts[i].active then Some(ts[i])
            else FindByKey(ts[i + 1..], state, key)
  {
    assert ts[i..][0] == ts[i] && ts[i..][1..] == ts[i + 1..];
  }

  /** The loop of `executeTransition` that looks for the transition. */
  method FindTransition(ts: seq<Transition>, state: string, key: string) returns (r: Option<Transition>)
    ensures r == FindByKey(ts, state, key)
  {
    hide FindByKey;
    assert ts[0..] == ts;
    for i := 0 to |ts|
      invariant FindByKey(ts[i..], state, key) == FindByKey(ts, state, key)
    {
      FindStep(ts, i, state, key);
      if ts[i].from == state && ts[i].key == key && ts[i].active {
        return Some(ts[i]);
      }
    }
    assert ts[|ts|..] == [];
    assert FindByKey([], state, key) == None by { FindNothing(state, key); }
    return None;
  }

  lemma FindNothing(state: string, key: string)
    ensures FindByKey([], state, key) == None
  {
  }

  lemma TargetStep(ts: seq<Transition>, i: nat, def: Definition, state: string, status: string)
    requires i <= |ts|
    ensures FindByTarget(ts[i..], def, state, status) ==
            if i == |ts| then None
            else if ts[i].from == state && ts[i].active && ts[i].to in def.terminal && ts[i].to == status then
              Some(ts[i])
            else FindByTarget(ts[i + 1..], def, state, status)
  {
    if i < |ts| { assert ts[i..][0] == ts[i] && ts[i..][1..] == ts[i + 1..]; }
  }

  /** `GetValidTransitions` and the search for the wanted status. */
  method FindTarget(def: Definition, state: string, status: string) returns (r: Option<Transition>)
    ensures r == FindByTarget(def.transitions, def, state, status)
  {
    hide FindByTarget;
    var ts := def.transitions;
    assert ts[0..] == ts;
    for i := 0 to |ts|
      invariant FindByTarget(ts[i..], def, state, status) == FindByTarget(ts, def, state, status)
    {
      TargetStep(ts, i, def, state, status);
      if ts[i].from != state || !ts[i].active || ts[i].to !in def.terminal {
        continue;
      }
      if ts[i].to == status {
        return Some(ts[i]);
      }
    }
    TargetStep(ts, |ts|, def, state, status);
    return None;
  }

  /** What `executeTransition` reads and checks before it writes. */
  method PlanTransition(seen: Store, instanceId: Id, key: string, role: string)
      returns (r: Option<(Instance, Transition)>)
    ensures r == Planned(seen, instanceId, key, role)
  {
    hide FindByKey;
    if instanceId !in seen.instances {
      return None;
    }
    var inst := seen.instances[instanceId];
    if inst.workflow !in seen.definitions {
      return None;
    }
    var def := seen.definitions[inst.workflow];
    if inst.state !in def.terminal {
      return None;
    }
    if def.terminal[inst.state] {
      return None;
    }
    var transition := FindTransition(def.transitions, inst.state, key);
    if transition.None? {
      return None;
    }
    var t := transition.value;
    if |t.roles| > 0 {
      var allowed := false;
      for i := 0 to |t.roles|
        invariant !allowed && role !in t.roles[..i]
      {
        if t.roles[i] == role {
          allowed := true;
          break;
        }
      }
      if !allowed {
        return None;
      }
    }
    if t.to !in def.terminal {
      return None;
    }
    return Some((inst, t));
  }

  /** `UpdateStateTx`, then `CompleteTx` if the target is terminal; both compare the version. */
  method UpdateInstance(db: Store, instanceId: Id, inst: Instance, to: string, terminal: bool)
      returns (r: Option<Store>)
    ensures r == MoveInstance(db, instanceId, inst, to, terminal)
  {
    if instanceId !in db.instances || db.instances[instanceId].version != inst.version {
      return None;
    }
    var moved := db.instances[instanceId].(state := to, version := inst.version + 1);
    if terminal {
      if moved.version != inst.version + 1 {
        return None;
      }
      moved := moved.(completed := true, version := moved.version + 1);
    }
    return Some(db.(instances := db.instances[instanceId := moved]));
  }

  /** Every operation keeps the store consistent and takes a safe step, from whatever earlier stores
      it has read. */
  class CaseService {
    var db: Store
    const fmt: Submissions.Formats

    constructor (fmt: Submissions.Formats, db: Store)
      ensures this.fmt == fmt && this.db == db
    {
      this.fmt, this.db := fmt, db;
    }

    method CreateCase(caseId: Id, instanceId: Id, workflow: Id, fate: Fate) returns (ok: bool)
      modifies this
      ensures var r := Created(old(db), caseId, instanceId, workflow, fate);
              ok == r.Some? && db == if ok then r.value else old(db)
      ensures Consistent(old(db)) ==> StepSafe(fmt, old(db), db)
    {
      hide Consistent, StepSafe;
      ok := CreateInTx(caseId, instanceId, workflow, fate);
      if Consistent(old(db)) {
        StayingIsSafe(fmt, old(db));
        if ok { CreatingIsSafe(fmt, old(db), caseId, instanceId, workflow, fate); }
      }
    }

    method CreateInTx(caseId: Id, instanceId: Id, workflow: Id, fate: Fate) returns (ok: bool)
      modifies this
      ensures var r := Created(old(db), caseId, instanceId, workflow, fate);
              ok == r.Some? && db == if ok then r.value else old(db)
    {
      if !fate.accepted || caseId in db.cases || instanceId in db.instances {
        return false;
      }
      var c := Case("NEW", "", None, workflow, 1, false);
      var attempts: nat := 0;
      // The case number is drawn again when it is taken.
      while attempts < fate.conflicts
        invariant attempts <= fate.conflicts && attempts < MAX_RETRIES
      {
        if attempts >= MAX_RETRIES - 1 {
          return false;
        }
        attempts := attempts + 1;
      }
      if workflow !in db.definitions || !db.definitions[workflow].active {
        return false;
      }
      var tx := db;
      var inst := Instance(caseId, workflow, db.definitions[workflow].initial, 1, false);
      tx := tx.(instances := tx.instances[instanceId := inst]);
      c := c.(instance := Some(instanceId), workflowState := inst.state);
      c := SyncStatus(c, inst.state);
      tx := tx.(cases := tx.cases[caseId := c.(workflowState := c.status, version := c.version + 1)]);
      if !fate.commits {
        return false;
      }
      db := tx;
      return true;
    }

    /** `OnTransition`, inside the transaction `tx`. */
    method OnTransition(tx: Store, inst: Instance, t: Transition, terminal: bool, fate: Fate)
        returns (r: Option<Store>)
      ensures r == Observed(tx, inst, t, terminal, fate)
    {
      var missing := CheckRequiredForms(tx, inst.caseId, inst.workflow, t.from);
      if missing != [] {
        return None;
      }
      if inst.caseId !in tx.cases || !fate.accepted {
        return None;
      }
      var c := tx.cases[inst.caseId];
      c := c.(status := t.to, workflowState := t.to, version := c.version + 1, closed := terminal);
      return Some(tx.(cases := tx.cases[inst.caseId := c]));
    }

    method ExecuteTransitionInTx(tx: Store, seen: Store, instanceId: Id, key: string, role: string, fate: Fate)
        returns (r: Option<Store>)
      ensures r == TransitionTx(tx, seen, instanceId, key, role, fate)
    {
      hide MoveInstance, Observed;
      var plan := PlanTransition(seen, instanceId, key, role);
      if plan.None? {
        return None;
      }
      var (inst, t) := plan.value;
      var terminal := seen.definitions[inst.workflow].terminal[t.to];
      var moved := UpdateInstance(tx, instanceId, inst, t.to, terminal);
      if moved.None? {
        return None;
      }
      r := OnTransition(moved.value, inst, t, terminal, fate);
    }

    method ExecuteTransition(seen: Store, instanceId: Id, key: string, role: string, fate: Fate) returns (ok: bool)
      modifies this
      ensures var r := Transitioned(old(db), seen, instanceId, key, role, fate);
              ok == r.Some? && db == if ok then r.value else old(db)
      ensures Consistent(old(db)) && Later(seen, old(db)) ==> StepSafe(fmt, old(db), db)
    {
      hide TransitionTx, Consistent, Later, StepSafe;
      var tx := ExecuteTransitionInTx(db, seen, instanceId, key, role, fate);
      if Consistent(db) && Later(seen, db) {
        StayingIsSafe(fmt, db);
        if tx.Some? { TransitionIsSafe(fmt, db, seen, instanceId, key, role, fate); }
      }
      if tx.None? || !fate.commits {
        return false;
      }
      db := tx.value;
      return true;
    }

    method ChangeStatus(first: Store, listed: Store, seen: Store, caseId: Id, status: string, role: string,
                        fate: Fate) returns (ok: bool)
      modifies this
      ensures var r := StatusChanged(old(db), first, listed, seen, caseId, status, role, fate);
              ok == r.Some? && db == if ok then r.value else old(db)
      ensures Consistent(old(db)) && Later(seen, old(db)) ==> StepSafe(fmt, old(db), db)
    {
      hide GatePasses, TransitionTx, Targeted, Consistent, Later, StepSafe;
      if Consistent(db) { StayingIsSafe(fmt, db); }
      var target := Choose(first, listed, caseId, status);
      if target.None? {
        return false;
      }
      var (instanceId, inst, t) := target.value;
      var missing := CheckRequiredForms(db, caseId, inst.workflow, inst.state);
      if missing != [] {
        return false;
      }
      var tx := ExecuteTransitionInTx(db, seen, instanceId, t.key, role, fate);
      if tx.None? || !fate.commits {
        return false;
      }
      if Consistent(db) && Later(seen, db) { TransitionIsSafe(fmt, db, seen, instanceId, t.key, role, fate); }
      db := tx.value;
      return true;
    }

    /** The reads of `changeStatusViaWorkflow` before its transaction. */
    method Choose(first: Store, listed: Store, caseId: Id, status: string)
        returns (r: Option<(Id, Instance, Transition)>)
      ensures r == Targeted(first, listed, caseId, status)
    {
      hide FindByTarget;
      if caseId !in first.cases || first.cases[caseId].instance.None? {
        return None;
      }
      var instanceId := first.cases[caseId].instance.value;
      if instanceId !in first.instances {
        return None;
      }
      if instanceId !in listed.instances || listed.instances[instanceId].workflow !in listed.definitions {
        return None;
      }
      var now := listed.instances[instanceId];
      var target := FindTarget(listed.definitions[now.workflow], now.state, status);
      if target.None? {
        return None;
      }
      return Some((instanceId, first.instances[instanceId], target.value));
    }

    method SubmitForm(seen: Store, caseId: Id, version: Id, data: Submissions.Data, fate: Fate)
        returns (ok: bool)
      modifies this
      ensures var r := FormSubmitted(fmt, old(db), seen, caseId, version, data, fate);
              ok == r.Some? && db == if ok then r.value else old(db)
      ensures Consistent(old(db)) ==> StepSafe(fmt, old(db), db)
    {
      hide Submissions.ValidSubmission, SubmissionTx, Consistent, StepSafe;
      if Consistent(db) { StayingIsSafe(fmt, db); }
      if caseId !in seen.cases || seen.cases[caseId].instance.None?
         || seen.cases[caseId].instance.value !in seen.instances {
        return false;
      }
      var inst := seen.instances[seen.cases[caseId].instance.value];
      var err := Submissions.ValidateSubmissionData(fmt, data, FieldsOf(seen, version));
      if err.Some? {
        return false;
      }
      ok := SubmitInTx(inst, caseId, version, data, fate);
      if ok && Consistent(old(db)) { SubmittingIsSafe(fmt, old(db), inst, caseId, version, data, fate); }
    }

    /** The transaction of `SubmitForm`. */
    method SubmitInTx(inst: Instance, caseId: Id, version: Id, data: Submissions.Data, fate: Fate)
        returns (ok: bool)
      modifies this
      ensures var r := SubmissionTx(fmt, old(db), inst, caseId, version, data, fate);
              ok == r.Some? && db == if ok then r.value else old(db)
    {
      hide Submissions.ValidSubmission, Submitted;
      if version !in db.versions || !db.versions[version].published {
        return false;
      }
      var form := db.versions[version].form;
      if form !in db.archived || db.archived[form] {
        return false;
      }
      var assignmentFound := false;
      for i := 0 to |db.assignments|
        invariant !assignmentFound && db == old(db)
        invariant forall k :: 0 <= k < i ==> !Offers(db.assignments[k], inst.workflow, inst.state, version)
      {
        if Offers(db.assignments[i], inst.workflow, inst.state, version) {
          assignmentFound := true;
          break;
        }
      }
      if !assignmentFound {
        return false;
      }
      var existing := FindSubmission(db, caseId, version);
      if existing.Some? {
        return false;
      }
      var err := Submissions.ValidateSubmissionData(fmt, data, db.versions[version].fields);
      if err.Some? || !fate.accepted || !fate.commits {
        return false;
      }
      db := db.(submissions := db.submissions + [Submission(caseId, form, version, data)]);
      return true;
    }
  }
}
