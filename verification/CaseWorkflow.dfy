/** What creating cases, submitting forms and moving cases through their workflows does to the store:
    transactions that may be rolled back and that read some records before they begin. */
module CaseWorkflow {
  import opened Common
  import Submissions
  import opened CaseStore

  // ----- updates of single records -----

  /** `IsClosed`. */
  predicate IsClosed(status: string) {
    status == "CLOSED" || status == "REJECTED"
  }

  /** `SyncStatusFromWorkflow`: an empty state changes nothing. */
  function SyncStatus(c: Case, state: string): Case {
    if state == "" then c else c.(status := state, closed := c.closed || IsClosed(state))
  }

  /** What the service does not decide: whether its other checks, the audit record, the rule
      evaluation and the commit succeed, and how often the case number is taken. */
  datatype Fate = Fate(accepted: bool, commits: bool, conflicts: nat)

  const MAX_RETRIES: nat := 3

  // ----- the transactions -----

  /** `CreateCase`, for new identifiers of the case and its workflow instance. `None` is a refusal
      or a rollback. */
  function Created(db: Store, caseId: Id, instanceId: Id, workflow: Id, fate: Fate): Option<Store> {
    if !fate.accepted || caseId in db.cases || instanceId in db.instances then None
    else if fate.conflicts >= MAX_RETRIES then None
    else if workflow !in db.definitions || !db.definitions[workflow].active then None
    else if !fate.commits then None
    else
      var state := db.definitions[workflow].initial;
      var draft := Case("NEW", "", Some(instanceId), workflow, 1, false);
      var synced := SyncStatus(draft, state);
      Some(db.(
        cases := db.cases[caseId := synced.(workflowState := synced.status, version := 2)],
        instances := db.instances[instanceId := Instance(caseId, workflow, state, 1, false)]))
  }

  /** The first active transition with this key out of the state. */
  function FindByKey(ts: seq<Transition>, state: string, key: string): (r: Option<Transition>)
    ensures r.Some? ==> r.value in ts && r.value.from == state && r.value.key == key && r.value.active
    ensures r.None? ==> forall t :: t in ts ==> !(t.from == state && t.key == key && t.active)
  {
    if ts == [] then None
    else if ts[0].from == state && ts[0].key == key && ts[0].active then Some(ts[0])
    else FindByKey(ts[1..], state, key)
  }

  /** What the workflow engine reads before it writes: the instance and the transition to take.
      `seen` is a store from which these records are read, possibly an older one. */
  function Planned(seen: Store, instanceId: Id, key: string, role: string): Option<(Instance, Transition)> {
    if instanceId !in seen.instances then None
    else
      var inst := seen.instances[instanceId];
      if inst.workflow !in seen.definitions then None
      else
        var def := seen.definitions[inst.workflow];
        if inst.state !in def.terminal || def.terminal[inst.state] then None
        else match FindByKey(def.transitions, inst.state, key)
          case None => None
          case Some(t) =>
            if t.roles != [] && role !in t.roles then None
            else if t.to !in def.terminal then None
            else Some((inst, t))
  }

  /** `UpdateStateTx` and, for a terminal target, `CompleteTx`: compare-and-set on the version. */
  function MoveInstance(db: Store, instanceId: Id, inst: Instance, to: string, terminal: bool): Option<Store> {
    if instanceId !in db.instances || db.instances[instanceId].version != inst.version then None
    else
      var moved := db.instances[instanceId].(state := to, version := inst.version + if terminal then 2 else 1,
                                             completed := db.instances[instanceId].completed || terminal);
      Some(db.(instances := db.instances[instanceId := moved]))
  }

  /** `OnTransition`: the gate, then the case follows the instance. */
  function Observed(db: Store, inst: Instance, t: Transition, terminal: bool, fate: Fate): Option<Store> {
    if !GatePasses(db, inst.caseId, inst.workflow, t.from) then None
    else if inst.caseId !in db.cases || !fate.accepted then None
    else
      var c := db.cases[inst.caseId];
      Some(db.(cases := db.cases[inst.caseId := c.(status := t.to, workflowState := t.to, version := c.version + 1,
                                                   closed := terminal)]))
  }

  /** `executeTransition` inside a transaction: the move, then the observer. */
  function TransitionTx(db: Store, seen: Store, instanceId: Id, key: string, role: string, fate: Fate): Option<Store> {
    match Planned(seen, instanceId, key, role)
    case None => None
    case Some((inst, t)) =>
      var terminal := seen.definitions[inst.workflow].terminal[t.to];
      match MoveInstance(db, instanceId, inst, t.to, terminal)
      case None => None
      case Some(moved) => Observed(moved, inst, t, terminal, fate)
  }

  function Transitioned(db: Store, seen: Store, instanceId: Id, key: string, role: string, fate: Fate): Option<Store> {
    if fate.commits then TransitionTx(db, seen, instanceId, key, role, fate) else None
  }

  /** The first active transition that leads to the status. */
  function FindByTarget(ts: seq<Transition>, def: Definition, state: string, status: string): (r: Option<Transition>)
    ensures r.Some? ==> r.value in ts && r.value.from == state && r.value.to == status && r.value.active
    ensures r.Some? ==> status in def.terminal
    ensures r.None? && status in def.terminal ==>
              forall t :: t in ts ==> !(t.from == state && t.to == status && t.active)
  {
    if ts == [] then None
    else if ts[0].from == state && ts[0].active && ts[0].to in def.terminal && ts[0].to == status then Some(ts[0])
    else FindByTarget(ts[1..], def, state, status)
  }

  /** What `changeStatusViaWorkflow` reads first: the case and its instance from `first`, then, once
      more, the instance and its transitions from `listed`; the first transition that leads to the
      wanted status is chosen. */
  function Targeted(first: Store, listed: Store, caseId: Id, status: string): Option<(Id, Instance, Transition)> {
    if caseId !in first.cases || first.cases[caseId].instance.None? then None
    else
      var instanceId := first.cases[caseId].instance.value;
      if instanceId !in first.instances || instanceId !in listed.instances then None
      else if listed.instances[instanceId].workflow !in listed.definitions then None
      else
        var now := listed.instances[instanceId];
        var def := listed.definitions[now.workflow];
        match FindByTarget(def.transitions, def, now.state, status)
        case None => None
        case Some(t) => Some((instanceId, first.instances[instanceId], t))
  }

  /** `changeStatusViaWorkflow`: the engine reads again, from `seen`, and the gate is checked twice,
      at first for the state that was read first. */
  function StatusChanged(db: Store, first: Store, listed: Store, seen: Store, caseId: Id, status: string,
                         role: string, fate: Fate): Option<Store> {
    match Targeted(first, listed, caseId, status)
    case None => None
    case Some((instanceId, inst, t)) =>
      if !GatePasses(db, caseId, inst.workflow, inst.state) then None
      else Transitioned(db, seen, instanceId, t.key, role, fate)
  }

  function FieldsOf(s: Store, version: Id): seq<Submissions.Field> {
    if version in s.versions then s.versions[version].fields else []
  }

  /** `SubmitForm`: the instance and, for a first validation, the fields are read from `seen`
      before the transaction, everything else inside. */
  function FormSubmitted(fmt: Submissions.Formats, db: Store, seen: Store, caseId: Id, version: Id,
                         data: Submissions.Data, fate: Fate): Option<Store> {
    if caseId !in seen.cases || seen.cases[caseId].instance.None? then None
    else if seen.cases[caseId].instance.value !in seen.instances then None
    else if !Submissions.ValidSubmission(fmt, data, FieldsOf(seen, version)) then None
    else SubmissionTx(fmt, db, seen.instances[seen.cases[caseId].instance.value], caseId, version, data, fate)
  }

  function SubmissionTx(fmt: Submissions.Formats, db: Store, inst: Instance, caseId: Id, version: Id,
                        data: Submissions.Data, fate: Fate): Option<Store> {
    if version !in db.versions || !db.versions[version].published then None
    else if db.versions[version].form !in db.archived || db.archived[db.versions[version].form] then None
    else if !AssignedTo(db.assignments, inst.workflow, inst.state, version) then None
    else if Submitted(db, caseId, version) then None
    else if !Submissions.ValidSubmission(fmt, data, db.versions[version].fields) then None
    else if !fate.accepted || !fate.commits then None
    else Some(db.(submissions := db.submissions + [Submission(caseId, db.versions[version].form, version, data)]))
  }

  predicate AssignedTo(all: seq<Assignment>, workflow: Id, state: string, version: Id) {
    exists i :: 0 <= i < |all| && Offers(all[i], workflow, state, version)
  }

  predicate Offers(a: Assignment, workflow: Id, state: string, version: Id) {
    a.workflow == workflow && a.state == state && a.version == version && a.active
  }
}
