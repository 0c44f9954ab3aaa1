/** What the steps of a run do to a case: moves follow the workflow, nothing else changes, and a
    change of status reaches the status that was asked for. */
module CaseMoves {
  import opened Common
  import Submissions
  import opened CaseStore
  import opened CaseWorkflow
  import opened CaseRuns

  // ----- moves follow the workflow -----

  /** An active transition of a definition that leads from the state of an instance, which is not
      terminal, to another of its states. */
  predicate Leads(def: Definition, inst: Instance, t: Transition) {
    && t in def.transitions && t.active && t.from == inst.state
    && inst.state in def.terminal && !def.terminal[inst.state] && t.to in def.terminal
  }

  predicate AllowsRole(t: Transition, role: string) {
    t.roles == [] || role in t.roles
  }

  /** A transition can be planned exactly when the workflow offers one under the key, and the one
      that is planned, the first of that key, is open to the role. */
  lemma PlannedIffOffered(seen: Store, instanceId: Id, key: string, role: string)
    requires instanceId in seen.instances && seen.instances[instanceId].workflow in seen.definitions
    ensures var inst := seen.instances[instanceId];
            var def := seen.definitions[inst.workflow];
            && (Planned(seen, instanceId, key, role).Some? ==>
                  var (i, t) := Planned(seen, instanceId, key, role).value;
                  i == inst && Leads(def, inst, t) && t.key == key && AllowsRole(t, role))
            && (Planned(seen, instanceId, key, role).None? && KeysDiffer(def) ==>
                  forall t :: Leads(def, inst, t) && t.key == key ==> !AllowsRole(t, role))
  {
    hide FindByKey;
    var inst := seen.instances[instanceId];
    var def := seen.definitions[inst.workflow];
    var found := FindByKey(def.transitions, inst.state, key);
    if Planned(seen, instanceId, key, role).None? && KeysDiffer(def) {
      forall t | Leads(def, inst, t) && t.key == key ensures !AllowsRole(t, role) {
        SameKey(def, t, found.value);
      }
    }
  }

  /** A transition key names one transition, as the validation of definitions demands. */
  ghost predicate KeysDiffer(def: Definition) {
    forall i, j :: 0 <= i < j < |def.transitions| ==> def.transitions[i].key != def.transitions[j].key
  }

  lemma SameKey(def: Definition, t: Transition, u: Transition)
    requires KeysDiffer(def) && t in def.transitions && u in def.transitions && t.key == u.key
    ensures t == u
  {
  }

  /** Nothing but one case, its instance and its submissions differs. */
  ghost predicate OnlyCase(a: Store, b: Store, caseId: Id) {
    && (forall c :: c != caseId ==> (c in a.cases <==> c in b.cases))
    && (forall c :: c != caseId && c in a.cases ==> b.cases[c] == a.cases[c])
    && (forall i :: i in a.instances && a.instances[i].caseId != caseId ==>
          i in b.instances && b.instances[i] == a.instances[i])
    && (forall i :: i in b.instances && i !in a.instances ==> b.instances[i].caseId == caseId)
    && a.submissions <= b.submissions
    && (forall k :: |a.submissions| <= k < |b.submissions| ==> b.submissions[k].caseId == caseId)
    && b.definitions == a.definitions && b.assignments == a.assignments
    && b.archived == a.archived && b.versions == a.versions
  }

  /** What a committed transition did: the instance and its case are in the target of a transition
      that the workflow offers, in the definition that was read, from the state the instance had. */
  ghost predicate MovedAlong(a: Store, seen: Store, b: Store, instanceId: Id, key: string, role: string, t: Transition)
    requires instanceId in a.instances
  {
    var inst := a.instances[instanceId];
    && inst.workflow in seen.definitions && Leads(seen.definitions[inst.workflow], inst, t)
    && t.key == key && AllowsRole(t, role)
    && instanceId in b.instances && inst.caseId in a.cases && inst.caseId in b.cases
    && b.instances[instanceId].version ==
       inst.version + (if seen.definitions[inst.workflow].terminal[t.to] then 2 else 1)
    && b.cases[inst.caseId].version == a.cases[inst.caseId].version + 1
    && b.instances[instanceId].state == b.cases[inst.caseId].status == t.to
    && b.cases[inst.caseId].closed == seen.definitions[inst.workflow].terminal[t.to]
    && b.instances[instanceId].completed == (inst.completed || seen.definitions[inst.workflow].terminal[t.to])
  }

  lemma TransitionMovesAlong(db: Store, seen: Store, instanceId: Id, key: string, role: string, fate: Fate)
      returns (t: Transition)
    requires Consistent(db) && Later(seen, db)
    requires TransitionTx(db, seen, instanceId, key, role, fate).Some?
    ensures instanceId in db.instances && instanceId in seen.instances
    ensures var s := TransitionTx(db, seen, instanceId, key, role, fate).value;
            && MovedAlong(db, seen, s, instanceId, key, role, t)
            && OnlyCase(db, s, db.instances[instanceId].caseId) && s.submissions == db.submissions
  {
    hide GatePasses, FindByKey, Mirrors, SameSlot, NamedInitials, KeysDiffer;
    var inst := seen.instances[instanceId];
    PlannedIffOffered(seen, instanceId, key, role);
    t := Planned(seen, instanceId, key, role).value.1;
    assert InstanceLater(inst, db.instances[instanceId]);
    assert Owned(db, instanceId);
  }

  /** On current records, a transition commits exactly when the workflow offers it to the role, the
      gate of the state passes, and nothing that is not modelled fails. */
  lemma TransitionCommitsIff(db: Store, instanceId: Id, key: string, role: string, fate: Fate)
    requires Consistent(db) && instanceId in db.instances
    requires db.instances[instanceId].workflow in db.definitions
    requires KeysDiffer(db.definitions[db.instances[instanceId].workflow])
    ensures var inst := db.instances[instanceId];
            Transitioned(db, db, instanceId, key, role, fate).Some? <==>
            && fate.accepted && fate.commits
            && GatePasses(db, inst.caseId, inst.workflow, inst.state)
            && exists t :: Leads(db.definitions[inst.workflow], inst, t) && t.key == key && AllowsRole(t, role)
  {
    hide GatePasses, FindByKey, Mirrors, SameSlot, NamedInitials, KeysDiffer, Leads, AllowsRole, Planned;
    var inst := db.instances[instanceId];
    PlannedIffOffered(db, instanceId, key, role);
    assert Owned(db, instanceId);
    if Planned(db, instanceId, key, role).Some? {
      var t := Planned(db, instanceId, key, role).value.1;
      LeadsFrom(db.definitions[inst.workflow], inst, t);
      var moved := MoveInstance(db, instanceId, inst, t.to, db.definitions[inst.workflow].terminal[t.to]).value;
      GateReadsForms(db, moved, inst.caseId, inst.workflow, inst.state);
    }
  }

  lemma LeadsFrom(def: Definition, inst: Instance, t: Transition)
    requires Leads(def, inst, t)
    ensures t.from == inst.state && t.to in def.terminal
  {
  }

  /** A step takes every instance whose state it changes along a transition that some store of the
      history offers. */
  ghost predicate Lawful(h: seq<Store>, a: Store, b: Store) {
    forall i :: i in a.instances && i in b.instances && a.instances[i].state != b.instances[i].state ==>
      exists j, t :: 0 <= j < |h| && Offered(h[j], a.instances[i], t) && t.to == b.instances[i].state
  }

  predicate Offered(s: Store, inst: Instance, t: Transition) {
    inst.workflow in s.definitions && Leads(s.definitions[inst.workflow], inst, t)
  }

  /** A step by a client concerns one case. */
  ghost predicate Confined(a: Store, b: Store) {
    exists c :: OnlyCase(a, b, c)
  }

  lemma TransitionIsLawful(h: seq<Store>, db: Store, seen: nat, instanceId: Id, key: string, role: string, fate: Fate)
    requires seen < |h| && Consistent(db) && Later(h[seen], db)
    requires TransitionTx(db, h[seen], instanceId, key, role, fate).Some?
    ensures var s := TransitionTx(db, h[seen], instanceId, key, role, fate).value;
            Lawful(h, db, s) && Confined(db, s)
  {
    hide Consistent, Later, TransitionTx, Leads;
    var s := TransitionTx(db, h[seen], instanceId, key, role, fate).value;
    var t := TransitionMovesAlong(db, h[seen], instanceId, key, role, fate);
    var c := db.instances[instanceId].caseId;
    assert Offered(h[seen], db.instances[instanceId], t);
    forall i | i in db.instances && i in s.instances && db.instances[i].state != s.instances[i].state
      ensures exists j, u :: 0 <= j < |h| && Offered(h[j], db.instances[i], u) && u.to == s.instances[i].state
    {
      OneInstance(db, instanceId, i);
    }
  }

  lemma OneInstance(s: Store, i: Id, j: Id)
    requires Consistent(s) && i in s.instances && j in s.instances && s.instances[i].caseId == s.instances[j].caseId
    ensures i == j
  {
    assert Owned(s, i) && Owned(s, j);
  }

  lemma CreatingIsConfined(h: seq<Store>, db: Store, caseId: Id, instanceId: Id, workflow: Id, fate: Fate)
    requires Consistent(db) && Created(db, caseId, instanceId, workflow, fate).Some?
    ensures var s := Created(db, caseId, instanceId, workflow, fate).value;
            Lawful(h, db, s) && Confined(db, s)
  {
    hide Mirrors, Owned, SameSlot, NamedInitials;
    assert OnlyCase(db, Created(db, caseId, instanceId, workflow, fate).value, caseId);
  }

  lemma SubmittingIsConfined(fmt: Submissions.Formats, h: seq<Store>, db: Store, inst: Instance, caseId: Id,
                             version: Id, data: Submissions.Data, fate: Fate)
    requires SubmissionTx(fmt, db, inst, caseId, version, data, fate).Some?
    ensures var s := SubmissionTx(fmt, db, inst, caseId, version, data, fate).value;
            Lawful(h, db, s) && Confined(db, s)
  {
    hide Submissions.ValidSubmission, Submitted;
    assert OnlyCase(db, SubmissionTx(fmt, db, inst, caseId, version, data, fate).value, caseId);
  }

  /** In every run, every next step moves instances only along transitions of their workflow, and
      unless an administrator takes it, it concerns one case. */
  lemma EveryStepIsLawful(fmt: Submissions.Formats, start: Store, actions: seq<Action>, a: Action)
    requires Fresh(start)
    ensures var h := Run(fmt, start, actions);
            Lawful(h, h[|actions|], Do(fmt, h, a)) && (!a.Administer? ==> Confined(h[|actions|], Do(fmt, h, a)))
  {
    hide Fresh, Consistent, Later, Lawful, Confined, Run, Created, TransitionTx, SubmissionTx, Targeted;
    hide Submissions.ValidSubmission, GatePasses, NamedInitials, Safe;
    var h := Run(fmt, start, actions);
    var db := h[|actions|];
    RunIsSafe(fmt, start, actions);
    SafeMeans(fmt, h, |actions|);
    StayingIsLawful(h, db);
    match Attempt(fmt, h, a) {
      case None =>
      case Some(s) =>
        match a
        case Create(c, i, w, fate) => CreatingIsConfined(h, db, c, i, w, fate);
        case Transit(seen, i, key, role, fate) => TransitionIsLawful(h, db, seen, i, key, role, fate);
        case ChangeStatus(first, listed, seen, c, status, role, fate) =>
          var (i, _, t) := Targeted(h[first], h[listed], c, status).value;
          TransitionIsLawful(h, db, seen, i, t.key, role, fate);
        case Submit(seen, c, v, data, fate) =>
          var inst := h[seen].instances[h[seen].cases[c].instance.value];
          SubmittingIsConfined(fmt, h, db, inst, c, v, data, fate);
        case Administer(_, _, _, _) => SameInstances(h, db, s);
    }
  }

  lemma StayingIsLawful(h: seq<Store>, s: Store)
    ensures Lawful(h, s, s) && Confined(s, s)
  {
    assert OnlyCase(s, s, 0);
  }

  lemma SameInstances(h: seq<Store>, a: Store, b: Store)
    requires b.instances == a.instances
    ensures Lawful(h, a, b)
  {
  }

  // ----- a change of status reaches the status -----

  /** Although the instance, its transitions and the transition that is taken come from three reads,
      a change of status that commits leaves the case in the status that was asked for, if a key
      names one transition and the definition did not change between the last two. */
  lemma ChangeReachesStatus(db: Store, first: Store, listed: Store, seen: Store, caseId: Id, status: string,
                            role: string, fate: Fate)
    requires Consistent(first) && Consistent(db) && Later(first, listed) && Later(listed, seen) && Later(seen, db)
    requires StatusChanged(db, first, listed, seen, caseId, status, role, fate).Some?
    requires var w := Targeted(first, listed, caseId, status).value.1.workflow;
             w in listed.definitions && KeysDiffer(listed.definitions[w])
             && (w in seen.definitions ==> seen.definitions[w] == listed.definitions[w])
    ensures var s := StatusChanged(db, first, listed, seen, caseId, status, role, fate).value;
            caseId in s.cases && s.cases[caseId].status == status
  {
    hide TransitionTx, GatePasses, KeysDiffer, NamedInitials, SameSlot;
    var (i, inst, t) := Targeted(first, listed, caseId, status).value;
    assert Mirrors(first, caseId);
    assert InstanceLater(first.instances[i], listed.instances[i]);
    assert InstanceLater(listed.instances[i], seen.instances[i]);
    assert InstanceLater(seen.instances[i], db.instances[i]);
    var u := TransitionMovesAlong(db, seen, i, t.key, role, fate);
    SameKey(listed.definitions[inst.workflow], t, u);
  }
}
