/** What the decisions about cases ask for, told from the fields of the records. */
module CaseMeanings {
  import opened Common
  import Submissions
  import opened CaseStore
  import opened CaseWorkflow
  import opened CaseRuns
  import opened CaseMoves

  // ----- gate and report -----

  lemma SubmittedMeans(s: Store, caseId: Id, version: Id)
    ensures Submitted(s, caseId, version) <==>
            exists k :: 0 <= k < |s.submissions| && s.submissions[k].caseId == caseId
                        && s.submissions[k].version == version
  {
    if Submitted(s, caseId, version) {
      var k :| 0 <= k < |s.submissions| && IsFor(s.submissions[k], caseId, version);
      assert s.submissions[k].caseId == caseId && s.submissions[k].version == version;
    }
    if k :| 0 <= k < |s.submissions| && s.submissions[k].caseId == caseId && s.submissions[k].version == version {
      assert IsFor(s.submissions[k], caseId, version);
    }
  }

  /** The gate asks for a submission by the case for every assignment of the workflow and the state
      that is active and required. */
  lemma GatePassesIff(s: Store, caseId: Id, workflow: Id, state: string)
    ensures GatePasses(s, caseId, workflow, state) <==>
            forall i :: 0 <= i < |s.assignments| ==>
              var a := s.assignments[i];
              a.workflow == workflow && a.state == state && a.active && a.required ==>
                exists k :: 0 <= k < |s.submissions| && s.submissions[k].caseId == caseId
                            && s.submissions[k].version == a.version
  {
    hide Submitted;
    forall i | 0 <= i < |s.assignments|
      ensures Submitted(s, caseId, s.assignments[i].version) <==>
              exists k :: 0 <= k < |s.submissions| && s.submissions[k].caseId == caseId
                          && s.submissions[k].version == s.assignments[i].version
    {
      SubmittedMeans(s, caseId, s.assignments[i].version);
    }
    assert forall a :: Demands(a, workflow, state) <==>
                       a.workflow == workflow && a.state == state && a.active && a.required;
    hide Demands;
  }

  /** The report asks for the same, but only where the form is not archived and the version
      published. */
  lemma CanProceedIff(s: Store, caseId: Id, workflow: Id, state: string)
    ensures CanProceed(s, caseId, workflow, state) <==>
            forall i :: 0 <= i < |s.assignments| ==>
              var a := s.assignments[i];
              && a.workflow == workflow && a.state == state && a.active && a.required
              && a.form in s.archived && !s.archived[a.form]
              && a.version in s.versions && s.versions[a.version].published ==>
                exists k :: 0 <= k < |s.submissions| && s.submissions[k].caseId == caseId
                            && s.submissions[k].version == a.version
  {
    hide Submitted;
    forall i | 0 <= i < |s.assignments|
      ensures Submitted(s, caseId, s.assignments[i].version) <==>
              exists k :: 0 <= k < |s.submissions| && s.submissions[k].caseId == caseId
                          && s.submissions[k].version == s.assignments[i].version
    {
      SubmittedMeans(s, caseId, s.assignments[i].version);
    }
  }

  // ----- submissions -----

  /** The instance that a submission has read. */
  predicate InstanceRead(seen: Store, caseId: Id, inst: Instance) {
    && caseId in seen.cases && seen.cases[caseId].instance.Some?
    && seen.cases[caseId].instance.value in seen.instances
    && seen.instances[seen.cases[caseId].instance.value] == inst
  }

  lemma AssignedMeans(all: seq<Assignment>, workflow: Id, state: string, version: Id)
    ensures AssignedTo(all, workflow, state, version) <==>
            exists i :: 0 <= i < |all| && all[i].workflow == workflow && all[i].state == state
                        && all[i].version == version && all[i].active
  {
    if AssignedTo(all, workflow, state, version) {
      var i :| 0 <= i < |all| && Offers(all[i], workflow, state, version);
      assert all[i].workflow == workflow;
    }
    if i :| 0 <= i < |all| && all[i].workflow == workflow && all[i].state == state
            && all[i].version == version && all[i].active {
      assert Offers(all[i], workflow, state, version);
    }
  }

  /** A submission commits exactly when the form version is assigned, actively, to the workflow and
      state of the instance that was read, is published, its form not archived, nothing has been
      submitted for it, the data are valid for both reads of the fields, and nothing that is not
      modelled fails. */
  lemma SubmissionCommitsIff(fmt: Submissions.Formats, db: Store, seen: Store, caseId: Id, version: Id,
                             data: Submissions.Data, fate: Fate)
    ensures FormSubmitted(fmt, db, seen, caseId, version, data, fate).Some? <==>
            && (exists inst :: InstanceRead(seen, caseId, inst)
                  && exists i :: 0 <= i < |db.assignments| && db.assignments[i].workflow == inst.workflow
                                 && db.assignments[i].state == inst.state && db.assignments[i].version == version
                                 && db.assignments[i].active)
            && version in db.versions && db.versions[version].published
            && db.versions[version].form in db.archived && !db.archived[db.versions[version].form]
            && (forall k :: 0 <= k < |db.submissions| ==>
                  !(db.submissions[k].caseId == caseId && db.submissions[k].version == version))
            && Submissions.ValidSubmission(fmt, data,
                                           if version in seen.versions then seen.versions[version].fields else [])
            && Submissions.ValidSubmission(fmt, data, db.versions[version].fields)
            && fate.accepted && fate.commits
  {
    hide Submissions.ValidSubmission, Submitted, AssignedTo;
    SubmittedMeans(db, caseId, version);
    if caseId in seen.cases && seen.cases[caseId].instance.Some?
       && seen.cases[caseId].instance.value in seen.instances {
      var inst := seen.instances[seen.cases[caseId].instance.value];
      assert InstanceRead(seen, caseId, inst);
      AssignedMeans(db.assignments, inst.workflow, inst.state, version);
    }
  }

  /** It adds one submission and changes nothing else. */
  lemma SubmissionAdds(fmt: Submissions.Formats, db: Store, seen: Store, caseId: Id, version: Id,
                       data: Submissions.Data, fate: Fate)
    requires FormSubmitted(fmt, db, seen, caseId, version, data, fate).Some?
    ensures version in db.versions
    ensures FormSubmitted(fmt, db, seen, caseId, version, data, fate).value ==
            db.(submissions := db.submissions + [Submission(caseId, db.versions[version].form, version, data)])
  {
    hide Submissions.ValidSubmission, Submitted, AssignedTo;
  }

  /** Some assignment of the store is active, for this version, in the workflow and state of the
      instance that some earlier store has for the case. */
  ghost predicate AssignedWhenRead(db: Store, seen: Store, caseId: Id, version: Id) {
    exists inst, i :: InstanceRead(seen, caseId, inst) && 0 <= i < |db.assignments|
      && db.assignments[i].workflow == inst.workflow && db.assignments[i].state == inst.state
      && db.assignments[i].version == version && db.assignments[i].active
  }

  lemma OnlySubmitAdds(fmt: Submissions.Formats, h: seq<Store>, a: Action)
    requires h != []
    ensures !a.Submit? ==> Do(fmt, h, a).submissions == h[|h| - 1].submissions
  {
    hide Submissions.ValidSubmission, GatePasses, NamedInitials, Planned, Targeted, SubmissionTx;
  }

  lemma SubmitAssigned(fmt: Submissions.Formats, h: seq<Store>, a: Action)
    requires h != [] && a.Submit? && Do(fmt, h, a).submissions != h[|h| - 1].submissions
    ensures a.seen < |h| && AssignedWhenRead(h[|h| - 1], h[a.seen], a.caseId, a.version)
    ensures Do(fmt, h, a).submissions ==
            h[|h| - 1].submissions + [Do(fmt, h, a).submissions[|h[|h| - 1].submissions|]]
    ensures var sub := Do(fmt, h, a).submissions[|h[|h| - 1].submissions|];
            sub.caseId == a.caseId && sub.version == a.version
  {
    hide Submissions.ValidSubmission, FormSubmitted;
    var db, seen := h[|h| - 1], h[a.seen];
    SubmissionCommitsIff(fmt, db, seen, a.caseId, a.version, a.data, a.fate);
    SubmissionAdds(fmt, db, seen, a.caseId, a.version, a.data, a.fate);
    var inst :| InstanceRead(seen, a.caseId, inst)
      && exists i :: 0 <= i < |db.assignments| && db.assignments[i].workflow == inst.workflow
                     && db.assignments[i].state == inst.state && db.assignments[i].version == a.version
                     && db.assignments[i].active;
  }

  /** Every submission in the last store of a run was stored by a step at which its version was
      assigned to the state in which some earlier store had the case. */
  lemma {:induction false} SubmissionWasAssigned(fmt: Submissions.Formats, start: Store, actions: seq<Action>, i: nat)
      returns (k: nat, seen: nat)
    requires Fresh(start) && i < |Run(fmt, start, actions)[|actions|].submissions|
    ensures seen <= k < |actions|
    ensures var h, sub := Run(fmt, start, actions), Run(fmt, start, actions)[|actions|].submissions[i];
            AssignedWhenRead(h[k], h[seen], sub.caseId, sub.version)
  {
    hide Do, AssignedWhenRead;
    var n := |actions| - 1;
    var h := Run(fmt, start, actions);
    var before := Run(fmt, start, actions[..n]);
    assert h == before + [Do(fmt, before, actions[n])];
    OnlySubmitAdds(fmt, before, actions[n]);
    if h[n + 1].submissions != h[n].submissions {
      SubmitAssigned(fmt, before, actions[n]);
      if i == |h[n].submissions| {
        k, seen := n, actions[n].seen;
        return;
      }
    }
    k, seen := SubmissionWasAssigned(fmt, start, actions[..n], i);
    assert h[k] == before[k] && h[seen] == before[seen];
  }

  // ----- creation -----

  /** A case is created exactly under new identifiers, with at most two conflicts over its number,
      for an active workflow, if nothing that is not modelled fails; it starts in the initial state
      of the workflow, or as "NEW" if that has no name, and closed only if it is one of the two
      closing states. */
  lemma CreationCommitsIff(db: Store, caseId: Id, instanceId: Id, workflow: Id, fate: Fate)
    ensures Created(db, caseId, instanceId, workflow, fate).Some? <==>
            && fate.accepted && fate.commits && fate.conflicts <= 2
            && caseId !in db.cases && instanceId !in db.instances
            && workflow in db.definitions && db.definitions[workflow].active
    ensures Created(db, caseId, instanceId, workflow, fate).Some? ==>
              var state := db.definitions[workflow].initial;
              var status := if state == "" then "NEW" else state;
              Created(db, caseId, instanceId, workflow, fate).value ==
              db.(cases := db.cases[caseId := Case(status, status, Some(instanceId), workflow, 2,
                                                   status == "CLOSED" || status == "REJECTED")],
                  instances := db.instances[instanceId := Instance(caseId, workflow, state, 1, false)])
  {
  }

  // ----- changes of status -----

  /** The transition that a change of status takes: the first that leads there. */
  predicate FirstTo(def: Definition, state: string, status: string, i: nat)
    requires i < |def.transitions|
  {
    && LeadsTo(def, state, status, i)
    && forall k :: 0 <= k < i ==> !LeadsTo(def, state, status, k)
  }

  predicate LeadsTo(def: Definition, state: string, status: string, i: nat)
    requires i < |def.transitions|
  {
    def.transitions[i].from == state && def.transitions[i].to == status && def.transitions[i].active
  }

  lemma {:induction false} FoundTarget(ts: seq<Transition>, def: Definition, state: string, status: string)
      returns (i: nat)
    requires FindByTarget(ts, def, state, status).Some?
    ensures i < |ts| && FindByTarget(ts, def, state, status) == Some(ts[i])
    ensures ts[i].from == state && ts[i].to == status && ts[i].active
    ensures forall k :: 0 <= k < i ==> !(ts[k].from == state && ts[k].to == status && ts[k].active)
    decreases |ts|
  {
    if ts[0].from == state && ts[0].active && ts[0].to in def.terminal && ts[0].to == status {
      i := 0;
    } else {
      i := FoundTarget(ts[1..], def, state, status);
      i := i + 1;
      assert forall k :: 0 < k < i ==> ts[k] == ts[1..][k - 1];
    }
  }

  /** On current records, where a key names one transition, the status changes exactly when the first
      transition to it is open to the role, the state is not terminal and the target known, the gate
      passes, and nothing that is not modelled fails. */
  lemma StatusChangeCommitsIff(db: Store, caseId: Id, status: string, role: string, fate: Fate)
    requires Consistent(db) && caseId in db.cases
    requires var inst := db.instances[db.cases[caseId].instance.value];
             inst.workflow in db.definitions && KeysDiffer(db.definitions[inst.workflow])
    ensures var inst := db.instances[db.cases[caseId].instance.value];
            var def := db.definitions[inst.workflow];
            StatusChanged(db, db, db, db, caseId, status, role, fate).Some? <==>
            && fate.accepted && fate.commits && GatePasses(db, caseId, inst.workflow, inst.state)
            && inst.state in def.terminal && !def.terminal[inst.state] && status in def.terminal
            && exists i :: 0 <= i < |def.transitions| && FirstTo(def, inst.state, status, i)
                           && AllowsRole(def.transitions[i], role)
  {
    hide GatePasses, NamedInitials, SameSlot, KeysDiffer, AllowsRole, Transitioned;
    assert Mirrors(db, caseId);
    var id := db.cases[caseId].instance.value;
    var inst := db.instances[id];
    var def := db.definitions[inst.workflow];
    var found := FindByTarget(def.transitions, def, inst.state, status);
    if found.Some? {
      var i := FoundTarget(def.transitions, def, inst.state, status);
      assert FirstTo(def, inst.state, status, i);
      assert Targeted(db, db, caseId, status) == Some((id, inst, def.transitions[i]));
      TransitionCommitsIff(db, id, def.transitions[i].key, role, fate);
      TakesFirst(def, inst, def.transitions[i], role);
    }
  }

  /** The transition that leads an instance to a status, among the records listed. */
  predicate Chosen(listed: Store, inst: Instance, status: string, t: Transition) {
    && inst.workflow in listed.definitions && status in listed.definitions[inst.workflow].terminal
    && exists i :: 0 <= i < |listed.definitions[inst.workflow].transitions|
                   && FirstTo(listed.definitions[inst.workflow], inst.state, status, i)
                   && t == listed.definitions[inst.workflow].transitions[i]
  }

  lemma ChosenIsTarget(listed: Store, inst: Instance, status: string, t: Transition)
    requires inst.workflow in listed.definitions
    ensures var def := listed.definitions[inst.workflow];
            Chosen(listed, inst, status, t) <==> FindByTarget(def.transitions, def, inst.state, status) == Some(t)
  {
    hide FindByTarget;
    var def := listed.definitions[inst.workflow];
    if FindByTarget(def.transitions, def, inst.state, status).Some? {
      var i := FoundTarget(def.transitions, def, inst.state, status);
      assert FirstTo(def, inst.state, status, i);
    }
  }

  /** Whatever the records that are read, the status changes exactly when the first transition to it
      out of the state listed has a known target, the gate passes for the state that was read first,
      and the engine takes the transition under its key. */
  lemma StaleStatusChangeCommitsIff(db: Store, first: Store, listed: Store, seen: Store, caseId: Id, status: string,
                                    role: string, fate: Fate)
    ensures StatusChanged(db, first, listed, seen, caseId, status, role, fate).Some? <==>
            exists id, inst, t ::
              && caseId in first.cases && first.cases[caseId].instance == Some(id) && InstanceRead(first, caseId, inst)
              && GatePasses(db, caseId, inst.workflow, inst.state)
              && id in listed.instances && Chosen(listed, listed.instances[id], status, t)
              && Transitioned(db, seen, id, t.key, role, fate).Some?
  {
    hide GatePasses, Transitioned, FindByTarget, FirstTo;
    if caseId in first.cases && first.cases[caseId].instance.Some?
       && first.cases[caseId].instance.value in first.instances
       && first.cases[caseId].instance.value in listed.instances
       && listed.instances[first.cases[caseId].instance.value].workflow in listed.definitions {
      var id := first.cases[caseId].instance.value;
      var inst, now := first.instances[id], listed.instances[id];
      assert InstanceRead(first, caseId, inst);
      forall t
        ensures Chosen(listed, now, status, t) <==> Targeted(first, listed, caseId, status) == Some((id, inst, t))
      {
        ChosenIsTarget(listed, now, status, t);
      }
      hide Chosen;
    }
  }

  /** Under its key, a transition is the one that is taken. */
  lemma TakesFirst(def: Definition, inst: Instance, t: Transition, role: string)
    requires KeysDiffer(def) && t in def.transitions && t.active && t.from == inst.state
    ensures (exists u :: Leads(def, inst, u) && u.key == t.key && AllowsRole(u, role)) <==>
            inst.state in def.terminal && !def.terminal[inst.state] && t.to in def.terminal && AllowsRole(t, role)
  {
    hide KeysDiffer, AllowsRole;
    if u :| Leads(def, inst, u) && u.key == t.key && AllowsRole(u, role) {
      SameKey(def, t, u);
    }
  }
}
