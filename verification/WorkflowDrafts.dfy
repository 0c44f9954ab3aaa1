/** The two validators of workflow definitions: of the draft in the web client, and of the
    definition that the server receives. */
module WorkflowDrafts {
  import opened Common
  import CaseStore
  import CaseMoves

  datatype Json = Malformed | NoArray | Array

  /** The white space of the client, and what its JSON parser makes of a text. */
  datatype Env = Env(isSpace: char -> bool, parse: string -> Json)

  datatype StateDraft = StateDraft(key: string, name: string, terminal: bool)

  /** `active` and `conditions` may be undefined. */
  datatype TransitionDraft = TransitionDraft(key: string, name: string, from: string, to: string,
                                             active: Option<bool>, conditions: Option<string>)

  datatype Draft = Draft(key: string, name: string, version: int, initial: string,
                         states: seq<StateDraft>, transitions: seq<TransitionDraft>)

  predicate Blank(env: Env, s: string) {
    forall i :: 0 <= i < |s| ==> env.isSpace(s[i])
  }

  // ----- problems -----

  datatype Problem =
    | KeyMissing | NameMissing | VersionTooLow | InitialMissing | NoStates
    | StateKeyMissing(i: nat) | DuplicateState(i: nat) | StateNameMissing(i: nat)
    | InitialUnknown | InitialUnselected
    | TransitionKeyMissing(i: nat) | DuplicateTransition(i: nat) | TransitionNameMissing(i: nat)
    | SourceUnknown(i: nat) | TargetUnknown(i: nat) | SelfLoop(i: nat)
    | ConditionsNoArray(i: nat) | ConditionsMalformed(i: nat) | DescriptorRepeated(i: nat)
    | TerminalLeft(i: nat)

  /** The loop that looks for a problem. */
  function Part(p: Problem): nat {
    if p.KeyMissing? || p.NameMissing? || p.VersionTooLow? || p.InitialMissing? || p.NoStates? then 0
    else if p.StateKeyMissing? || p.DuplicateState? || p.StateNameMissing? then 1
    else if p.InitialUnknown? || p.InitialUnselected? then 2
    else if p.TerminalLeft? then 4
    else 3
  }

  function Place(p: Problem): nat {
    if Part(p) == 0 || Part(p) == 2 then 0 else p.i
  }

  predicate Before(p: Problem, part: nat, i: nat) {
    Part(p) < part || (Part(p) == part && Place(p) < i)
  }

  predicate At(p: Problem, part: nat, i: nat) {
    Part(p) == part && Place(p) == i
  }

  // ----- the draft in the client -----

  /** A state key that the client knows: one that is not blank. */
  predicate DraftKey(env: Env, d: Draft, key: string) {
    !Blank(env, key) && exists j :: 0 <= j < |d.states| && d.states[j].key == key
  }

  predicate StateBefore(d: Draft, i: nat, key: string)
    requires i <= |d.states|
  {
    exists j :: 0 <= j < i && d.states[j].key == key
  }

  predicate TransitionBefore(d: Draft, i: nat, key: string)
    requires i <= |d.transitions|
  {
    exists j :: 0 <= j < i && d.transitions[j].key == key
  }

  /** A transition that is not switched off leaves the state. */
  predicate Left(d: Draft, key: string) {
    exists j :: 0 <= j < |d.transitions| && d.transitions[j].from == key && d.transitions[j].active != Some(false)
  }

  function Conditions(env: Env, t: TransitionDraft): Json {
    if t.conditions.None? || Blank(env, t.conditions.value) then Array else env.parse(t.conditions.value)
  }

  predicate StateProblem(env: Env, d: Draft, p: Problem)
    requires Part(p) == 1
  {
    p.i < |d.states| &&
    match p
    case StateKeyMissing(i) => Blank(env, d.states[i].key)
    case DuplicateState(i) => !Blank(env, d.states[i].key) && StateBefore(d, i, d.states[i].key)
    case StateNameMissing(i) => Blank(env, d.states[i].name)
  }

  predicate TransitionProblem(env: Env, d: Draft, p: Problem)
    requires Part(p) == 3
  {
    p.i < |d.transitions| &&
    var t := d.transitions[p.i];
    match p
    case TransitionKeyMissing(_) => Blank(env, t.key)
    case DuplicateTransition(i) => !Blank(env, t.key) && TransitionBefore(d, i, t.key)
    case TransitionNameMissing(_) => Blank(env, t.name)
    case SourceUnknown(_) => !DraftKey(env, d, t.from)
    case TargetUnknown(_) => !DraftKey(env, d, t.to)
    case SelfLoop(_) => t.from != "" && t.from == t.to
    case ConditionsNoArray(_) => Conditions(env, t) == NoArray
    case ConditionsMalformed(_) => Conditions(env, t) == Malformed
    case DescriptorRepeated(_) => false
  }

  /** What each message of the client means. */
  predicate ClientProblem(env: Env, d: Draft, p: Problem) {
    if Part(p) == 1 then StateProblem(env, d, p)
    else if Part(p) == 3 then TransitionProblem(env, d, p)
    else match p
      case KeyMissing => Blank(env, d.key)
      case NameMissing => Blank(env, d.name)
      case VersionTooLow => d.version < 1
      case InitialMissing => d.initial == ""
      case NoStates => d.states == []
      case InitialUnknown => d.initial != "" && !DraftKey(env, d, d.initial)
      case InitialUnselected => d.initial == "" && exists j :: 0 <= j < |d.states| && !Blank(env, d.states[j].key)
      case TerminalLeft(i) =>
        i < |d.states| && d.states[i].terminal && !Blank(env, d.states[i].key) && Left(d, d.states[i].key)
  }

  lemma ClientPlace(env: Env, d: Draft)
    ensures forall p :: ClientProblem(env, d, p) ==>
              && (Part(p) == 1 || Part(p) == 4 ==> Place(p) < |d.states|)
              && (Part(p) == 2 ==> Place(p) == 0)
              && (Part(p) == 3 ==> Place(p) < |d.transitions|)
              && Part(p) <= 4
  {
    hide Blank, DraftKey, StateBefore, TransitionBefore, Left, Conditions;
  }

  /** `validateWorkflowDraft`: exactly the problems of the draft are reported. */
  method ValidateWorkflowDraft(env: Env, d: Draft) returns (errors: seq<Problem>)
    ensures forall p :: p in errors <==> ClientProblem(env, d, p)
  {
    hide Blank, ClientProblem, Part, Place, Left;
    ClientPlace(env, d);
    errors := HeadErrors(env, d);
    var stateKeys: set<string> := {};
    for i := 0 to |d.states|
      invariant forall p :: p in errors <==> Before(p, 1, i) && ClientProblem(env, d, p)
      invariant forall key :: key in stateKeys <==> !Blank(env, key) && StateBefore(d, i, key)
    {
      var found := StateErrors(env, d, i, stateKeys);
      errors := errors + found;
      if !Blank(env, d.states[i].key) {
        stateKeys := stateKeys + {d.states[i].key};
      }
    }
    var initial := InitialErrors(env, d, stateKeys);
    errors := errors + initial;
    var seenTransitions: set<string> := {};
    for i := 0 to |d.transitions|
      invariant forall p :: p in errors <==> Before(p, 3, i) && ClientProblem(env, d, p)
      invariant forall key :: key in seenTransitions <==> !Blank(env, key) && TransitionBefore(d, i, key)
    {
      var found := TransitionErrors(env, d, i, stateKeys, seenTransitions);
      errors := errors + found;
      if !Blank(env, d.transitions[i].key) {
        seenTransitions := seenTransitions + {d.transitions[i].key};
      }
    }
    for i := 0 to |d.states|
      invariant forall p :: p in errors <==> Before(p, 4, i) && ClientProblem(env, d, p)
    {
      var found := TerminalErrors(env, d, i, stateKeys);
      errors := errors + found;
    }
  }

  method HeadErrors(env: Env, d: Draft) returns (errors: seq<Problem>)
    ensures forall p :: p in errors <==> Before(p, 1, 0) && ClientProblem(env, d, p)
  {
    hide Blank;
    errors := [];
    if Blank(env, d.key) { errors := errors + [KeyMissing]; }
    if Blank(env, d.name) { errors := errors + [NameMissing]; }
    if d.version < 1 { errors := errors + [VersionTooLow]; }
    if d.initial == "" { errors := errors + [InitialMissing]; }
    if d.states == [] { errors := errors + [NoStates]; }
  }

  method StateErrors(env: Env, d: Draft, i: nat, stateKeys: set<string>) returns (errors: seq<Problem>)
    requires i < |d.states|
    requires forall key :: key in stateKeys <==> !Blank(env, key) && StateBefore(d, i, key)
    ensures forall p :: p in errors <==> At(p, 1, i) && ClientProblem(env, d, p)
  {
    hide Blank, StateBefore;
    var s := d.states[i];
    errors := [];
    if Blank(env, s.key) {
      errors := errors + [StateKeyMissing(i)];
    } else if s.key in stateKeys {
      errors := errors + [DuplicateState(i)];
    }
    if Blank(env, s.name) { errors := errors + [StateNameMissing(i)]; }
  }

  method InitialErrors(env: Env, d: Draft, stateKeys: set<string>) returns (errors: seq<Problem>)
    requires forall key :: key in stateKeys <==> !Blank(env, key) && StateBefore(d, |d.states|, key)
    ensures forall p :: p in errors <==> Part(p) == 2 && ClientProblem(env, d, p)
  {
    hide Blank;
    errors := [];
    if d.initial != "" {
      if d.initial !in stateKeys { errors := errors + [InitialUnknown]; }
    } else if |stateKeys| > 0 {
      errors := errors + [InitialUnselected];
      var key :| key in stateKeys;
    } else {
      forall j | 0 <= j < |d.states| ensures Blank(env, d.states[j].key) {
        assert d.states[j].key !in stateKeys;
      }
    }
  }

  method TransitionErrors(env: Env, d: Draft, i: nat, stateKeys: set<string>, seenTransitions: set<string>)
      returns (errors: seq<Problem>)
    requires i < |d.transitions|
    requires forall key :: key in stateKeys <==> !Blank(env, key) && StateBefore(d, |d.states|, key)
    requires forall key :: key in seenTransitions <==> !Blank(env, key) && TransitionBefore(d, i, key)
    ensures forall p :: p in errors <==> At(p, 3, i) && ClientProblem(env, d, p)
  {
    hide Blank, TransitionBefore, DraftKey, Conditions;
    var t := d.transitions[i];
    var seen := t.key in seenTransitions;
    errors := TransitionNameErrors(env, t, i, seen);
    var ends := EndpointErrors(env, d, t, i, stateKeys);
    var found := ConditionErrors(env, t, i);
    hide StateBefore;
    errors := errors + ends + found;
  }

  method TransitionNameErrors(env: Env, t: TransitionDraft, i: nat, seen: bool) returns (errors: seq<Problem>)
    ensures forall p :: p in errors <==> (p == TransitionKeyMissing(i) && Blank(env, t.key))
                                         || (p == DuplicateTransition(i) && !Blank(env, t.key) && seen)
                                         || (p == TransitionNameMissing(i) && Blank(env, t.name))
  {
    hide Blank;
    errors := [];
    if Blank(env, t.key) {
      errors := errors + [TransitionKeyMissing(i)];
    } else if seen {
      errors := errors + [DuplicateTransition(i)];
    }
    if Blank(env, t.name) { errors := errors + [TransitionNameMissing(i)]; }
  }

  method EndpointErrors(env: Env, d: Draft, t: TransitionDraft, i: nat, stateKeys: set<string>)
      returns (errors: seq<Problem>)
    requires forall key :: key in stateKeys <==> !Blank(env, key) && StateBefore(d, |d.states|, key)
    ensures forall p :: p in errors <==> (p == SourceUnknown(i) && !DraftKey(env, d, t.from))
                                         || (p == TargetUnknown(i) && !DraftKey(env, d, t.to))
                                         || (p == SelfLoop(i) && t.from != "" && t.from == t.to)
  {
    hide Blank;
    assert DraftKey(env, d, t.from) == (t.from in stateKeys) && DraftKey(env, d, t.to) == (t.to in stateKeys);
    hide DraftKey, StateBefore;
    errors := [];
    if t.from !in stateKeys { errors := errors + [SourceUnknown(i)]; }
    if t.to !in stateKeys { errors := errors + [TargetUnknown(i)]; }
    if t.from != "" && t.from == t.to { errors := errors + [SelfLoop(i)]; }
  }

  method ConditionErrors(env: Env, t: TransitionDraft, i: nat) returns (errors: seq<Problem>)
    ensures forall p :: p in errors <==> (p == ConditionsNoArray(i) && Conditions(env, t) == NoArray)
                                         || (p == ConditionsMalformed(i) && Conditions(env, t) == Malformed)
  {
    hide Blank;
    errors := [];
    if t.conditions.Some? && !Blank(env, t.conditions.value) {
      match env.parse(t.conditions.value) {
        case Malformed => errors := [ConditionsMalformed(i)];
        case NoArray => errors := [ConditionsNoArray(i)];
        case Array =>
      }
    }
  }

  method TerminalErrors(env: Env, d: Draft, i: nat, stateKeys: set<string>) returns (errors: seq<Problem>)
    requires i < |d.states|
    requires forall key :: key in stateKeys <==> !Blank(env, key) && StateBefore(d, |d.states|, key)
    ensures forall p :: p in errors <==> At(p, 4, i) && ClientProblem(env, d, p)
  {
    hide Blank;
    var s := d.states[i];
    errors := [];
    if s.terminal && s.key in stateKeys {
      var hasOutgoing := false;
      for j := 0 to |d.transitions|
        invariant hasOutgoing <==> exists k :: 0 <= k < j && d.transitions[k].from == s.key
                                               && d.transitions[k].active != Some(false)
      {
        hasOutgoing := hasOutgoing || (d.transitions[j].from == s.key && d.transitions[j].active != Some(false));
      }
      if hasOutgoing { errors := [TerminalLeft(i)]; }
    }
  }

  // ----- the definition on the server -----

  datatype Transition = Transition(key: string, name: string, from: string, to: string, active: bool)

  datatype Definition = Definition(key: string, name: string, version: int, initial: string,
                                   states: seq<StateDraft>, transitions: seq<Transition>)

  function Sent(t: TransitionDraft): Transition {
    Transition(t.key, t.name, t.from, t.to, t.active != Some(false))
  }

  /** `buildWorkflowPayload`, as far as the server validates it. */
  function Payload(d: Draft): Definition {
    Definition(d.key, d.name, d.version, d.initial, d.states,
               seq(|d.transitions|, i requires 0 <= i < |d.transitions| => Sent(d.transitions[i])))
  }

  /** The text by which the server recognizes a repeated transition. */
  function Descriptor(t: Transition): string {
    t.from + "->" + t.to + "(" + t.key + ")"
  }

  predicate StateKey(def: Definition, key: string) {
    key != "" && exists j :: 0 <= j < |def.states| && def.states[j].key == key
  }

  predicate StateKeyBefore(def: Definition, i: nat, key: string)
    requires i <= |def.states|
  {
    exists j :: 0 <= j < i && def.states[j].key == key
  }

  predicate TransitionKeyBefore(def: Definition, i: nat, key: string)
    requires i <= |def.transitions|
  {
    exists j :: 0 <= j < i && def.transitions[j].key == key
  }

  predicate DescriptorBefore(def: Definition, i: nat, descriptor: string)
    requires i <= |def.transitions|
  {
    exists j :: 0 <= j < i && def.transitions[j].key != "" && Descriptor(def.transitions[j]) == descriptor
  }

  predicate Leaves(def: Definition, key: string) {
    exists j :: 0 <= j < |def.transitions| && def.transitions[j].from == key && def.transitions[j].active
  }

  predicate HeadProblem(def: Definition, p: Problem) {
    match p
    case KeyMissing => def.key == ""
    case NameMissing => def.name == ""
    case VersionTooLow => def.version < 1
    case InitialMissing => def.initial == ""
    case NoStates => def.states == []
    case _ => false
  }

  ghost predicate HeadFails(def: Definition) {
    exists p :: HeadProblem(def, p)
  }

  /** What each message of the server means if the head of the definition is in order. */
  predicate BodyProblem(def: Definition, p: Problem) {
    match p
    case StateKeyMissing(i) => i < |def.states| && def.states[i].key == ""
    case DuplicateState(i) =>
      i < |def.states| && def.states[i].key != "" && StateKeyBefore(def, i, def.states[i].key)
    case TransitionKeyMissing(i) => i < |def.transitions| && def.transitions[i].key == ""
    case DuplicateTransition(i) =>
      i < |def.transitions| && def.transitions[i].key != "" && TransitionKeyBefore(def, i, def.transitions[i].key)
    case SourceUnknown(i) =>
      i < |def.transitions| && def.transitions[i].key != "" && !StateKey(def, def.transitions[i].from)
    case TargetUnknown(i) =>
      i < |def.transitions| && def.transitions[i].key != "" && !StateKey(def, def.transitions[i].to)
    case DescriptorRepeated(i) =>
      && i < |def.transitions| && def.transitions[i].key != ""
      && DescriptorBefore(def, i, Descriptor(def.transitions[i]))
    case InitialUnknown => !StateKey(def, def.initial)
    case TerminalLeft(i) => i < |def.states| && def.states[i].terminal && Leaves(def, def.states[i].key)
    case _ => false
  }

  /** What the server reports: a problem of the head hides those of the body. */
  ghost predicate ServerProblem(def: Definition, p: Problem) {
    if HeadFails(def) then HeadProblem(def, p) else BodyProblem(def, p)
  }

  /** In the server the initial state is checked after the transitions. */
  function Stage(p: Problem): nat {
    if p.InitialUnknown? then 4
    else if p.TerminalLeft? then 5
    else Part(p)
  }

  predicate Done(p: Problem, stage: nat, i: nat) {
    Stage(p) < stage || (Stage(p) == stage && Place(p) < i)
  }

  lemma ServerPlace(def: Definition)
    ensures forall p :: BodyProblem(def, p) ==>
              && (Stage(p) == 1 || Stage(p) == 5 ==> Place(p) < |def.states|)
              && Stage(p) != 2 && (Stage(p) == 4 ==> Place(p) == 0)
              && (Stage(p) == 3 ==> Place(p) < |def.transitions|)
              && 0 < Stage(p) <= 5
  {
    hide StateKey, StateKeyBefore, TransitionKeyBefore, DescriptorBefore, Leaves;
  }

  /** `ValidateWorkflowDefinition`. */
  method ValidateWorkflowDefinition(def: Definition) returns (errors: seq<Problem>)
    ensures forall p :: p in errors <==> ServerProblem(def, p)
  {
    hide BodyProblem, HeadProblem, Stage, Place, Leaves, Descriptor;
    errors := DefinitionHeadErrors(def);
    if errors != [] {
      assert HeadProblem(def, errors[0]);
      return;
    }
    assert !HeadFails(def);
    ServerPlace(def);
    var stateKeys: set<string> := {};
    for i := 0 to |def.states|
      invariant forall p :: p in errors <==> Done(p, 1, i) && BodyProblem(def, p)
      invariant forall key :: key in stateKeys <==> key != "" && StateKeyBefore(def, i, key)
    {
      var key := def.states[i].key;
      var found := DefinitionStateErrors(def, i, stateKeys);
      errors := errors + found;
      if key != "" {
        stateKeys := stateKeys + {key};
      }
    }
    var transitionKeys: set<string>, seenTransitions: set<string> := {}, {};
    for i := 0 to |def.transitions|
      invariant forall p :: p in errors <==> Done(p, 3, i) && BodyProblem(def, p)
      invariant forall key :: key in transitionKeys <==> key != "" && TransitionKeyBefore(def, i, key)
      invariant forall tk :: tk in seenTransitions <==> DescriptorBefore(def, i, tk)
    {
      var t := def.transitions[i];
      var found := DefinitionTransitionErrors(def, i, stateKeys, transitionKeys, seenTransitions);
      errors := errors + found;
      if t.key != "" {
        transitionKeys, seenTransitions := transitionKeys + {t.key}, seenTransitions + {Descriptor(t)};
      }
    }
    var found := DefinitionInitialErrors(def, stateKeys);
    errors := errors + found;
    for i := 0 to |def.states|
      invariant forall p :: p in errors <==> Done(p, 5, i) && BodyProblem(def, p)
    {
      found := DefinitionTerminalErrors(def, i);
      errors := errors + found;
    }
  }

  method DefinitionHeadErrors(def: Definition) returns (errors: seq<Problem>)
    ensures forall p :: p in errors <==> HeadProblem(def, p)
  {
    errors := [];
    if def.key == "" { errors := errors + [KeyMissing]; }
    if def.name == "" { errors := errors + [NameMissing]; }
    if def.version < 1 { errors := errors + [VersionTooLow]; }
    if def.initial == "" { errors := errors + [InitialMissing]; }
    if def.states == [] { errors := errors + [NoStates]; }
  }

  method DefinitionStateErrors(def: Definition, i: nat, stateKeys: set<string>) returns (errors: seq<Problem>)
    requires i < |def.states|
    requires forall key :: key in stateKeys <==> key != "" && StateKeyBefore(def, i, key)
    ensures forall p :: p in errors <==> Stage(p) == 1 && Place(p) == i && BodyProblem(def, p)
  {
    hide StateKeyBefore;
    if def.states[i].key == "" {
      return [StateKeyMissing(i)];
    }
    errors := [];
    if def.states[i].key in stateKeys { errors := [DuplicateState(i)]; }
  }

  method DefinitionTransitionErrors(def: Definition, i: nat, stateKeys: set<string>, transitionKeys: set<string>,
                                    seenTransitions: set<string>) returns (errors: seq<Problem>)
    requires i < |def.transitions|
    requires forall key :: key in stateKeys <==> key != "" && StateKeyBefore(def, |def.states|, key)
    requires forall key :: key in transitionKeys <==> key != "" && TransitionKeyBefore(def, i, key)
    requires forall tk :: tk in seenTransitions <==> DescriptorBefore(def, i, tk)
    ensures forall p :: p in errors <==> Stage(p) == 3 && Place(p) == i && BodyProblem(def, p)
  {
    hide TransitionKeyBefore, DescriptorBefore, Descriptor;
    var t := def.transitions[i];
    if t.key == "" {
      return [TransitionKeyMissing(i)];
    }
    assert StateKey(def, t.from) == (t.from in stateKeys) && StateKey(def, t.to) == (t.to in stateKeys);
    hide StateKey, StateKeyBefore;
    errors := [];
    if t.key in transitionKeys { errors := errors + [DuplicateTransition(i)]; }
    if t.from !in stateKeys { errors := errors + [SourceUnknown(i)]; }
    if t.to !in stateKeys { errors := errors + [TargetUnknown(i)]; }
    if Descriptor(t) in seenTransitions { errors := errors + [DescriptorRepeated(i)]; }
  }

  method DefinitionInitialErrors(def: Definition, stateKeys: set<string>) returns (errors: seq<Problem>)
    requires forall key :: key in stateKeys <==> key != "" && StateKeyBefore(def, |def.states|, key)
    ensures forall p :: p in errors <==> Stage(p) == 4 && BodyProblem(def, p)
  {
    assert StateKey(def, def.initial) == (def.initial in stateKeys);
    errors := if def.initial in stateKeys then [] else [InitialUnknown];
  }

  method DefinitionTerminalErrors(def: Definition, i: nat) returns (errors: seq<Problem>)
    requires i < |def.states|
    ensures forall p :: p in errors <==> Stage(p) == 5 && Place(p) == i && BodyProblem(def, p)
  {
    var s := def.states[i];
    errors := [];
    if s.terminal {
      var outgoing: nat := 0;
      for j := 0 to |def.transitions|
        invariant outgoing > 0 <==> exists k :: 0 <= k < j && def.transitions[k].from == s.key
                                                && def.transitions[k].active
      {
        if def.transitions[j].from == s.key && def.transitions[j].active { outgoing := outgoing + 1; }
      }
      if outgoing > 0 { errors := [TerminalLeft(i)]; }
    }
  }

  // ----- what acceptance means -----

  ghost predicate ClientAccepts(env: Env, d: Draft) {
    forall p :: !ClientProblem(env, d, p)
  }

  ghost predicate ServerAccepts(def: Definition) {
    forall p :: !ServerProblem(def, p)
  }

  /** A definition that makes sense: named, with distinct keys, transitions between its states, an
      initial state, and no active transition out of a terminal state. */
  predicate WellFormed(def: Definition) {
    && def.key != "" && def.name != "" && def.version >= 1 && StateKey(def, def.initial)
    && (forall i :: 0 <= i < |def.states| ==> def.states[i].key != "")
    && (forall i, j :: 0 <= i < j < |def.states| ==> def.states[i].key != def.states[j].key)
    && (forall i :: 0 <= i < |def.transitions| ==>
          Between(def, def.transitions[i]))
    && (forall i, j :: 0 <= i < j < |def.transitions| ==> def.transitions[i].key != def.transitions[j].key)
    && (forall i :: 0 <= i < |def.states| && def.states[i].terminal ==> !Leaves(def, def.states[i].key))
  }

  predicate Between(def: Definition, t: Transition) {
    t.key != "" && StateKey(def, t.from) && StateKey(def, t.to)
  }

  predicate DescriptorsDiffer(def: Definition) {
    forall i, j :: 0 <= i < j < |def.transitions| ==>
      Descriptor(def.transitions[i]) != Descriptor(def.transitions[j])
  }

  /** What the client asks for beyond a definition that makes sense. */
  predicate Presentable(env: Env, d: Draft) {
    && !Blank(env, d.key) && !Blank(env, d.name)
    && (forall i :: 0 <= i < |d.states| ==> !Blank(env, d.states[i].key) && !Blank(env, d.states[i].name))
    && (forall i :: 0 <= i < |d.transitions| ==> Careful(env, d.transitions[i]))
  }

  predicate Careful(env: Env, t: TransitionDraft) {
    !Blank(env, t.key) && !Blank(env, t.name) && t.from != t.to && Conditions(env, t) == Array
  }

  /** The server accepts exactly the definitions that make sense and whose descriptors differ. */
  lemma ServerAcceptsIff(def: Definition)
    ensures ServerAccepts(def) <==> WellFormed(def) && DescriptorsDiffer(def)
  {
    hide HeadProblem, BodyProblem, WellFormed, DescriptorsDiffer;
    if ServerAccepts(def) {
      forall p ensures !HeadProblem(def, p) {
        assert !ServerProblem(def, p);
      }
      forall p ensures !BodyProblem(def, p) {
        assert !ServerProblem(def, p);
      }
      NoProblemsMean(def);
    }
    if WellFormed(def) && DescriptorsDiffer(def) {
      forall p ensures !ServerProblem(def, p) {
        WellFormedHasNone(def, p);
      }
    }
  }

  lemma NoProblemsMean(def: Definition)
    requires forall p :: !HeadProblem(def, p) && !BodyProblem(def, p)
    ensures WellFormed(def) && DescriptorsDiffer(def)
  {
    hide StateKey, Descriptor, Leaves;
    assert !HeadProblem(def, KeyMissing) && !HeadProblem(def, NameMissing) && !HeadProblem(def, VersionTooLow);
    assert !BodyProblem(def, InitialUnknown);
    forall i | 0 <= i < |def.states|
      ensures def.states[i].key != "" && (def.states[i].terminal ==> !Leaves(def, def.states[i].key))
    {
      assert !BodyProblem(def, StateKeyMissing(i)) && !BodyProblem(def, TerminalLeft(i));
    }
    forall i, j | 0 <= i < j < |def.states| ensures def.states[i].key != def.states[j].key {
      assert !BodyProblem(def, DuplicateState(j));
    }
    forall i | 0 <= i < |def.transitions|
      ensures Between(def, def.transitions[i])
    {
      assert !BodyProblem(def, TransitionKeyMissing(i)) && !BodyProblem(def, SourceUnknown(i));
      assert !BodyProblem(def, TargetUnknown(i));
    }
    forall i, j | 0 <= i < j < |def.transitions|
      ensures def.transitions[i].key != def.transitions[j].key
      ensures Descriptor(def.transitions[i]) != Descriptor(def.transitions[j])
    {
      assert !BodyProblem(def, DuplicateTransition(j)) && !BodyProblem(def, DescriptorRepeated(j));
    }
  }

  lemma WellFormedHasNone(def: Definition, p: Problem)
    requires WellFormed(def) && DescriptorsDiffer(def)
    ensures !HeadProblem(def, p) && !BodyProblem(def, p)
  {
    hide Descriptor, Leaves;
  }

  /** The client accepts exactly the drafts whose payload makes sense and that it finds presentable. */
  lemma ClientAcceptsIff(env: Env, d: Draft)
    ensures ClientAccepts(env, d) <==> WellFormed(Payload(d)) && Presentable(env, d)
  {
    hide ClientProblem, WellFormed, Presentable, Payload;
    if ClientAccepts(env, d) {
      AcceptedIsPresentable(env, d);
      AcceptedIsWellFormed(env, d);
    }
    if WellFormed(Payload(d)) && Presentable(env, d) {
      forall p ensures !ClientProblem(env, d, p) {
        PresentableHasNone(env, d, p);
      }
    }
  }

  /** What no state and no transition has in a draft that the client accepts. */
  lemma AcceptedParts(env: Env, d: Draft)
    requires ClientAccepts(env, d)
    ensures forall p :: Part(p) == 1 ==> !StateProblem(env, d, p)
    ensures forall p :: Part(p) == 3 ==> !TransitionProblem(env, d, p)
  {
    hide StateProblem, TransitionProblem, Part;
    forall p | Part(p) == 1 ensures !StateProblem(env, d, p) { assert !ClientProblem(env, d, p); }
    forall p | Part(p) == 3 ensures !TransitionProblem(env, d, p) { assert !ClientProblem(env, d, p); }
  }

  lemma AcceptedState(env: Env, d: Draft, i: nat)
    requires i < |d.states| && forall p :: Part(p) == 1 ==> !StateProblem(env, d, p)
    ensures !Blank(env, d.states[i].key) && !Blank(env, d.states[i].name) && !StateBefore(d, i, d.states[i].key)
  {
    hide Blank, StateBefore;
    assert !StateProblem(env, d, StateKeyMissing(i)) && !StateProblem(env, d, StateNameMissing(i));
    assert !StateProblem(env, d, DuplicateState(i));
  }

  lemma AcceptedTransition(env: Env, d: Draft, i: nat)
    requires i < |d.transitions| && forall p :: Part(p) == 3 ==> !TransitionProblem(env, d, p)
    ensures var t := d.transitions[i];
            && !Blank(env, t.key) && !Blank(env, t.name) && !TransitionBefore(d, i, t.key)
            && DraftKey(env, d, t.from) && DraftKey(env, d, t.to) && (t.from != "" ==> t.from != t.to)
  {
    hide Blank, TransitionBefore, DraftKey, Conditions;
    assert !TransitionProblem(env, d, TransitionKeyMissing(i)) && !TransitionProblem(env, d, TransitionNameMissing(i));
    assert !TransitionProblem(env, d, DuplicateTransition(i)) && !TransitionProblem(env, d, SourceUnknown(i));
    assert !TransitionProblem(env, d, TargetUnknown(i)) && !TransitionProblem(env, d, SelfLoop(i));
  }

  lemma AcceptedConditions(env: Env, d: Draft, i: nat)
    requires i < |d.transitions| && forall p :: Part(p) == 3 ==> !TransitionProblem(env, d, p)
    ensures Conditions(env, d.transitions[i]) == Array
  {
    hide Blank, TransitionBefore, DraftKey, Conditions;
    assert !TransitionProblem(env, d, ConditionsNoArray(i)) && !TransitionProblem(env, d, ConditionsMalformed(i));
  }

  lemma AcceptedWhole(env: Env, d: Draft)
    requires ClientAccepts(env, d)
    ensures !Blank(env, d.key) && !Blank(env, d.name) && d.version >= 1
    ensures d.initial != "" && DraftKey(env, d, d.initial)
    ensures forall i :: 0 <= i < |d.states| && d.states[i].terminal && !Blank(env, d.states[i].key) ==>
              !Left(d, d.states[i].key)
  {
    hide Blank, DraftKey, Left, StateProblem, TransitionProblem;
    assert !ClientProblem(env, d, KeyMissing) && !ClientProblem(env, d, NameMissing);
    assert !ClientProblem(env, d, VersionTooLow) && !ClientProblem(env, d, InitialMissing);
    assert !ClientProblem(env, d, InitialUnknown);
    forall i | 0 <= i < |d.states| && d.states[i].terminal && !Blank(env, d.states[i].key)
      ensures !Left(d, d.states[i].key)
    {
      assert !ClientProblem(env, d, TerminalLeft(i));
    }
  }

  lemma AcceptedIsPresentable(env: Env, d: Draft)
    requires ClientAccepts(env, d)
    ensures Presentable(env, d)
  {
    hide ClientAccepts, StateProblem, TransitionProblem, DraftKey, Left, Conditions, Part;
    AcceptedWhole(env, d);
    AcceptedParts(env, d);
    forall i | 0 <= i < |d.states| ensures !Blank(env, d.states[i].key) && !Blank(env, d.states[i].name) {
      AcceptedState(env, d, i);
    }
    forall i | 0 <= i < |d.transitions| ensures Careful(env, d.transitions[i]) {
      AcceptedTransition(env, d, i);
      AcceptedConditions(env, d, i);
      DraftKeyIsStateKey(env, d, d.transitions[i].from);
    }
  }

  lemma DraftKeyIsStateKey(env: Env, d: Draft, key: string)
    requires DraftKey(env, d, key)
    ensures StateKey(Payload(d), key) && key != ""
  {
  }

  lemma LeavesIsLeft(d: Draft, key: string)
    ensures Leaves(Payload(d), key) <==> Left(d, key)
  {
    var sent := Payload(d).transitions;
    if Left(d, key) {
      var j :| 0 <= j < |d.transitions| && d.transitions[j].from == key && d.transitions[j].active != Some(false);
      assert sent[j].from == key && sent[j].active;
    }
  }

  lemma AcceptedIsWellFormed(env: Env, d: Draft)
    requires ClientAccepts(env, d)
    ensures WellFormed(Payload(d))
  {
    hide ClientAccepts, StateProblem, TransitionProblem, DraftKey, Left, Leaves, StateKey, Part;
    var def := Payload(d);
    AcceptedWhole(env, d);
    AcceptedParts(env, d);
    DraftKeyIsStateKey(env, d, d.initial);
    forall i | 0 <= i < |def.states|
      ensures def.states[i].key != "" && (def.states[i].terminal ==> !Leaves(def, def.states[i].key))
    {
      AcceptedState(env, d, i);
      LeavesIsLeft(d, d.states[i].key);
    }
    forall i, j | 0 <= i < j < |def.states| ensures def.states[i].key != def.states[j].key {
      AcceptedState(env, d, j);
    }
    AcceptedTransitionsFit(env, d);
  }

  lemma AcceptedTransitionsFit(env: Env, d: Draft)
    requires forall p :: Part(p) == 3 ==> !TransitionProblem(env, d, p)
    ensures var ts := Payload(d).transitions;
            && (forall i :: 0 <= i < |ts| ==> Between(Payload(d), ts[i]))
            && (forall i, j :: 0 <= i < j < |ts| ==> ts[i].key != ts[j].key)
  {
    hide TransitionProblem, DraftKey, StateKey, Part;
    var def := Payload(d);
    forall i | 0 <= i < |def.transitions| ensures Between(def, def.transitions[i]) {
      AcceptedTransition(env, d, i);
      DraftKeyIsStateKey(env, d, d.transitions[i].from);
      DraftKeyIsStateKey(env, d, d.transitions[i].to);
    }
    forall i, j | 0 <= i < j < |def.transitions| ensures def.transitions[i].key != def.transitions[j].key {
      AcceptedTransition(env, d, j);
    }
  }

  lemma StateKeyIsDraftKey(env: Env, d: Draft, key: string)
    requires StateKey(Payload(d), key) && forall i :: 0 <= i < |d.states| ==> !Blank(env, d.states[i].key)
    ensures DraftKey(env, d, key)
  {
  }

  lemma PresentableHasNone(env: Env, d: Draft, p: Problem)
    requires WellFormed(Payload(d)) && Presentable(env, d)
    ensures !ClientProblem(env, d, p)
  {
    hide Blank, DraftKey, Left, Leaves, Conditions, StateKey;
    var def := Payload(d);
    StateKeyIsDraftKey(env, d, d.initial);
    if Part(p) == 3 && p.i < |d.transitions| {
      var t := d.transitions[p.i];
      assert def.transitions[p.i] == Sent(t);
      StateKeyIsDraftKey(env, d, t.from);
      StateKeyIsDraftKey(env, d, t.to);
      assert forall j :: 0 <= j < |d.transitions| ==> def.transitions[j].key == d.transitions[j].key;
    } else if p.TerminalLeft? && p.i < |d.states| {
      LeavesIsLeft(d, d.states[p.i].key);
    }
    NotEmpty(def);
  }

  lemma NotEmpty(def: Definition)
    requires WellFormed(def)
    ensures def.states != [] && def.initial != ""
  {
  }

  /** The client against the server: what the client accepts, the server accepts, unless two
      transitions have one descriptor; and what the server would accept, the client refuses only
      for want of presentation. */
  lemma ClientAgainstServer(env: Env, d: Draft)
    ensures ClientAccepts(env, d) && DescriptorsDiffer(Payload(d)) <==>
            ServerAccepts(Payload(d)) && Presentable(env, d)
  {
    hide *;
    ClientAcceptsIff(env, d);
    ServerAcceptsIff(Payload(d));
  }

  /** Descriptors differ if keys do and no key holds a parenthesis. */
  lemma DescriptorsDifferWithoutParentheses(def: Definition)
    requires WellFormed(def) && forall i :: 0 <= i < |def.transitions| ==> '(' !in def.transitions[i].key
    ensures DescriptorsDiffer(def)
  {
    hide Leaves, StateKey;
    forall i, j | 0 <= i < j < |def.transitions|
      ensures Descriptor(def.transitions[i]) != Descriptor(def.transitions[j])
    {
      var t, u := def.transitions[i], def.transitions[j];
      if Descriptor(t) == Descriptor(u) {
        SameEnding(t.from + "->" + t.to, u.from + "->" + u.to, t.key, u.key);
      }
    }
  }

  lemma SameEnding(a: string, b: string, k: string, l: string)
    requires '(' !in k && '(' !in l && a + "(" + k + ")" == b + "(" + l + ")"
    ensures k == l
  {
    var s := a + "(" + k + ")";
    assert s[|a|] == '(' && s[|b|] == '(';
    NoneBehind(a, k);
    NoneBehind(b, l);
    assert |a| == |b|;
    assert k == s[|a| + 1..|s| - 1] && l == s[|b| + 1..|s| - 1];
  }

  lemma NoneBehind(a: string, k: string)
    requires '(' !in k
    ensures forall i :: |a| < i < |a + "(" + k + ")"| ==> (a + "(" + k + ")")[i] != '('
  {
    var s := a + "(" + k + ")";
    assert forall i :: |a| < i < |s| - 1 ==> s[i] == k[i - |a| - 1];
  }

  /** A draft that the client accepts and the server refuses, as two descriptors coincide. */
  lemma ServerCanRefuse() returns (env: Env, d: Draft)
    ensures ClientAccepts(env, d) && !ServerAccepts(Payload(d))
  {
    env := Env(c => false, s => Array);
    var states := [StateDraft("a", "A", false), StateDraft("b", "B", false), StateDraft("b(c)", "C", false)];
    var t := TransitionDraft("c)(d", "T", "a", "b", None, None);
    var u := TransitionDraft("d", "U", "a", "b(c)", None, None);
    d := Draft("k", "n", 1, "a", states, [t, u]);
    var def := Payload(d);
    assert def.transitions == [Sent(t), Sent(u)];
    assert Descriptor(def.transitions[0]) == "a->b(c)(d)" == Descriptor(def.transitions[1]);
    assert StateKey(def, "a") && StateKey(def, "b") && StateKey(def, "b(c)") by {
      assert def.states[0].key == "a" && def.states[1].key == "b" && def.states[2].key == "b(c)";
    }
    assert WellFormed(def) by { hide Leaves, StateKey, Descriptor; }
    assert Presentable(env, d) by {
      NotBlank(env, "k"); NotBlank(env, "n"); NotBlank(env, "a"); NotBlank(env, "b"); NotBlank(env, "b(c)");
      NotBlank(env, "A"); NotBlank(env, "B"); NotBlank(env, "C"); NotBlank(env, "c)(d"); NotBlank(env, "d");
      NotBlank(env, "T"); NotBlank(env, "U");
      hide Blank;
    }
    hide *;
    ClientAcceptsIff(env, d);
    ServerAcceptsIff(def);
    assert !DescriptorsDiffer(def) by { Collision(def); }
  }

  lemma Collision(def: Definition)
    requires |def.transitions| == 2 && Descriptor(def.transitions[0]) == Descriptor(def.transitions[1])
    ensures !DescriptorsDiffer(def)
  {
  }

  lemma NotBlank(env: Env, s: string)
    requires s != "" && !env.isSpace(s[0])
    ensures !Blank(env, s)
  {
  }

  /** Some character of the text is not white space. */
  predicate Shows(env: Env, s: string) {
    exists i :: 0 <= i < |s| && !env.isSpace(s[i])
  }

  /** In an accepted draft every key and every name shows. */
  lemma AcceptedTextsShow(env: Env, d: Draft)
    requires ClientAccepts(env, d)
    ensures Shows(env, d.key) && Shows(env, d.name)
    ensures forall i :: 0 <= i < |d.states| ==> Shows(env, d.states[i].key) && Shows(env, d.states[i].name)
    ensures forall i :: 0 <= i < |d.transitions| ==>
              Shows(env, d.transitions[i].key) && Shows(env, d.transitions[i].name)
  {
    hide ClientAccepts;
    AcceptedIsPresentable(env, d);
    assert forall s: string :: Blank(env, s) || Shows(env, s);
    assert forall i :: 0 <= i < |d.transitions| ==> Careful(env, d.transitions[i]);
  }

  /** Every transition is sent as it was drafted; one is active unless it was switched off. */
  lemma PayloadKeepsTransitions(d: Draft, i: nat)
    requires i < |d.transitions|
    ensures |Payload(d).transitions| == |d.transitions|
    ensures var t := d.transitions[i];
            Payload(d).transitions[i] == Transition(t.key, t.name, t.from, t.to, t.active.None? || t.active.value)
  {
  }

  // ----- what an accepted definition gives the engine -----

  predicate DescribesStates(def: Definition, terminal: map<string, bool>) {
    && (forall i :: 0 <= i < |def.states| ==>
          def.states[i].key in terminal && terminal[def.states[i].key] == def.states[i].terminal)
    && (forall key :: key in terminal ==> exists i :: 0 <= i < |def.states| && def.states[i].key == key)
  }

  /** A stored definition with the same transitions and states, whatever the roles. */
  predicate Stored(def: Definition, d: CaseStore.Definition) {
    && d.initial == def.initial && DescribesStates(def, d.terminal)
    && |d.transitions| == |def.transitions|
    && forall i :: 0 <= i < |def.transitions| ==>
         var t, u := def.transitions[i], d.transitions[i];
         u.key == t.key && u.from == t.from && u.to == t.to && u.active == t.active
  }

  /** What the server accepts is what the workflow engine relies on: a named initial state among
      the states, keys that name one transition, transitions that lead to known states, and no
      way out of a terminal state. */
  lemma AcceptedDefinitionIsSound(def: Definition, d: CaseStore.Definition)
    requires ServerAccepts(def) && Stored(def, d)
    ensures d.initial != "" && d.initial in d.terminal
    ensures CaseMoves.KeysDiffer(d)
    ensures forall t :: t in d.transitions ==> t.from in d.terminal && t.to in d.terminal
    ensures forall t :: t in d.transitions && t.active ==> !d.terminal[t.from]
  {
    hide ServerAccepts, Descriptor;
    ServerAcceptsIff(def);
    forall t | t in d.transitions
      ensures t.from in d.terminal && t.to in d.terminal && (t.active ==> !d.terminal[t.from])
    {
      var i :| 0 <= i < |d.transitions| && d.transitions[i] == t;
      StayWithin(def, d, i);
    }
  }

  lemma StayWithin(def: Definition, d: CaseStore.Definition, i: nat)
    requires WellFormed(def) && Stored(def, d) && i < |d.transitions|
    ensures var t := d.transitions[i];
            t.from in d.terminal && t.to in d.terminal && (t.active ==> !d.terminal[t.from])
  {
    var u := def.transitions[i];
    assert StateKey(def, u.from) && StateKey(def, u.to);
    var j :| 0 <= j < |def.states| && def.states[j].key == u.from;
    assert u.active ==> Leaves(def, def.states[j].key);
  }
}
