/** The migration runner as a protocol over atomic transactions that may stop at any database
    operation and be started again. */
module Migrations {
  import opened Common
  import opened SqlLexer
  import opened SqlSplitter

  datatype Migration = Migration(version: int, name: string, up: string)

  /** The database: whether `schema_migrations` exists, its rows, and everything else. */
  datatype State<W> = State(table: bool, rows: map<int, string>, world: W)

  /** What one SQL statement does to the database; `None` is an error. */
  type Exec<!W> = (W, string) -> Option<W>

  function Script(mg: Migration): seq<string> {
    Statements(Lex(mg.up))
  }

  // ----- one run, stopped after a number of database operations -----

  /** The statements of a script inside a transaction. `None` means that an error or a stop ended
      the run; otherwise the second component says how many operations are left. */
  function RunScript<W>(exec: Exec<W>, world: W, stmts: seq<string>, budget: nat): Option<(W, nat)> {
    if stmts == [] then Some((world, budget))
    else if budget == 0 then None
    else match exec(world, stmts[0])
      case None => None
      case Some(w) => RunScript(exec, w, stmts[1..], budget - 1)
  }

  lemma RunScriptStep<W>(exec: Exec<W>, world: W, stmts: seq<string>, i: nat, budget: nat)
    requires i < |stmts|
    ensures RunScript(exec, world, stmts[i..], budget) ==
            if budget == 0 then None
            else match exec(world, stmts[i])
                 case None => None
                 case Some(w) => RunScript(exec, w, stmts[i + 1..], budget - 1)
  {
    assert stmts[i..][0] == stmts[i] && stmts[i..][1..] == stmts[i + 1..];
  }

  lemma RunScriptEnd<W>(exec: Exec<W>, world: W, stmts: seq<string>, budget: nat)
    requires stmts == []
    ensures RunScript(exec, world, stmts, budget) == Some((world, budget))
  {
  }

  /** `runMigration`: begin, run the script, record the version, commit. An unfinished
      transaction leaves no trace. */
  function RunMigration<W>(exec: Exec<W>, st: State<W>, mg: Migration, budget: nat): (State<W>, Option<nat>) {
    if budget == 0 then (st, None)
    else match RunScript(exec, st.world, Script(mg), budget - 1)
      case None => (st, None)
      case Some((w, left)) =>
        if left < 2 || !st.table || mg.version in st.rows then (st, None)
        else (State(true, st.rows[mg.version := mg.name], w), Some(left - 2))
  }

  /** The loop of `Migrate` over the migrations from position `i` on. */
  function MigrateFrom<W>(exec: Exec<W>, st: State<W>, ms: seq<Migration>, i: nat, budget: nat)
      : (State<W>, Option<nat>)
    requires i <= |ms|
    decreases |ms| - i
  {
    if i == |ms| then (st, Some(budget))
    else if budget == 0 || !st.table then (st, None)
    else if ms[i].version in st.rows then MigrateFrom(exec, st, ms, i + 1, budget - 1)
    else match RunMigration(exec, st, ms[i], budget - 1)
      case (st', None) => (st', None)
      case (st', Some(left)) => MigrateFrom(exec, st', ms, i + 1, left)
  }

  lemma MigrateStep<W>(exec: Exec<W>, st: State<W>, ms: seq<Migration>, i: nat, budget: nat)
    requires i <= |ms| && st.table
    ensures MigrateFrom(exec, st, ms, i, budget) ==
            if i == |ms| then (st, Some(budget))
            else if budget == 0 then (st, None)
            else if ms[i].version in st.rows then MigrateFrom(exec, st, ms, i + 1, budget - 1)
            else match RunMigration(exec, st, ms[i], budget - 1)
                 case (st', None) => (st', None)
                 case (st', Some(left)) => MigrateFrom(exec, st', ms, i + 1, left)
    ensures i < |ms| && budget > 0 ==> RunMigration(exec, st, ms[i], budget - 1).0.table
  {
    hide RunScript, Script;
  }

  /** One run of `Migrate`: the state it leaves, and whether it reached its end. */
  function Run<W>(exec: Exec<W>, st: State<W>, ms: seq<Migration>, budget: nat): (State<W>, bool) {
    if budget == 0 then (st, false)
    else
      var (st', left) := MigrateFrom(exec, st.(table := true), ms, 0, budget - 1);
      (st', left.Some?)
  }

  lemma RunStart<W>(exec: Exec<W>, st: State<W>, ms: seq<Migration>, budget: nat)
    ensures budget == 0 ==> Run(exec, st, ms, budget) == (st, false)
    ensures budget > 0 ==>
              var loop := MigrateFrom(exec, st.(table := true), ms, 0, budget - 1);
              Run(exec, st, ms, budget) == (loop.0, loop.1.Some?)
  {
  }

  // ----- the runner -----

  class Migrator<W> {
    const exec: Exec<W>
    const migrations: seq<Migration>
    var db: State<W>

    constructor (exec: Exec<W>, migrations: seq<Migration>, db: State<W>)
      ensures this.exec == exec && this.migrations == migrations && this.db == db
    {
      this.exec, this.migrations, this.db := exec, migrations, db;
    }

    /** The budget stands for a stop of the process or the connection: every operation on the
        database takes one unit, and the run fails when none is left. */
    method RunOne(mg: Migration, budget: nat) returns (left: Option<nat>)
      modifies this
      ensures (db, left) == RunMigration(exec, old(db), mg, budget)
    {
      hide Lex, Statements, RunScript;
      if budget == 0 {
        return None;
      }
      var tx := db;
      var rest: nat := budget - 1;
      var stmts := SplitSQL(mg.up);
      var i := 0;
      assert stmts[0..] == stmts && stmts == Script(mg);
      while i < |stmts|
        invariant 0 <= i <= |stmts| && tx.rows == db.rows && tx.table == db.table && db == old(db)
        invariant RunScript(exec, tx.world, stmts[i..], rest) == RunScript(exec, db.world, stmts, budget - 1)
      {
        RunScriptStep(exec, tx.world, stmts, i, rest);
        if rest == 0 {
          return None;
        }
        var r := exec(tx.world, stmts[i]);
        if r.None? {
          return None;
        }
        tx := tx.(world := r.value);
        rest := rest - 1;
        i := i + 1;
      }
      RunScriptEnd(exec, tx.world, stmts[i..], rest);
      if rest < 1 || !tx.table || mg.version in tx.rows {
        return None;
      }
      tx := tx.(rows := tx.rows[mg.version := mg.name]);
      if rest < 2 {
        return None;
      }
      db := tx;
      return Some(rest - 2);
    }

    method Migrate(budget: nat) returns (completed: bool)
      modifies this
      ensures (db, completed) == Run(exec, old(db), migrations, budget)
    {
      hide *;
      RunStart(exec, db, migrations, budget);
      if budget == 0 {
        return false;
      }
      db := db.(table := true);
      var rest: nat := budget - 1;
      var i := 0;
      ghost var goal := MigrateFrom(exec, db, migrations, 0, rest);
      while i < |migrations|
        invariant 0 <= i <= |migrations| && db.table && MigrateFrom(exec, db, migrations, i, rest) == goal
      {
        MigrateStep(exec, db, migrations, i, rest);
        if rest == 0 {
          return false;
        }
        rest := rest - 1;
        if migrations[i].version !in db.rows {
          var left := RunOne(migrations[i], rest);
          if left.None? {
            return false;
          }
          rest := left.value;
        }
        i := i + 1;
      }
      MigrateStep(exec, db, migrations, i, rest);
      return true;
    }
  }

  // ----- what the database must hold -----

  /** The effect of a list of scripts, run one after the other without a stop. */
  function Fold<W>(exec: Exec<W>, world: W, ms: seq<Migration>): Option<W> {
    if ms == [] then Some(world)
    else match Fold(exec, world, ms[..|ms| - 1])
      case None => None
      case Some(w) => Apply(exec, w, Script(ms[|ms| - 1]))
  }

  function Apply<W>(exec: Exec<W>, world: W, stmts: seq<string>): Option<W> {
    if stmts == [] then Some(world)
    else match exec(world, stmts[0])
      case None => None
      case Some(w) => Apply(exec, w, stmts[1..])
  }

  function Versions(ms: seq<Migration>): set<int> {
    set i | 0 <= i < |ms| :: ms[i].version
  }

  /** The migrations that count: the first one of each version. */
  function Effective(ms: seq<Migration>): seq<Migration> {
    if ms == [] then []
    else
      var last := ms[|ms| - 1];
      var before := ms[..|ms| - 1];
      Effective(before) + if last.version in Versions(before) then [] else [last]
  }

  ghost predicate DistinctVersions(ms: seq<Migration>) {
    forall i, j :: 0 <= i < j < |ms| ==> ms[i].version != ms[j].version
  }

  /** The database records exactly the versions of the first `k` migrations and holds exactly
      the effect of their scripts. */
  ghost predicate HoldsPrefix<W>(exec: Exec<W>, initial: W, st: State<W>, ms: seq<Migration>, k: nat)
    requires k <= |ms|
  {
    && st.rows.Keys == Versions(ms[..k])
    && Fold(exec, initial, Effective(ms[..k])) == Some(st.world)
  }

  // ----- every migration is atomic -----

  lemma {:induction false} RunScriptIsApply<W>(exec: Exec<W>, world: W, stmts: seq<string>, budget: nat)
    ensures var r := RunScript(exec, world, stmts, budget);
            && (r.Some? ==> Apply(exec, world, stmts) == Some(r.value.0) && budget == r.value.1 + |stmts|)
            && (budget >= |stmts| && Apply(exec, world, stmts).Some? ==> r.Some?)
  {
    if stmts != [] && budget > 0 {
      match exec(world, stmts[0])
      case None =>
      case Some(w) => RunScriptIsApply(exec, w, stmts[1..], budget - 1);
    }
  }

  lemma PrefixGrows(ms: seq<Migration>, k: nat)
    requires k < |ms|
    ensures Versions(ms[..k + 1]) == Versions(ms[..k]) + {ms[k].version}
    ensures Effective(ms[..k + 1]) ==
            Effective(ms[..k]) + if ms[k].version in Versions(ms[..k]) then [] else [ms[k]]
  {
    assert ms[..k + 1][..k] == ms[..k];
    assert ms[..k + 1][k] == ms[k];
    assert ms[..k + 1] == ms[..k] + [ms[k]];
    forall v ensures v in Versions(ms[..k + 1]) <==> v in Versions(ms[..k]) + {ms[k].version} {
      if v in Versions(ms[..k]) {
        var i :| 0 <= i < k && ms[..k][i].version == v;
        assert ms[..k + 1][i].version == v;
      }
      if v in Versions(ms[..k + 1]) {
        var i :| 0 <= i < k + 1 && ms[..k + 1][i].version == v;
        assert i < k ==> ms[..k][i].version == v;
      }
    }
  }

  lemma FoldOneMore<W>(exec: Exec<W>, initial: W, ms: seq<Migration>, mg: Migration)
    ensures Fold(exec, initial, ms + [mg]) ==
            match Fold(exec, initial, ms) { case None => None case Some(w) => Apply(exec, w, Script(mg)) }
  {
    assert (ms + [mg])[..|ms|] == ms;
  }

  /** Running one migration after the first `k` leaves the first `k` or the first `k + 1`. */
  lemma MigrationIsAtomic<W>(exec: Exec<W>, initial: W, st: State<W>, ms: seq<Migration>, k: nat, budget: nat)
    requires k < |ms| && HoldsPrefix(exec, initial, st, ms, k)
    requires ms[k].version !in st.rows
    ensures var (st', left) := RunMigration(exec, st, ms[k], budget);
            && (left.None? ==> st' == st)
            && (left.Some? ==> st'.table && HoldsPrefix(exec, initial, st', ms, k + 1))
  {
    hide Script, Versions, Fold, Effective, Apply, RunScript;
    PrefixGrows(ms, k);
    FoldOneMore(exec, initial, Effective(ms[..k]), ms[k]);
    if budget > 0 {
      RunScriptIsApply(exec, st.world, Script(ms[k]), budget - 1);
    }
  }

  /** From the first `k` migrations the loop can only reach the first `k'` for some `k' >= k`, and
      all of them if it is not cut short. */
  lemma {:induction false} LoopExtendsPrefix<W>(exec: Exec<W>, initial: W, st: State<W>, ms: seq<Migration>,
                                                i: nat, k: nat, budget: nat) returns (k': nat)
    requires i <= k <= |ms| && HoldsPrefix(exec, initial, st, ms, k)
    ensures k <= k' <= |ms| && HoldsPrefix(exec, initial, MigrateFrom(exec, st, ms, i, budget).0, ms, k')
    ensures MigrateFrom(exec, st, ms, i, budget).1.Some? ==> k' == |ms|
    decreases |ms| - i
  {
    hide HoldsPrefix, RunMigration;
    k' := k;
    if i < |ms| && budget > 0 && st.table {
      if ms[i].version in st.rows {
        if i == k {
          SkippedMigration(exec, initial, st, ms, k);
          k' := LoopExtendsPrefix(exec, initial, st, ms, i + 1, k + 1, budget - 1);
        } else {
          k' := LoopExtendsPrefix(exec, initial, st, ms, i + 1, k, budget - 1);
        }
      } else {
        NotYetHeld(exec, initial, st, ms, i, k);
        MigrationIsAtomic(exec, initial, st, ms, k, budget - 1);
        var (st', left) := RunMigration(exec, st, ms[k], budget - 1);
        if left.Some? {
          k' := LoopExtendsPrefix(exec, initial, st', ms, i + 1, k + 1, left.value);
        }
      }
    }
  }

  lemma SkippedMigration<W>(exec: Exec<W>, initial: W, st: State<W>, ms: seq<Migration>, k: nat)
    requires k < |ms| && HoldsPrefix(exec, initial, st, ms, k) && ms[k].version in st.rows
    ensures HoldsPrefix(exec, initial, st, ms, k + 1)
  {
    hide Fold;
    PrefixGrows(ms, k);
    assert Effective(ms[..k]) + [] == Effective(ms[..k]);
  }

  lemma NotYetHeld<W>(exec: Exec<W>, initial: W, st: State<W>, ms: seq<Migration>, i: nat, k: nat)
    requires i <= k <= |ms| && i < |ms| && HoldsPrefix(exec, initial, st, ms, k) && ms[i].version !in st.rows
    ensures i == k
  {
    assert forall j :: 0 <= j < k ==> ms[..k][j].version in Versions(ms[..k]);
    assert forall j :: 0 <= j < k ==> ms[..k][j] == ms[j];
  }

  // ----- any number of runs, each stopped anywhere -----

  function AfterRuns<W>(exec: Exec<W>, st: State<W>, ms: seq<Migration>, budgets: seq<nat>): State<W>
    decreases |budgets|
  {
    if budgets == [] then st
    else AfterRuns(exec, Run(exec, st, ms, budgets[0]).0, ms, budgets[1..])
  }

  lemma RunExtendsPrefix<W>(exec: Exec<W>, initial: W, st: State<W>, ms: seq<Migration>, k: nat, budget: nat)
      returns (k': nat)
    requires k <= |ms| && HoldsPrefix(exec, initial, st, ms, k)
    ensures k <= k' <= |ms| && HoldsPrefix(exec, initial, Run(exec, st, ms, budget).0, ms, k')
    ensures Run(exec, st, ms, budget).1 ==> k' == |ms|
  {
    hide Fold, MigrateFrom;
    k' := k;
    if budget > 0 {
      k' := LoopExtendsPrefix(exec, initial, st.(table := true), ms, 0, k, budget - 1);
    }
  }

  /** Crash safety: whatever the runs before did and wherever each was stopped, the database holds
      the exact effect of the first `k` migrations for some `k`. */
  lemma {:induction false} CrashSafety<W>(exec: Exec<W>, initial: W, st: State<W>, ms: seq<Migration>,
                                          k: nat, budgets: seq<nat>) returns (k': nat)
    requires k <= |ms| && HoldsPrefix(exec, initial, st, ms, k)
    ensures k <= k' <= |ms| && HoldsPrefix(exec, initial, AfterRuns(exec, st, ms, budgets), ms, k')
    decreases |budgets|
  {
    hide HoldsPrefix, Run;
    k' := k;
    if budgets != [] {
      var k1 := RunExtendsPrefix(exec, initial, st, ms, k, budgets[0]);
      k' := CrashSafety(exec, initial, Run(exec, st, ms, budgets[0]).0, ms, k1, budgets[1..]);
    }
  }

  /** A new database holds the empty prefix. */
  lemma FreshHoldsNothing<W>(exec: Exec<W>, world: W, ms: seq<Migration>)
    ensures HoldsPrefix(exec, world, State(false, map[], world), ms, 0)
  {
    assert ms[..0] == [];
  }

  /** Once a run has completed, the database holds everything, and no later run changes it. */
  lemma CompletedRunIsFinal<W>(exec: Exec<W>, initial: W, st: State<W>, ms: seq<Migration>, k: nat,
                               budget: nat, later: seq<nat>)
    requires k <= |ms| && HoldsPrefix(exec, initial, st, ms, k) && Run(exec, st, ms, budget).1
    ensures var done := Run(exec, st, ms, budget).0;
            && done.rows.Keys == Versions(ms) && Fold(exec, initial, Effective(ms)) == Some(done.world)
            && AfterRuns(exec, done, ms, later) == done
  {
    hide Fold, MigrateFrom, Versions, Effective, AfterRuns;
    var done := Run(exec, st, ms, budget).0;
    var k' := RunExtendsPrefix(exec, initial, st, ms, k, budget);
    assert ms[..|ms|] == ms;
    TableStays(exec, st.(table := true), ms, 0, budget - 1);
    NothingLeft(exec, done, ms, later);
  }

  lemma {:induction false} TableStays<W>(exec: Exec<W>, st: State<W>, ms: seq<Migration>, i: nat, budget: nat)
    requires i <= |ms| && st.table
    ensures MigrateFrom(exec, st, ms, i, budget).0.table
    decreases |ms| - i
  {
    hide RunMigration, MigrateFrom;
    MigrateStep(exec, st, ms, i, budget);
    if i < |ms| && budget > 0 {
      if ms[i].version in st.rows {
        TableStays(exec, st, ms, i + 1, budget - 1);
      } else {
        var (st', left) := RunMigration(exec, st, ms[i], budget - 1);
        if left.Some? { TableStays(exec, st', ms, i + 1, left.value); }
      }
    }
  }

  lemma {:induction false} NothingLeft<W>(exec: Exec<W>, st: State<W>, ms: seq<Migration>, budgets: seq<nat>)
    requires st.table && st.rows.Keys == Versions(ms)
    ensures AfterRuns(exec, st, ms, budgets) == st
    decreases |budgets|
  {
    if budgets != [] {
      if budgets[0] > 0 { NothingLeftFrom(exec, st, ms, 0, budgets[0] - 1); }
      assert st.(table := true) == st;
      NothingLeft(exec, st, ms, budgets[1..]);
    }
  }

  lemma {:induction false} NothingLeftFrom<W>(exec: Exec<W>, st: State<W>, ms: seq<Migration>, i: nat, budget: nat)
    requires i <= |ms| && st.table && st.rows.Keys == Versions(ms)
    ensures MigrateFrom(exec, st, ms, i, budget).0 == st
    decreases |ms| - i
  {
    if i < |ms| && budget > 0 {
      assert ms[i].version in Versions(ms);
      NothingLeftFrom(exec, st, ms, i + 1, budget - 1);
    }
  }

  // ----- a run that is not stopped completes -----

  /** Operations that suffice for the migrations from position `i` on. */
  function Cost(ms: seq<Migration>, i: nat): nat
    requires i <= |ms|
    decreases |ms| - i
  {
    if i == |ms| then 0 else 4 + |Script(ms[i])| + Cost(ms, i + 1)
  }

  /** If the scripts run without an error in order, then from every state that stopped runs can
      leave, a run with enough operations left completes. */
  lemma RestartCompletes<W>(exec: Exec<W>, initial: W, st: State<W>, ms: seq<Migration>, k: nat, budget: nat)
    requires k <= |ms| && HoldsPrefix(exec, initial, st, ms, k)
    requires Fold(exec, initial, Effective(ms)).Some? && budget > Cost(ms, 0)
    ensures Run(exec, st, ms, budget).1
  {
    hide Fold, Cost, MigrateFrom;
    LoopCompletes(exec, initial, st.(table := true), ms, 0, k, budget - 1);
  }

  lemma {:induction false} LoopCompletes<W>(exec: Exec<W>, initial: W, st: State<W>, ms: seq<Migration>,
                                            i: nat, k: nat, budget: nat)
    requires i <= k <= |ms| && HoldsPrefix(exec, initial, st, ms, k) && st.table
    requires Fold(exec, initial, Effective(ms)).Some? && budget >= Cost(ms, i)
    ensures MigrateFrom(exec, st, ms, i, budget).1.Some?
    decreases |ms| - i
  {
    hide HoldsPrefix, RunMigration, Fold, Script;
    if i < |ms| {
      if ms[i].version in st.rows {
        if i == k { SkippedMigration(exec, initial, st, ms, k); }
        LoopCompletes(exec, initial, st, ms, i + 1, if i == k then k + 1 else k, budget - 1);
      } else {
        NotYetHeld(exec, initial, st, ms, i, k);
        MigrationIsAtomic(exec, initial, st, ms, k, budget - 1);
        MigrationSucceeds(exec, initial, st, ms, k, budget - 1);
        var (st', left) := RunMigration(exec, st, ms[k], budget - 1);
        LoopCompletes(exec, initial, st', ms, i + 1, k + 1, left.value);
      }
    }
  }

  lemma MigrationSucceeds<W>(exec: Exec<W>, initial: W, st: State<W>, ms: seq<Migration>, k: nat, budget: nat)
    requires k < |ms| && HoldsPrefix(exec, initial, st, ms, k) && st.table && ms[k].version !in st.rows
    requires Fold(exec, initial, Effective(ms)).Some? && budget >= 3 + |Script(ms[k])|
    ensures var left := RunMigration(exec, st, ms[k], budget).1;
            left.Some? && left.value == budget - 3 - |Script(ms[k])|
  {
    hide Script, Versions, Fold, Effective, Apply, RunScript;
    PrefixGrows(ms, k);
    FoldOneMore(exec, initial, Effective(ms[..k]), ms[k]);
    FoldOfPrefix(exec, initial, ms, k + 1);
    RunScriptIsApply(exec, st.world, Script(ms[k]), budget - 1);
  }

  lemma {:induction false} FoldOfPrefix<W>(exec: Exec<W>, initial: W, ms: seq<Migration>, k: nat)
    requires k <= |ms| && Fold(exec, initial, Effective(ms)).Some?
    ensures Fold(exec, initial, Effective(ms[..k])).Some?
    decreases |ms| - k
  {
    hide Script, Versions, Apply;
    if k == |ms| {
      assert ms[..k] == ms;
    } else {
      FoldOfPrefix(exec, initial, ms, k + 1);
      PrefixGrows(ms, k);
      if ms[k].version in Versions(ms[..k]) {
        assert Effective(ms[..k]) + [] == Effective(ms[..k]);
      } else {
        FoldOneMore(exec, initial, Effective(ms[..k]), ms[k]);
      }
    }
  }

  // ----- versions that occur twice -----

  /** Every script takes part exactly when no version occurs twice. */
  lemma EveryScriptCountsIffDistinct(ms: seq<Migration>)
    ensures Effective(ms) == ms <==> DistinctVersions(ms)
  {
    EffectiveIsNoLonger(ms);
    EffectiveLength(ms);
  }

  lemma {:induction false} EffectiveIsNoLonger(ms: seq<Migration>)
    ensures |Effective(ms)| <= |ms|
    ensures |Effective(ms)| == |ms| ==> Effective(ms) == ms
  {
    if ms != [] {
      EffectiveIsNoLonger(ms[..|ms| - 1]);
      assert ms == ms[..|ms| - 1] + [ms[|ms| - 1]];
    }
  }

  lemma {:induction false} EffectiveLength(ms: seq<Migration>)
    ensures |Effective(ms)| == |ms| <==> DistinctVersions(ms)
  {
    if ms != [] {
      var before, last := ms[..|ms| - 1], ms[|ms| - 1];
      EffectiveLength(before);
      EffectiveIsNoLonger(before);
      assert forall i :: 0 <= i < |before| ==> before[i] == ms[i];
      if last.version in Versions(before) {
        var i :| 0 <= i < |before| && before[i].version == last.version;
        assert ms[i].version == ms[|ms| - 1].version;
      } else if DistinctVersions(before) {
        forall i, j | 0 <= i < j < |ms| ensures ms[i].version != ms[j].version {
          if j == |ms| - 1 {
            assert before[i].version in Versions(before);
          }
        }
      }
    }
  }
}
