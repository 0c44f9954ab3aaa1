/** What migrations execute, told by a database that only writes down what it is asked to do. */
module MigrationRecords {
  import opened Common
  import opened SqlLexer
  import opened SqlSplitter
  import opened Migrations

  type Record = seq<string>

  /** Executing a statement appends it to the record. */
  const WRITE: Exec<Record> := (record, stmt) => Some(record + [stmt])

  /** The statements of a list of scripts, one script after the other. */
  function Executed(ms: seq<Migration>): seq<string> {
    if ms == [] then []
    else Executed(ms[..|ms| - 1]) + Statements(Lex(ms[|ms| - 1].up))
  }

  lemma {:induction false} ApplyWrites(record: Record, stmts: seq<string>)
    ensures Apply(WRITE, record, stmts) == Some(record + stmts)
    decreases |stmts|
  {
    if stmts == [] {
      assert record + stmts == record;
    } else {
      ApplyWrites(record + [stmts[0]], stmts[1..]);
      assert record + [stmts[0]] + stmts[1..] == record + stmts;
    }
  }

  lemma {:induction false} FoldWrites(ms: seq<Migration>)
    ensures Fold(WRITE, [], ms) == Some(Executed(ms))
  {
    hide Statements, Lex, Apply;
    if ms != [] {
      var n := |ms| - 1;
      FoldWrites(ms[..n]);
      ApplyWrites(Executed(ms[..n]), Statements(Lex(ms[n].up)));
    }
  }

  /** However often and wherever runs on a new database were stopped, exactly the statements of the
      first migrations were executed, all of them, once, and in order. */
  lemma StoppedRunsExecutePrefix(ms: seq<Migration>, budgets: seq<nat>) returns (k: nat)
    ensures k <= |ms|
    ensures var st := AfterRuns(WRITE, State(false, map[], []), ms, budgets);
            st.rows.Keys == Versions(ms[..k]) && st.world == Executed(Effective(ms[..k]))
  {
    hide Fold, AfterRuns, Versions, Effective;
    FreshHoldsNothing(WRITE, [], ms);
    k := CrashSafety(WRITE, [], State(false, map[], []), ms, 0, budgets);
    FoldWrites(Effective(ms[..k]));
  }

  /** A run on a new database that completes has executed exactly all statements. */
  lemma CompletedRunExecutesAll(ms: seq<Migration>, budget: nat)
    requires Run(WRITE, State(false, map[], []), ms, budget).1
    ensures Run(WRITE, State(false, map[], []), ms, budget).0.world == Executed(Effective(ms))
  {
    hide Fold, Run, Versions, Effective;
    FreshHoldsNothing(WRITE, [], ms);
    CompletedRunIsFinal(WRITE, [], State(false, map[], []), ms, 0, budget, []);
    FoldWrites(Effective(ms));
  }

  /** Executing a statement appends it to the record, but for one on which it fails. */
  function WriteBut(bad: string): Exec<Record> {
    (record, stmt) => if stmt == bad then None else Some(record + [stmt])
  }

  lemma {:induction false} BadStatementStops(bad: string, record: Record, stmts: seq<string>, budget: nat)
    requires bad in stmts
    ensures RunScript(WriteBut(bad), record, stmts, budget).None?
    decreases |stmts|
  {
    if budget > 0 && stmts[0] != bad {
      BadStatementStops(bad, record + [stmts[0]], stmts[1..], budget - 1);
    }
  }

  /** A migration with a statement that fails leaves everything as it was and ends the run. */
  lemma FailingMigrationLeavesNothing(bad: string, st: State<Record>, mg: Migration, budget: nat)
    requires bad in Statements(Lex(mg.up))
    ensures RunMigration(WriteBut(bad), st, mg, budget) == (st, None)
  {
    hide Statements, Lex, RunScript;
    if budget > 0 {
      BadStatementStops(bad, st.world, Statements(Lex(mg.up)), budget - 1);
    }
  }

  // ----- the rows -----

  /** Every recorded version carries the name of its migration. */
  ghost predicate Named(ms: seq<Migration>, rows: map<int, string>) {
    forall v :: v in rows ==> exists i :: 0 <= i < |ms| && ms[i].version == v && ms[i].name == rows[v]
  }

  lemma {:induction false} LoopNames<W>(exec: Exec<W>, st: State<W>, ms: seq<Migration>, i: nat, budget: nat)
    requires i <= |ms| && Named(ms, st.rows)
    ensures Named(ms, MigrateFrom(exec, st, ms, i, budget).0.rows)
    decreases |ms| - i
  {
    hide RunScript, Script;
    if i < |ms| && budget > 0 && st.table {
      if ms[i].version in st.rows {
        LoopNames(exec, st, ms, i + 1, budget - 1);
      } else {
        var (st', left) := RunMigration(exec, st, ms[i], budget - 1);
        if left.Some? { LoopNames(exec, st', ms, i + 1, left.value); }
      }
    }
  }

  lemma {:induction false} RunsName<W>(exec: Exec<W>, st: State<W>, ms: seq<Migration>, budgets: seq<nat>)
    requires Named(ms, st.rows)
    ensures Named(ms, AfterRuns(exec, st, ms, budgets).rows)
    decreases |budgets|
  {
    hide MigrateFrom, Named;
    if budgets != [] {
      if budgets[0] > 0 { LoopNames(exec, st.(table := true), ms, 0, budgets[0] - 1); }
      RunsName(exec, Run(exec, st, ms, budgets[0]).0, ms, budgets[1..]);
    }
  }
}
