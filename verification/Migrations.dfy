/**
 * The migration runner: each pending migration is tried once per run, statement by
 * statement, and a failure is recorded without stopping the later ones. The outcome of
 * every statement is a parameter.
 */
module Migrations {
  import opened Prelude

  /** What the server answers to a statement. */
  datatype Outcome = Success | Error(errno: nat)

  /** A statement, by what the runner can tell about it: index statements, and inserts into _migrations. */
  datatype Statement = Statement(index: bool, marks: Option<string>)

  datatype Migration = Migration(name: string, statements: seq<Statement>)

  /** The outcomes of one try: one per statement, then those of the two bookkeeping statements. */
  datatype Try = Try(outcomes: seq<Outcome>, insertFails: bool, deleteFails: bool)

  /** _migrations by name, and _migration_failures by name with the attempts. */
  datatype Tables = Tables(applied: set<string>, failures: map<string, nat>)

  /** Duplicate columns and indexes are no error; nor are missing columns and full tables for an index. */
  predicate Tolerated(st: Statement, o: Outcome) {
    o.Success? || o.errno in {1060, 1061} || (o.errno in {1069, 1072} && st.index)
  }

  function Recorded(t: Tables, name: string): Tables {
    t.(failures := t.failures[name := 1 + if name in t.failures then t.failures[name] else 0])
  }

  function OutcomeAt(y: Try, i: nat): Outcome {
    if i < |y.outcomes| then y.outcomes[i] else Success
  }

  /** Executes statements from position i; the flag tells whether all of them went through. */
  function Execute(t: Tables, ss: seq<Statement>, y: Try, i: nat): (Tables, bool)
    decreases |ss| - i
  {
    if i >= |ss| then (t, true)
    else if !Tolerated(ss[i], OutcomeAt(y, i)) then (t, false)
    else
      var marks := ss[i].marks.Some? && OutcomeAt(y, i).Success?;
      var t' := if marks then t.(applied := t.applied + {ss[i].marks.value}) else t;
      Execute(t', ss, y, i + 1)
  }

  function TryMigration(t: Tables, m: Migration, y: Try): Tables {
    if m.name in t.applied then t
    else
      var (t', ok) := Execute(t, m.statements, y, 0);
      if !ok || y.insertFails then Recorded(t', m.name)
      else
        var marked := t'.(applied := t'.applied + {m.name});
        if y.deleteFails then Recorded(marked, m.name) else marked.(failures := marked.failures - {m.name})
  }

  /** One run over the migrations from position i; `ys` holds one try per migration. */
  function RunFrom(t: Tables, ms: seq<Migration>, ys: seq<Try>, i: nat): Tables
    requires |ys| == |ms|
    decreases |ms| - i
  {
    if i >= |ms| then t else RunFrom(TryMigration(t, ms[i], ys[i]), ms, ys, i + 1)
  }

  /** How many statements a try sends from position i: all up to the first that is answered by an error that counts. */
  function Sent(m: Migration, y: Try, i: nat): (n: nat)
    decreases |m.statements| - i
  {
    if i >= |m.statements| then 0
    else 1 + if Tolerated(m.statements[i], OutcomeAt(y, i)) then Sent(m, y, i + 1) else 0
  }

  /** The runner over its two bookkeeping tables. */
  class MigrationsService {
    var tables: Tables
    var executed: nat

    constructor ()
      ensures tables == Tables({}, map[]) && executed == 0
    {
      tables := Tables({}, map[]);
      executed := 0;
    }

    /** Tries the pending migrations in order; applied ones are skipped without executing a statement. */
    method RunMigrations(ms: seq<Migration>, ys: seq<Try>)
      requires |ys| == |ms|
      modifies this
      ensures tables == RunFrom(old(tables), ms, ys, 0)
      ensures (forall m | m in ms :: m.name in old(tables).applied)
              ==> executed == old(executed) && tables == old(tables)
    {
      var i := 0;
      while i < |ms|
        invariant 0 <= i <= |ms|
        invariant RunFrom(tables, ms, ys, i) == RunFrom(old(tables), ms, ys, 0)
        invariant (forall m | m in ms :: m.name in old(tables).applied)
                  ==> executed == old(executed) && tables == old(tables)
      {
        assert ms[i] in ms;
        if ms[i].name !in tables.applied {
          RunOne(ms[i], ys[i]);
        }
        i := i + 1;
      }
    }

    method RunOne(m: Migration, y: Try)
      requires m.name !in tables.applied
      modifies this
      ensures tables == TryMigration(old(tables), m, y)
      ensures executed == old(executed) + Sent(m, y, 0)
    {
      var ok := true;
      var i := 0;
      while i < |m.statements| && ok
        invariant 0 <= i <= |m.statements|
        invariant executed + (if ok then Sent(m, y, i) else 0) == old(executed) + Sent(m, y, 0)
        invariant ok ==> Execute(tables, m.statements, y, i) == Execute(old(tables), m.statements, y, 0)
        invariant !ok ==> Execute(old(tables), m.statements, y, 0) == (tables, false)
        decreases |m.statements| - i, ok
      {
        executed := executed + 1;
        if Tolerated(m.statements[i], OutcomeAt(y, i)) {
          if m.statements[i].marks.Some? && OutcomeAt(y, i).Success? {
            tables := tables.(applied := tables.applied + {m.statements[i].marks.value});
          }
          i := i + 1;
        } else {
          ok := false;
        }
      }
      if ok && !y.insertFails {
        tables := tables.(applied := tables.applied + {m.name});
        if y.deleteFails {
          tables := Recorded(tables, m.name);
        } else {
          tables := tables.(failures := tables.failures - {m.name});
        }
      } else {
        tables := Recorded(tables, m.name);
      }
    }
  }

  // ----- one try -----

  /** The statements write no name but their own into _migrations. */
  predicate OwnMarks(m: Migration) {
    forall i | 0 <= i < |m.statements| && m.statements[i].marks.Some? :: m.statements[i].marks.value == m.name
  }

  /** Some statement is answered by an error that is not tolerated. */
  predicate Breaks(m: Migration, y: Try, i: nat)
    decreases |m.statements| - i
  {
    i < |m.statements| && (!Tolerated(m.statements[i], OutcomeAt(y, i)) || Breaks(m, y, i + 1))
  }

  /** Some statement marks the migration before any statement breaks. */
  predicate Marked(m: Migration, y: Try, i: nat)
    decreases |m.statements| - i
  {
    i < |m.statements| && Tolerated(m.statements[i], OutcomeAt(y, i))
    && ((m.statements[i].marks.Some? && OutcomeAt(y, i).Success?) || Marked(m, y, i + 1))
  }

  /** The try puts the name into _migrations: by a statement of its own or by the INSERT after them. */
  predicate Passes(m: Migration, y: Try) {
    Marked(m, y, 0) || (!Breaks(m, y, 0) && !y.insertFails)
  }

  /** The try throws somewhere, bookkeeping included, and is recorded. */
  predicate Records(m: Migration, y: Try) {
    Breaks(m, y, 0) || y.insertFails || y.deleteFails
  }

  lemma {:induction false} ExecuteOwn(t: Tables, m: Migration, y: Try, i: nat)
    requires OwnMarks(m) && i <= |m.statements|
    ensures var (t', ok) := Execute(t, m.statements, y, i);
            (ok <==> !Breaks(m, y, i)) && t'.failures == t.failures
            && t'.applied == t.applied + if Marked(m, y, i) then {m.name} else {}
    decreases |m.statements| - i
  {
    if i < |m.statements| && Tolerated(m.statements[i], OutcomeAt(y, i)) {
      var s := m.statements[i];
      var marks := s.marks.Some? && OutcomeAt(y, i).Success?;
      ExecuteOwn(if marks then t.(applied := t.applied + {s.marks.value}) else t, m, y, i + 1);
    }
  }

  /** What the bookkeeping says about a name: applied or not, and the attempts of its failure row if it has one. */
  function Entry(t: Tables, name: string): (bool, Option<nat>) {
    (name in t.applied, if name in t.failures then Some(t.failures[name]) else None)
  }

  function Attempts(e: Option<nat>): nat {
    if e.Some? then e.value else 0
  }

  /** What one try does to the bookkeeping of every name, whatever fails. */
  lemma TryOnName(t: Tables, m: Migration, y: Try, name: string)
    requires OwnMarks(m)
    ensures Entry(TryMigration(t, m, y), name)
            == if name != m.name || name in t.applied then Entry(t, name)
               else (Passes(m, y), if Records(m, y) then Some(1 + Attempts(Entry(t, name).1)) else None)
  {
    ExecuteOwn(t, m, y, 0);
  }

  /**
   * Which errors of a statement stop a migration, by number: every error but duplicate
   * columns and indexes and, for index statements, missing columns and full tables. Any
   * other leaves the migration pending with one attempt more.
   */
  lemma ErrorsByNumber(t: Tables, name: string, index: bool, errno: nat)
    requires name !in t.applied
    ensures var m := Migration(name, [Statement(index, None)]);
            var t' := TryMigration(t, m, Try([Error(errno)], false, false));
            var passes := errno == 1060 || errno == 1061 || (index && (errno == 1072 || errno == 1069));
            if passes then t' == Tables(t.applied + {name}, t.failures - {name})
            else t'.applied == t.applied
                 && t'.failures == t.failures[name := if name in t.failures then t.failures[name] + 1 else 1]
  {
    var m := Migration(name, [Statement(index, None)]);
    var y := Try([Error(errno)], false, false);
    assert Execute(t, m.statements, y, 1) == (t, true);
  }

  /** No name is both applied and recorded as failed. */
  ghost predicate Clean(t: Tables) {
    forall name | name in t.applied :: name !in t.failures
  }

  /**
   * From clean tables, the try of a pending migration leaves clean tables exactly when it
   * does not both put the name into _migrations and throw, at a statement after its own
   * mark, at the INSERT or at the DELETE.
   */
  lemma CleanExactly(t: Tables, m: Migration, y: Try)
    requires Clean(t) && OwnMarks(m) && m.name !in t.applied
    ensures Clean(TryMigration(t, m, y)) <==> !(Passes(m, y) && Records(m, y))
  {
    hide TryMigration, Passes, Records;
    var t' := TryMigration(t, m, y);
    forall name
      ensures Entry(t', name)
              == if name != m.name then Entry(t, name)
                 else (Passes(m, y), if Records(m, y) then Some(1 + Attempts(Entry(t, name).1)) else None)
    {
      TryOnName(t, m, y, name);
    }
    assert Entry(t', m.name).0 == Passes(m, y);
    if !(Passes(m, y) && Records(m, y)) {
      forall name | name in t'.applied
        ensures name !in t'.failures
      {
        assert Entry(t', name).0;
      }
    }
  }

  /** A migration that marks itself before a failing statement ends up applied and failed at once. */
  lemma MarkedTooEarly(t: Tables, name: string)
    requires name !in t.applied
    ensures var m := Migration(name, [Statement(false, Some(name)), Statement(false, None)]);
            var t' := TryMigration(t, m, Try([Success, Error(1064)], false, false));
            OwnMarks(m) && name in t'.applied && name in t'.failures
  {
    var m := Migration(name, [Statement(false, Some(name)), Statement(false, None)]);
    var y := Try([Success, Error(1064)], false, false);
    assert Marked(m, y, 0) && Breaks(m, y, 1);
    TryOnName(t, m, y, name);
    assert Entry(TryMigration(t, m, y), name) == (true, Some(1 + Attempts(Entry(t, name).1)));
  }

  // ----- runs -----

  /** The applied names never shrink, whatever fails. */
  lemma {:induction false} AppliedGrows(t: Tables, ms: seq<Migration>, ys: seq<Try>, i: nat)
    requires |ys| == |ms|
    ensures t.applied <= RunFrom(t, ms, ys, i).applied
    decreases |ms| - i
  {
    if i < |ms| {
      ExecuteGrows(t, ms[i].statements, ys[i], 0);
      AppliedGrows(TryMigration(t, ms[i], ys[i]), ms, ys, i + 1);
    }
  }

  lemma {:induction false} ExecuteGrows(t: Tables, ss: seq<Statement>, y: Try, i: nat)
    ensures t.applied <= Execute(t, ss, y, i).0.applied
    decreases |ss| - i
  {
    if i < |ss| && Tolerated(ss[i], OutcomeAt(y, i)) {
      var marks := ss[i].marks.Some? && OutcomeAt(y, i).Success?;
      ExecuteGrows(if marks then t.(applied := t.applied + {ss[i].marks.value}) else t, ss, y, i + 1);
    }
  }

  /** Distinct names, each marked by its own migration only. */
  ghost predicate Orderly(ms: seq<Migration>) {
    && (forall i, j | 0 <= i < j < |ms| :: ms[i].name != ms[j].name)
    && (forall i | 0 <= i < |ms| :: OwnMarks(ms[i]))
  }

  /**
   * What a run from position i does to one name, with any statement and any bookkeeping
   * failing: only the name's own migration touches it.
   */
  lemma {:induction false} RunOnName(t: Tables, ms: seq<Migration>, ys: seq<Try>, i: nat, k: nat)
    requires Orderly(ms) && |ys| == |ms| && i <= k < |ms|
    ensures var name := ms[k].name;
            var before := Entry(t, name);
            Entry(RunFrom(t, ms, ys, i), name)
            == if before.0 then before
               else (Passes(ms[k], ys[k]), if Records(ms[k], ys[k]) then Some(1 + Attempts(before.1)) else None)
    decreases |ms| - i
  {
    hide OwnMarks, TryMigration, Passes, Records;
    TryOnName(t, ms[i], ys[i], ms[k].name);
    var t1 := TryMigration(t, ms[i], ys[i]);
    if i < k {
      RunOnName(t1, ms, ys, i + 1, k);
    } else {
      RunElsewhere(t1, ms, ys, i + 1, ms[k].name);
    }
  }

  lemma {:induction false} RunElsewhere(t: Tables, ms: seq<Migration>, ys: seq<Try>, i: nat, name: string)
    requires Orderly(ms) && |ys| == |ms| && forall j | i <= j < |ms| :: ms[j].name != name
    ensures Entry(RunFrom(t, ms, ys, i), name) == Entry(t, name)
    decreases |ms| - i
  {
    hide OwnMarks, TryMigration, Entry;
    if i < |ms| {
      TryOnName(t, ms[i], ys[i], name);
      RunElsewhere(TryMigration(t, ms[i], ys[i]), ms, ys, i + 1, name);
    }
  }

  // ----- repeated runs -----

  /** The tables after the runs so far; each run has its own tries. */
  function After(ms: seq<Migration>, runs: seq<seq<Try>>): Tables
    requires forall ys | ys in runs :: |ys| == |ms|
  {
    if runs == [] then Tables({}, map[]) else RunFrom(After(ms, runs[..|runs| - 1]), ms, runs[|runs| - 1], 0)
  }

  /** In how many runs the migration is tried: up to the first try that passes. */
  function Tries(m: Migration, k: nat, runs: seq<seq<Try>>): (n: nat)
    requires forall ys | ys in runs :: k < |ys|
    ensures n <= |runs| && (runs != [] ==> n > 0)
  {
    if runs == [] then 0
    else if Passes(m, runs[0][k]) then 1
    else 1 + Tries(m, k, runs[1..])
  }

  function LastTry(m: Migration, k: nat, runs: seq<seq<Try>>): Try
    requires runs != [] && forall ys | ys in runs :: k < |ys|
  {
    runs[Tries(m, k, runs) - 1][k]
  }

  lemma {:induction false} TriesSnoc(m: Migration, k: nat, runs: seq<seq<Try>>, ys: seq<Try>)
    requires k < |ys| && forall zs | zs in runs :: k < |zs|
    ensures Tries(m, k, runs + [ys])
            == if runs != [] && Passes(m, LastTry(m, k, runs)) then Tries(m, k, runs) else |runs| + 1
    ensures runs != [] && !Passes(m, LastTry(m, k, runs)) ==> Tries(m, k, runs) == |runs|
  {
    hide Passes;
    var all := runs + [ys];
    if runs == [] {
      assert all[1..] == [];
    } else {
      TriesSnoc(m, k, runs[1..], ys);
      assert all[1..] == runs[1..] + [ys];
    }
  }

  /**
   * After any number of runs with arbitrarily failing statements, bookkeeping included: a
   * migration is tried until its first try that puts its name into _migrations. It is
   * applied exactly when that try has come; it has a failure row exactly when its last
   * try was recorded, and the attempts are then the number of tries.
   */
  lemma {:induction false} RunsAccountForFailures(ms: seq<Migration>, runs: seq<seq<Try>>, k: nat)
    requires Orderly(ms) && k < |ms| && forall ys | ys in runs :: |ys| == |ms|
    ensures var m := ms[k];
            Entry(After(ms, runs), m.name)
            == if runs == [] then (false, None)
               else var last := LastTry(m, k, runs);
                    (Passes(m, last), if Records(m, last) then Some(Tries(m, k, runs)) else None)
  {
    hide RunFrom, Orderly, Passes, Records;
    if runs != [] {
      var before, ys := runs[..|runs| - 1], runs[|runs| - 1];
      assert ys in runs;
      assert forall zs | zs in before :: zs in runs;
      RunsAccountForFailures(ms, before, k);
      RunOnName(After(ms, before), ms, ys, 0, k);
      TriesSnoc(ms[k], k, before, ys);
      assert before + [ys] == runs;
      if before != [] {
        UnpassedIsRecorded(ms[k], LastTry(ms[k], k, before));
      }
    }
  }

  lemma UnpassedIsRecorded(m: Migration, y: Try)
    ensures Passes(m, y) || Records(m, y)
  {
  }

  /** getStatus: the names without a row in _migrations. */
  function PendingNames(t: Tables, ms: seq<Migration>): seq<string> {
    if ms == [] then [] else (if ms[0].name in t.applied then [] else [ms[0].name]) + PendingNames(t, ms[1..])
  }

  lemma {:induction false} PendingMember(t: Tables, ms: seq<Migration>, name: string)
    ensures name in PendingNames(t, ms) <==> name !in t.applied && exists k :: 0 <= k < |ms| && ms[k].name == name
  {
    if ms != [] {
      PendingMember(t, ms[1..], name);
      assert forall k | 1 <= k < |ms| :: ms[k] == ms[1..][k - 1];
      if name in PendingNames(t, ms[1..]) {
        var k :| 0 <= k < |ms[1..]| && ms[1..][k].name == name;
        assert ms[k + 1].name == name;
      }
    }
  }

  /**
   * After at least one run every pending name that getStatus reports has a failure row;
   * conversely a listed name with a failure row is pending exactly when its last try did
   * not both pass and throw.
   */
  lemma PendingAreFailed(ms: seq<Migration>, runs: seq<seq<Try>>, k: nat)
    requires Orderly(ms) && runs != [] && k < |ms| && forall ys | ys in runs :: |ys| == |ms|
    ensures var t := After(ms, runs);
            var pending := ms[k].name in PendingNames(t, ms);
            var last := LastTry(ms[k], k, runs);
            (pending ==> ms[k].name in t.failures)
            && ((pending <==> ms[k].name in t.failures) <==> !(Passes(ms[k], last) && Records(ms[k], last)))
  {
    hide Orderly, After, PendingNames, LastTry, Passes, Records;
    PendingMember(After(ms, runs), ms, ms[k].name);
    RunsAccountForFailures(ms, runs, k);
    UnpassedIsRecorded(ms[k], LastTry(ms[k], k, runs));
  }

  // ----- concurrent calls -----

  /**
   * The promise field by the loop behind it, the loops at work, the first callers whose
   * `finally` is still to come, and how many loops have been started.
   */
  datatype Runner = Runner(promise: Option<nat>, atWork: set<nat>, waiting: set<nat>, started: nat)

  /** A call of run, the end of a loop by success or by an error, and the first caller's `finally`. */
  datatype CallEvent = Call | Settle(loop: nat) | Finally(loop: nat)

  predicate CanHappen(r: Runner, e: CallEvent) {
    match e
    case Call => true
    case Settle(loop) => loop in r.atWork
    case Finally(loop) => loop in r.waiting && loop !in r.atWork
  }

  function React(r: Runner, e: CallEvent): Runner {
    match e
    case Call =>
      if r.promise.Some? then r
      else Runner(Some(r.started), r.atWork + {r.started}, r.waiting + {r.started}, r.started + 1)
    case Settle(loop) => r.(atWork := r.atWork - {loop})
    case Finally(loop) => r.(promise := None, waiting := r.waiting - {loop})
  }

  predicate Happens(r: Runner, es: seq<CallEvent>)
    decreases |es|
  {
    es != [] ==> CanHappen(r, es[0]) && Happens(React(r, es[0]), es[1..])
  }

  function Reacts(r: Runner, es: seq<CallEvent>): Runner
    decreases |es|
  {
    if es == [] then r else Reacts(React(r, es[0]), es[1..])
  }

  const Idle := Runner(None, {}, {}, 0)

  ghost predicate OneAtMost(r: Runner) {
    && r.atWork <= r.waiting
    && r.waiting == if r.promise.Some? then {r.promise.value} else {}
  }

  lemma {:induction false} OneKept(r: Runner, es: seq<CallEvent>)
    requires OneAtMost(r) && Happens(r, es)
    ensures OneAtMost(Reacts(r, es))
    decreases |es|
  {
    if es != [] {
      OneKept(React(r, es[0]), es[1..]);
    }
  }

  predicate Settled(es: seq<CallEvent>, loop: nat) {
    Settle(loop) in es
  }

  /** The loops that have been started and have not settled are the ones at work. */
  lemma {:induction false} LoopsAtWork(r: Runner, es: seq<CallEvent>, loop: nat)
    requires OneAtMost(r) && Happens(r, es)
    requires forall l | l in r.atWork || l in r.waiting :: l < r.started
    ensures var r' := Reacts(r, es);
            && r.started <= r'.started
            && (loop in r.atWork || r.started <= loop < r'.started ==> (loop in r'.atWork <==> !Settled(es, loop)))
            && (loop !in r.atWork && !(r.started <= loop < r'.started) ==> loop !in r'.atWork && !Settled(es, loop))
    decreases |es|
  {
    if es != [] {
      var e := es[0];
      OneKept(r, [e]);
      assert Reacts(r, [e]) == React(r, e) by { assert [e][1..] == []; }
      LoopsAtWork(React(r, e), es[1..], loop);
      assert forall x :: x in es <==> x == e || x in es[1..];
    }
  }

  /** In every run the loops at work are exactly those started and not settled, and a call can always come. */
  lemma StartedLoopsWork(es: seq<CallEvent>, loop: nat)
    requires Happens(Idle, es)
    ensures var r := Reacts(Idle, es);
            && (loop in r.atWork <==> loop < r.started && !Settled(es, loop))
            && CanHappen(r, Call)
            && (React(r, Call).started > r.started ==> r.started in React(r, Call).atWork)
            && (loop in r.atWork ==> CanHappen(r, Settle(loop)) && loop !in React(r, Settle(loop)).atWork)
  {
    LoopsAtWork(Idle, es, loop);
  }

  /**
   * However calls, ends and `finally` blocks follow each other: at most one loop is at
   * work, and a further call starts a loop exactly when no first caller has its `finally`
   * still to come; so calls that arrive after a loop has settled and before that share
   * the settled promise.
   */
  lemma NeverTwoLoops(es: seq<CallEvent>)
    requires Happens(Idle, es)
    ensures var r := Reacts(Idle, es);
            (forall a, b | a in r.atWork && b in r.atWork :: a == b)
            && (React(r, Call).started > r.started <==> r.waiting == {})
            && (r.waiting != {} ==> React(r, Call) == r && r.promise.Some? && r.promise.value in r.waiting)
            && (forall loop | CanHappen(r, Finally(loop)) ::
                React(React(r, Finally(loop)), Call).started == r.started + 1)
  {
    OneKept(Idle, es);
  }
}
