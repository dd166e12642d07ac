/** One command text's statistics (internal/store/stats.go, `statFor`), as a function of the set of
    its executions. */
module CommandStats {
  import opened Calendar
  import opened Rows
  import opened Frecency
  import opened Score

  datatype Stat = Stat(runs: nat, lastTime: int, weight: real, weightAt: int, succeeded: nat, failed: nat,
                       neverRan: nat, interrupted: nat, unfinished: nat, importedRuns: nat, lastFailedAt: int)

  // ------------------------------------------------------------- one command's statistics

  predicate Unfinished(r: Row) {
    r.status == Running || r.status == Orphaned || r.exitCode == None
  }

  predicate Ended(r: Row, as_: Outcome) {
    !Unfinished(r) && r.exitCode.Some? && ClassifyExit(r.exitCode.value) == as_
  }

  predicate Succeeded(r: Row) { Ended(r, Success) }
  predicate DidFail(r: Row) { Ended(r, Failure) }
  predicate NeverRan(r: Row) { Ended(r, CouldNotRun) }
  predicate Interrupted(r: Row) { Ended(r, Signalled) }
  predicate WasImported(r: Row) { r.imported }

  function Filter(rows: seq<Row>, p: Row -> bool): seq<Row> {
    if rows == [] then []
    else if p(rows[|rows|-1]) then Filter(rows[..|rows|-1], p) + [rows[|rows|-1]]
    else Filter(rows[..|rows|-1], p)
  }

  function Times(rows: seq<Row>): seq<int> {
    if rows == [] then [] else Times(rows[..|rows|-1]) + [rows[|rows|-1].startTime]
  }

  /** The statistics of executions listed oldest first: how many there are of each kind, the latest
      and the latest failed one, and the decayed count of their start times. */
  function Tally(decay: nat -> real, rows: seq<Row>): Stat {
    var c := Observed(decay, Times(rows));
    Stat(|rows|, Latest(Times(rows)), c.weight, c.at, |Filter(rows, Succeeded)|, |Filter(rows, DidFail)|,
         |Filter(rows, NeverRan)|, |Filter(rows, Interrupted)|, |Filter(rows, Unfinished)|,
         |Filter(rows, WasImported)|, Latest(Times(Filter(rows, DidFail))))
  }

  predicate OldestFirst(rows: seq<Row>) {
    forall i, j :: 0 <= i < j < |rows| ==> rows[i].startTime <= rows[j].startTime
  }

  predicate NoRepeats(rows: seq<Row>) {
    forall i, j :: 0 <= i < j < |rows| ==> rows[i] != rows[j]
  }

  /** Each row carries its own id. */
  ghost predicate RowsNamed(commands: map<string, Row>) {
    forall id :: id in commands ==> commands[id].id == id
  }

  ghost function Executions(commands: map<string, Row>, text: string): set<Row> {
    set id | id in commands && commands[id].command == text :: commands[id]
  }

  /** `rows` is a result of SELECT … WHERE command = ? ORDER BY start_time; equal start times come in
      any order. */
  ghost predicate IsQuery(rows: seq<Row>, executions: set<Row>) {
    OldestFirst(rows) && NoRepeats(rows) && forall r :: r in rows <==> r in executions
  }

  lemma {:induction false} FilterCounts(rows: seq<Row>, p: Row -> bool, r: Row)
    ensures multiset(Filter(rows, p))[r] == if p(r) then multiset(rows)[r] else 0
  {
    if rows != [] {
      var rest, x := rows[..|rows|-1], rows[|rows|-1];
      FilterCounts(rest, p, r);
      assert rows == rest + [x];
    }
  }

  lemma FilterPermutes(a: seq<Row>, b: seq<Row>, p: Row -> bool)
    requires multiset(a) == multiset(b)
    ensures multiset(Filter(a, p)) == multiset(Filter(b, p)) && |Filter(a, p)| == |Filter(b, p)|
  {
    forall r ensures multiset(Filter(a, p))[r] == multiset(Filter(b, p))[r] {
      FilterCounts(a, p, r);
      FilterCounts(b, p, r);
    }
    assert multiset(Filter(a, p)) == multiset(Filter(b, p));
    assert |multiset(Filter(a, p))| == |Filter(a, p)|;
  }

  lemma {:induction false} TimesCounts(rows: seq<Row>, t: int)
    ensures multiset(Times(rows))[t] == |Filter(rows, (r: Row) => r.startTime == t)|
  {
    if rows != [] { TimesCounts(rows[..|rows|-1], t); }
  }

  lemma {:induction false} TimesInOrder(rows: seq<Row>)
    requires OldestFirst(rows)
    ensures |Times(rows)| == |rows| && InOrder(Times(rows))
    ensures forall i :: 0 <= i < |rows| ==> Times(rows)[i] == rows[i].startTime
  {
    if rows != [] { TimesInOrder(rows[..|rows|-1]); }
  }

  lemma {:induction false} FilterOldestFirst(rows: seq<Row>, p: Row -> bool)
    requires OldestFirst(rows)
    ensures OldestFirst(Filter(rows, p)) && forall r :: r in Filter(rows, p) ==> r in rows
  {
    if rows != [] {
      var rest, x := rows[..|rows|-1], rows[|rows|-1];
      FilterOldestFirst(rest, p);
      var f := Filter(rest, p);
      forall i | 0 <= i < |f| ensures f[i].startTime <= x.startTime && f[i] in rows {
        assert f[i] in rest;
        var k :| 0 <= k < |rest| && rest[k] == f[i];
        assert rows[k] == f[i];
      }
    }
  }

  lemma LastIsGreatest(a: seq<int>, x: int)
    requires InOrder(a) && a != []
    ensures x in multiset(a) ==> x <= a[|a|-1]
    ensures a[|a|-1] in multiset(a) && InOrder(a[..|a|-1]) && multiset(a[..|a|-1]) == multiset(a) - multiset{a[|a|-1]}
  {
    assert a == a[..|a|-1] + [a[|a|-1]];
    if x in multiset(a) {
      assert x in a;
      var i :| 0 <= i < |a| && a[i] == x;
    }
  }

  lemma SameLast(a: seq<int>, b: seq<int>)
    requires InOrder(a) && InOrder(b) && multiset(a) == multiset(b) && a != [] && b != []
    ensures a[|a|-1] == b[|b|-1] && multiset(a[..|a|-1]) == multiset(b[..|b|-1])
    ensures InOrder(a[..|a|-1]) && InOrder(b[..|b|-1])
  {
    hide InOrder;
    LastIsGreatest(a, b[|b|-1]);
    LastIsGreatest(b, a[|a|-1]);
  }

  /** Sorted numbers with the same multiplicities are the same sequence. */
  lemma {:induction false} SortedSame(a: seq<int>, b: seq<int>)
    requires InOrder(a) && InOrder(b) && multiset(a) == multiset(b)
    ensures a == b
  {
    hide InOrder;
    assert |multiset(a)| == |a| && |multiset(b)| == |b|;
    if a != [] {
      SameLast(a, b);
      SortedSame(a[..|a|-1], b[..|b|-1]);
      assert a == a[..|a|-1] + [a[|a|-1]] && b == b[..|b|-1] + [b[|b|-1]];
    }
  }

  lemma SameTimes(a: seq<Row>, b: seq<Row>)
    requires OldestFirst(a) && OldestFirst(b) && multiset(a) == multiset(b)
    ensures Times(a) == Times(b)
  {
    TimesInOrder(a);
    TimesInOrder(b);
    forall t ensures multiset(Times(a))[t] == multiset(Times(b))[t] {
      TimesCounts(a, t);
      TimesCounts(b, t);
      FilterPermutes(a, b, (r: Row) => r.startTime == t);
    }
    assert multiset(Times(a)) == multiset(Times(b));
    SortedSame(Times(a), Times(b));
  }

  lemma {:induction false} CountOnce(rows: seq<Row>, r: Row)
    requires NoRepeats(rows)
    ensures multiset(rows)[r] == if r in rows then 1 else 0
  {
    if rows != [] {
      var rest, x := rows[..|rows|-1], rows[|rows|-1];
      assert rows == rest + [x];
      CountOnce(rest, r);
      assert x !in rest;
    }
  }

  /** The statistics are a function of the set of executions: ties in the query's order change
      nothing. */
  lemma TallyUnique(decay: nat -> real, a: seq<Row>, b: seq<Row>, executions: set<Row>)
    requires IsQuery(a, executions) && IsQuery(b, executions)
    ensures Tally(decay, a) == Tally(decay, b) && |a| == |b|
  {
    hide Observed, Filter, Times, Latest, OldestFirst, NoRepeats;
    forall r ensures multiset(a)[r] == multiset(b)[r] {
      CountOnce(a, r);
      CountOnce(b, r);
    }
    assert multiset(a) == multiset(b);
    assert |multiset(a)| == |a| && |multiset(b)| == |b|;
    SameTimes(a, b);
    FilterPermutes(a, b, Succeeded);
    FilterPermutes(a, b, DidFail);
    FilterPermutes(a, b, NeverRan);
    FilterPermutes(a, b, Interrupted);
    FilterPermutes(a, b, Unfinished);
    FilterPermutes(a, b, WasImported);
    FilterOldestFirst(a, DidFail);
    FilterOldestFirst(b, DidFail);
    SameTimes(Filter(a, DidFail), Filter(b, DidFail));
  }

  function InsertRow(r: Row, rows: seq<Row>): seq<Row> {
    if rows == [] || r.startTime < rows[0].startTime then [r] + rows else [rows[0]] + InsertRow(r, rows[1..])
  }

  lemma {:induction false} InsertRowSorted(r: Row, rows: seq<Row>)
    requires OldestFirst(rows) && NoRepeats(rows) && r !in rows
    ensures OldestFirst(InsertRow(r, rows)) && NoRepeats(InsertRow(r, rows))
    ensures forall x :: x in InsertRow(r, rows) <==> x == r || x in rows
  {
    hide OldestFirst, NoRepeats;
    NoRows();
    if rows == [] {
      OldestInFront(r, []);
    } else {
      var x, rest := rows[0], rows[1..];
      assert rows == [x] + rest;
      OldestInFront(x, rest);
      if r.startTime < x.startTime {
        OldestInFront(r, rows);
      } else {
        InsertRowSorted(r, rest);
        OldestInFront(x, InsertRow(r, rest));
      }
    }
  }

  lemma OldestInFront(x: Row, t: seq<Row>)
    ensures OldestFirst([x] + t) && NoRepeats([x] + t)
            <==> OldestFirst(t) && NoRepeats(t) && forall y :: y in t ==> x.startTime <= y.startTime && x != y
  {
    var g := [x] + t;
    assert forall j :: 0 <= j < |t| ==> g[j+1] == t[j];
    if OldestFirst(g) && NoRepeats(g) {
      forall i, j | 0 <= i < j < |t| ensures t[i].startTime <= t[j].startTime && t[i] != t[j] {
        assert g[i+1] == t[i] && g[j+1] == t[j];
      }
      forall y | y in t ensures x.startTime <= y.startTime && x != y {
        var j :| 0 <= j < |t| && t[j] == y;
        assert g[0] == x && g[j+1] == y;
      }
    }
  }

  ghost function SomeQuery(executions: set<Row>): (rows: seq<Row>)
    ensures IsQuery(rows, executions)
    decreases |executions|
  {
    if executions == {} then []
    else
      var r :| r in executions;
      var rows := SomeQuery(executions - {r});
      InsertRowSorted(r, rows);
      InsertRow(r, rows)
  }

  /** The statistics of one command text. */
  ghost function StatOf(decay: nat -> real, commands: map<string, Row>, text: string): Stat {
    Tally(decay, SomeQuery(Executions(commands, text)))
  }

  /** Goes once over the rows with a text, oldest first, and counts. */
  method StatFor(decay: nat -> real, commands: map<string, Row>, text: string) returns (st: Stat)
    requires IsDecay(decay) && RowsNamed(commands)
    ensures st == StatOf(decay, commands, text)
  {
    hide IsDecay, Observed, Latest, Tally, SomeQuery, OldestFirst, NoRepeats;
    var rows := Query(commands, text);
    var frecency := new Counter(decay);
    var lastTime, lastFailedAt := 0, 0;
    var succeeded, failed, neverRan, interrupted, unfinished, imported := 0, 0, 0, 0, 0, 0;
    NothingTallied();
    for i := 0 to |rows|
      invariant frecency.Valid() && fresh(frecency) && frecency.decay == decay && frecency.observed == Times(rows[..i])
      invariant lastTime == Latest(Times(rows[..i])) && lastFailedAt == Latest(Times(Filter(rows[..i], DidFail)))
      invariant succeeded == |Filter(rows[..i], Succeeded)| && failed == |Filter(rows[..i], DidFail)|
      invariant neverRan == |Filter(rows[..i], NeverRan)| && interrupted == |Filter(rows[..i], Interrupted)|
      invariant unfinished == |Filter(rows[..i], Unfinished)| && imported == |Filter(rows[..i], WasImported)|
    {
      var r := rows[i];
      OneMoreRow(rows, i);
      if r.startTime > lastTime { lastTime := r.startTime; }
      frecency.Observe(r.startTime);
      if r.imported { imported := imported + 1; }
      if r.status == Running || r.status == Orphaned || r.exitCode == None {
        unfinished := unfinished + 1;
      } else {
        match ClassifyExit(r.exitCode.value)
        case Success => succeeded := succeeded + 1;
        case CouldNotRun => neverRan := neverRan + 1;
        case Signalled => interrupted := interrupted + 1;
        case Failure =>
          failed := failed + 1;
          if r.startTime > lastFailedAt { lastFailedAt := r.startTime; }
      }
    }
    assert rows[..|rows|] == rows;
    st := Stat(|rows|, lastTime, frecency.weight, frecency.at, succeeded, failed, neverRan, interrupted, unfinished,
               imported, lastFailedAt);
    Tallied(decay, rows);
    TallyUnique(decay, rows, SomeQuery(Executions(commands, text)), Executions(commands, text));
  }

  lemma Tallied(decay: nat -> real, rows: seq<Row>)
    ensures var c := Observed(decay, Times(rows));
            Tally(decay, rows) ==
            Stat(|rows|, Latest(Times(rows)), c.weight, c.at, |Filter(rows, Succeeded)|, |Filter(rows, DidFail)|,
                 |Filter(rows, NeverRan)|, |Filter(rows, Interrupted)|, |Filter(rows, Unfinished)|,
                 |Filter(rows, WasImported)|, Latest(Times(Filter(rows, DidFail))))
  {
  }

  lemma NothingTallied()
    ensures Times([]) == [] && Latest([]) == 0
    ensures forall p: Row -> bool :: Filter([], p) == []
  {
  }

  lemma OneMoreFiltered(rows: seq<Row>, i: nat, p: Row -> bool)
    requires i < |rows|
    ensures Filter(rows[..i+1], p) == Filter(rows[..i], p) + if p(rows[i]) then [rows[i]] else []
  {
    assert rows[..i+1][..i] == rows[..i];
  }

  lemma TimesSnoc(rows: seq<Row>, r: Row)
    ensures Times(rows + [r]) == Times(rows) + [r.startTime]
  {
    assert (rows + [r])[..|rows|] == rows;
  }

  lemma OneMoreRow(rows: seq<Row>, i: nat)
    requires i < |rows|
    ensures var f, g, r := rows[..i], rows[..i+1], rows[i];
            && Times(g) == Times(f) + [r.startTime] && Latest(Times(g)) == Max(Latest(Times(f)), r.startTime)
            && Latest(Times(Filter(g, DidFail))) ==
               (if DidFail(r) then Max(Latest(Times(Filter(f, DidFail))), r.startTime) else Latest(Times(Filter(f, DidFail))))
            && |Filter(g, Succeeded)| == |Filter(f, Succeeded)| + (if Succeeded(r) then 1 else 0)
            && |Filter(g, DidFail)| == |Filter(f, DidFail)| + (if DidFail(r) then 1 else 0)
            && |Filter(g, NeverRan)| == |Filter(f, NeverRan)| + (if NeverRan(r) then 1 else 0)
            && |Filter(g, Interrupted)| == |Filter(f, Interrupted)| + (if Interrupted(r) then 1 else 0)
            && |Filter(g, Unfinished)| == |Filter(f, Unfinished)| + (if Unfinished(r) then 1 else 0)
            && |Filter(g, WasImported)| == |Filter(f, WasImported)| + (if WasImported(r) then 1 else 0)
  {
    hide Latest, Filter, Times;
    assert rows[..i+1] == rows[..i] + [rows[i]];
    TimesSnoc(rows[..i], rows[i]);
    LatestSnoc(Times(rows[..i]), rows[i].startTime);
    OneMoreFiltered(rows, i, Succeeded);
    OneMoreFiltered(rows, i, DidFail);
    OneMoreFiltered(rows, i, NeverRan);
    OneMoreFiltered(rows, i, Interrupted);
    OneMoreFiltered(rows, i, Unfinished);
    OneMoreFiltered(rows, i, WasImported);
    var failed := Filter(rows[..i], DidFail);
    TimesSnoc(failed, rows[i]);
    LatestSnoc(Times(failed), rows[i].startTime);
    assert !DidFail(rows[i]) ==> Filter(rows[..i+1], DidFail) == failed;
  }

  /** The rows with one text, oldest first. */
  method Query(commands: map<string, Row>, text: string) returns (rows: seq<Row>)
    requires RowsNamed(commands)
    ensures IsQuery(rows, Executions(commands, text))
  {
    hide OldestFirst, NoRepeats;
    rows := [];
    var ids := commands.Keys;
    NoRows();
    while ids != {}
      invariant ids <= commands.Keys && OldestFirst(rows) && NoRepeats(rows)
      invariant forall r :: r in rows <==> r.id in commands && r.id !in ids && commands[r.id] == r && r.command == text
      decreases |ids|
    {
      var id :| id in ids;
      ids := ids - {id};
      if commands[id].command == text {
        InsertRowSorted(commands[id], rows);
        rows := InsertRow(commands[id], rows);
      }
    }
  }

  lemma NoRows()
    ensures OldestFirst([]) && NoRepeats([])
  {
  }

  /** A text's weight is never negative. */
  lemma WeightNonNegative(decay: nat -> real, commands: map<string, Row>, text: string)
    requires IsDecay(decay)
    ensures StatOf(decay, commands, text).weight >= 0.0
  {
    hide IsDecay, Filter, Times, Latest, SomeQuery, Observed;
    ObservedNonNegative(decay, Times(SomeQuery(Executions(commands, text))));
  }

  lemma {:induction false} ObservedNonNegative(decay: nat -> real, times: seq<int>)
    requires IsDecay(decay)
    ensures Observed(decay, times).weight >= 0.0
  {
    hide IsDecay;
    if times != [] {
      var c, t := Observed(decay, times[..|times|-1]), times[|times|-1];
      ObservedNonNegative(decay, times[..|times|-1]);
      DecayLaws(decay, Age(t, c.at), 0);
      DecayLaws(decay, Age(if t >= c.at then t else c.at, t), 0);
      assert c.weight * decay(Age(t, c.at)) >= 0.0;
    }
  }

  /** A text's run count is the number of its executions. */
  lemma RunsCountExecutions(decay: nat -> real, commands: map<string, Row>, text: string)
    ensures StatOf(decay, commands, text).runs == |Executions(commands, text)|
  {
    hide Observed, Filter, Times, Latest, OldestFirst;
    var executions := Executions(commands, text);
    var rows := SomeQuery(executions);
    ElementCount(rows);
    assert (set r | r in rows) == executions;
  }

  lemma {:induction false} ElementCount(rows: seq<Row>)
    requires NoRepeats(rows)
    ensures |set r | r in rows| == |rows|
  {
    if rows == [] {
      assert (set r | r in rows) == {};
    } else {
      var rest, x := rows[..|rows|-1], rows[|rows|-1];
      assert rows == rest + [x];
      ElementCount(rest);
      assert (set r | r in rows) == (set r | r in rest) + {x};
    }
  }

  // ------------------------------------------------------------- what the numbers say about the executions

  /** The execution is over and is known to have exited. */
  predicate Exited(r: Row) {
    r.status != Running && r.status != Orphaned && r.exitCode.Some?
  }

  lemma LastIsNew(rest: seq<Row>, x: Row)
    requires NoRepeats(rest + [x])
    ensures NoRepeats(rest) && x !in rest
  {
    forall i | 0 <= i < |rest| ensures rest[i] != x {
      assert (rest + [x])[i] == rest[i] && (rest + [x])[|rest|] == x;
    }
    forall i, j | 0 <= i < j < |rest| ensures rest[i] != rest[j] {
      assert (rest + [x])[i] == rest[i] && (rest + [x])[j] == rest[j];
    }
  }

  lemma {:induction false} FilterIsSubset(rows: seq<Row>, p: Row -> bool)
    requires NoRepeats(rows)
    ensures |Filter(rows, p)| == |set r | r in rows && p(r)| && forall r :: r in Filter(rows, p) <==> r in rows && p(r)
  {
    hide NoRepeats;
    if rows == [] {
      assert (set r | r in rows && p(r)) == {};
    } else {
      var rest, x := rows[..|rows|-1], rows[|rows|-1];
      assert rows == rest + [x];
      LastIsNew(rest, x);
      FilterIsSubset(rest, p);
      assert (set r | r in rows && p(r)) == (set r | r in rest && p(r)) + if p(x) then {x} else {};
    }
  }

  lemma KindCount(rows: seq<Row>, executions: set<Row>, p: Row -> bool, kind: set<Row>)
    requires IsQuery(rows, executions) && forall r :: r in kind <==> r in executions && p(r)
    ensures |Filter(rows, p)| == |kind|
  {
    FilterIsSubset(rows, p);
    assert kind == set r | r in rows && p(r);
  }

  lemma Counts(decay: nat -> real, commands: map<string, Row>, text: string)
    ensures var e, st := Executions(commands, text), StatOf(decay, commands, text);
            && st.succeeded == |set r | r in e && Succeeded(r)| && st.failed == |set r | r in e && DidFail(r)|
            && st.neverRan == |set r | r in e && NeverRan(r)| && st.interrupted == |set r | r in e && Interrupted(r)|
            && st.unfinished == |set r | r in e && Unfinished(r)| && st.importedRuns == |set r | r in e && WasImported(r)|
            && st.runs == |e|
  {
    hide Observed, Filter, Times, Frecency.Latest, OldestFirst, SomeQuery, Executions, IsQuery,
         Succeeded, DidFail, NeverRan, Interrupted, Unfinished, WasImported;
    var e := Executions(commands, text);
    var rows := SomeQuery(e);
    RunsCountExecutions(decay, commands, text);
    KindCount(rows, e, Succeeded, set r | r in e && Succeeded(r));
    KindCount(rows, e, DidFail, set r | r in e && DidFail(r));
    KindCount(rows, e, NeverRan, set r | r in e && NeverRan(r));
    KindCount(rows, e, Interrupted, set r | r in e && Interrupted(r));
    KindCount(rows, e, Unfinished, set r | r in e && Unfinished(r));
    KindCount(rows, e, WasImported, set r | r in e && WasImported(r));
  }

  lemma KindsOf(e: set<Row>)
    ensures (set r | r in e && Succeeded(r)) == set r | r in e && Exited(r) && r.exitCode.value == 0
    ensures (set r | r in e && NeverRan(r)) == set r | r in e && Exited(r) && (r.exitCode.value == 126 || r.exitCode.value == 127)
    ensures (set r | r in e && Interrupted(r)) == set r | r in e && Exited(r) && 128 < r.exitCode.value <= 165
  {
  }

  lemma OtherKindsOf(e: set<Row>)
    ensures (set r | r in e && DidFail(r))
            == set r | r in e && Exited(r) && r.exitCode.value !in {0, 126, 127} && !(128 < r.exitCode.value <= 165)
    ensures (set r | r in e && Unfinished(r)) == set r | r in e && !Exited(r)
    ensures (set r | r in e && WasImported(r)) == set r | r in e && r.imported
  {
  }

  /** Each execution is counted under its one kind: by what its exit code means when it has one, and as
      unfinished when it has none, is still running or was orphaned. */
  lemma CountsByKind(decay: nat -> real, commands: map<string, Row>, text: string)
    ensures var e, st := Executions(commands, text), StatOf(decay, commands, text);
            && st.succeeded == |set r | r in e && Exited(r) && r.exitCode.value == 0|
            && st.neverRan == |set r | r in e && Exited(r) && (r.exitCode.value == 126 || r.exitCode.value == 127)|
            && st.interrupted == |set r | r in e && Exited(r) && 128 < r.exitCode.value <= 165|
            && st.failed == |set r | r in e && Exited(r) && r.exitCode.value !in {0, 126, 127} && !(128 < r.exitCode.value <= 165)|
            && st.unfinished == |set r | r in e && !Exited(r)|
            && st.importedRuns == |set r | r in e && r.imported|
            && st.runs == |e| == st.succeeded + st.failed + st.neverRan + st.interrupted + st.unfinished
  {
    hide StatOf, Executions, Succeeded, DidFail, NeverRan, Interrupted, Unfinished, WasImported, Exited;
    var e := Executions(commands, text);
    Counts(decay, commands, text);
    KindsOf(e);
    OtherKindsOf(e);
    KindsPartition(e);
  }

  lemma KindsPartition(e: set<Row>)
    ensures |e| == |set r | r in e && Succeeded(r)| + |set r | r in e && DidFail(r)| + |set r | r in e && NeverRan(r)|
                 + |set r | r in e && Interrupted(r)| + |set r | r in e && Unfinished(r)|
  {
    var a, b, c := set r | r in e && Succeeded(r), set r | r in e && DidFail(r), set r | r in e && NeverRan(r);
    var d, f := set r | r in e && Interrupted(r), set r | r in e && Unfinished(r);
    KindsCover(e, a, b, c, d, f);
    hide Succeeded, DidFail, NeverRan, Interrupted, Unfinished;
    assert |a + b + c + d + f| == |a + b + c + d| + |f| && |a + b + c + d| == |a + b + c| + |d|;
    assert |a + b + c| == |a + b| + |c| && |a + b| == |a| + |b|;
  }

  lemma KindsCover(e: set<Row>, a: set<Row>, b: set<Row>, c: set<Row>, d: set<Row>, f: set<Row>)
    requires forall r :: (r in a <==> r in e && Succeeded(r)) && (r in b <==> r in e && DidFail(r)) && (r in c <==> r in e && NeverRan(r))
                         && (r in d <==> r in e && Interrupted(r)) && (r in f <==> r in e && Unfinished(r))
    ensures e == a + b + c + d + f
    ensures a !! b && (a + b) !! c && (a + b + c) !! d && (a + b + c + d) !! f
  {
    hide Succeeded, DidFail, NeverRan, Interrupted, Unfinished;
    forall r ensures r in e <==> r in a + b + c + d + f {
      if r in e { OneKind(r); }
    }
    forall r | r in e ensures (r in a ==> r !in b + c + d + f) && (r in b ==> r !in c + d + f) && (r in c ==> r !in d + f) && (r in d ==> r !in f) {
      OneKind(r);
    }
  }

  lemma OneKind(r: Row)
    ensures Succeeded(r) || DidFail(r) || NeverRan(r) || Interrupted(r) || Unfinished(r)
    ensures Succeeded(r) ==> !DidFail(r) && !NeverRan(r) && !Interrupted(r) && !Unfinished(r)
    ensures DidFail(r) ==> !NeverRan(r) && !Interrupted(r) && !Unfinished(r)
    ensures NeverRan(r) ==> !Interrupted(r) && !Unfinished(r)
    ensures Interrupted(r) ==> !Unfinished(r)
  {
  }

  lemma LatestOfRows(rows: seq<Row>)
    requires OldestFirst(rows)
    ensures Frecency.Latest(Times(rows)) >= 0 && forall r :: r in rows ==> r.startTime <= Frecency.Latest(Times(rows))
    ensures Frecency.Latest(Times(rows)) == 0 || exists r :: r in rows && r.startTime == Frecency.Latest(Times(rows))
  {
    hide Frecency.Latest, Times;
    TimesInOrder(rows);
    LatestBounds(Times(rows));
  }

  /** The two times are those of the latest execution and of the latest failed one. */
  lemma LatestTimes(decay: nat -> real, commands: map<string, Row>, text: string)
    ensures var e, st := Executions(commands, text), StatOf(decay, commands, text);
            && 0 <= st.lastFailedAt <= st.lastTime
            && (forall r :: r in e ==> r.startTime <= st.lastTime)
            && (st.lastTime == 0 || exists r :: r in e && r.startTime == st.lastTime)
            && (forall r :: r in e && DidFail(r) ==> r.startTime <= st.lastFailedAt)
            && (st.lastFailedAt == 0 || exists r :: r in e && DidFail(r) && r.startTime == st.lastFailedAt)
  {
    hide Observed, Filter, Times, Frecency.Latest, OldestFirst, NoRepeats, SomeQuery, DidFail;
    var rows := SomeQuery(Executions(commands, text));
    LatestOfRows(rows);
    FilterIsSubset(rows, DidFail);
    FilterOldestFirst(rows, DidFail);
    LatestOfRows(Filter(rows, DidFail));
  }
}
