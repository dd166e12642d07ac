/** The picker's two-phase ranking (internal/tui/ranking.go): a cheap score for every match, the top
    200 re-scored with their context, and what cutting between the two can and cannot change. */
module Ranking {
  import opened Calendar
  import opened Rows
  import opened CommandStats
  import opened Matcher
  import opened Score
  import Frecency

  const REFINE_CANDIDATES := 200
  const DEBUG_WINDOW := 900_000

  /** A row of the ranking cache. */
  datatype Entry = Entry(command: string, stat: Stat)

  datatype Scored = Scored(entry: Entry, m: Match, score: real)

  /** Where a command has been run, relative to where the user stands. */
  datatype Place = Place(sameDir: bool, sameRepo: bool, sameSession: bool, sameHost: bool, sameBranch: bool)

  const NOWHERE := Place(false, false, false, false, false)

  /** The moment of the query and the functions the scores are built from. */
  datatype Setting = Setting(letters: Letters, cbrt: real -> real, log1p: real -> real, decay: nat -> real, now: int)

  ghost predicate ValidSetting(s: Setting) {
    IsCubeRoot(s.cbrt) && IsLog1p(s.log1p) && Frecency.IsDecay(s.decay)
  }

  function FrecencyOf(s: Setting, stat: Stat): real {
    Frecency.ValueAt(s.decay, Frecency.State(stat.weight, stat.weightAt, 0), s.now)
  }

  function FailureRate(stat: Stat): real {
    var finished := stat.succeeded + stat.failed + stat.neverRan;
    if finished > 0 then stat.failed as real / finished as real else 0.0
  }

  function ContextFor(stat: Stat, place: Place, now: int): Context {
    Context(place.sameDir, place.sameRepo, place.sameSession, place.sameHost, place.sameBranch,
            FailureRate(stat),
            stat.neverRan > 0 && stat.succeeded == 0 && stat.failed == 0,
            stat.lastFailedAt > 0 && now - stat.lastFailedAt <= DEBUG_WINDOW,
            stat.runs > 0 && stat.importedRuns == stat.runs)
  }

  lemma FailureRateInRange(stat: Stat)
    ensures 0.0 <= FailureRate(stat) <= 1.0
  {
    var finished := stat.succeeded + stat.failed + stat.neverRan;
    if finished > 0 { Fraction(stat.failed as real, finished as real); }
  }

  lemma Fraction(a: real, b: real)
    requires 0.0 <= a <= b && 0.0 < b
    ensures 0.0 <= a / b <= 1.0
  {
  }

  /** What the context says about a command's past, in terms of its executions: the failure rate is the
      failed share of those that ran to an end or could not be run; a command counts as never found when
      some execution could not be run and none ended; as being debugged when it failed in the last quarter
      of an hour; and as imported when every execution was. */
  lemma ContextOfHistory(decay: nat -> real, commands: map<string, Row>, text: string, place: Place, now: int)
    ensures var e, c := Executions(commands, text), ContextFor(StatOf(decay, commands, text), place, now);
            && (c.failureRate > 0.0 <==> exists r :: r in e && DidFail(r))
            && c.failureRate * |set r | r in e && (Succeeded(r) || DidFail(r) || NeverRan(r))| as real == |set r | r in e && DidFail(r)| as real
            && (c.neverRan <==> (exists r :: r in e && NeverRan(r)) && forall r :: r in e ==> !Succeeded(r) && !DidFail(r))
            && (c.debugging <==> exists r :: r in e && DidFail(r) && 0 < r.startTime && now - r.startTime <= 15 * 60 * 1000)
            && (c.allImported <==> e != {} && forall r :: r in e ==> r.imported)
            && c.sameDir == place.sameDir && c.sameRepo == place.sameRepo && c.sameSession == place.sameSession
            && c.sameHost == place.sameHost && c.sameBranch == place.sameBranch
  {
    hide StatOf, Executions, Succeeded, DidFail, NeverRan, FailureRate;
    PastFailures(decay, commands, text);
    RecentFailure(decay, commands, text, now);
    ImportedOnly(decay, commands, text);
  }

  /** A failure counts as debugging also when the command has succeeded since. */
  lemma DebuggingAfterSuccess(decay: nat -> real, failed: Row, succeeded: Row, place: Place, now: int)
    requires failed.id != succeeded.id && failed.command == succeeded.command && DidFail(failed) && Succeeded(succeeded)
    requires 0 < failed.startTime < succeeded.startTime <= now && now - failed.startTime <= 15 * 60 * 1000
    ensures var commands := map[failed.id := failed, succeeded.id := succeeded];
            ContextFor(StatOf(decay, commands, failed.command), place, now).debugging
  {
    hide StatOf, FailureRate;
    var commands := map[failed.id := failed, succeeded.id := succeeded];
    assert commands[failed.id] in Executions(commands, failed.command);
    ContextOfHistory(decay, commands, failed.command, place, now);
  }

  lemma PastFailures(decay: nat -> real, commands: map<string, Row>, text: string)
    ensures var e, st := Executions(commands, text), StatOf(decay, commands, text);
            && (FailureRate(st) > 0.0 <==> exists r :: r in e && DidFail(r))
            && FailureRate(st) * |set r | r in e && (Succeeded(r) || DidFail(r) || NeverRan(r))| as real == |set r | r in e && DidFail(r)| as real
            && (st.neverRan > 0 && st.succeeded == 0 && st.failed == 0
                <==> (exists r :: r in e && NeverRan(r)) && forall r :: r in e ==> !Succeeded(r) && !DidFail(r))
  {
    hide StatOf, Executions, Succeeded, DidFail, NeverRan;
    var e, st := Executions(commands, text), StatOf(decay, commands, text);
    Counts(decay, commands, text);
    JudgedCount(e);
    SomeOf(e, DidFail, set r | r in e && DidFail(r));
    SomeOf(e, Succeeded, set r | r in e && Succeeded(r));
    SomeOf(e, NeverRan, set r | r in e && NeverRan(r));
    Ratio(st.failed, st.succeeded + st.failed + st.neverRan);
  }

  lemma RecentFailure(decay: nat -> real, commands: map<string, Row>, text: string, now: int)
    ensures var e, last := Executions(commands, text), StatOf(decay, commands, text).lastFailedAt;
            last > 0 && now - last <= DEBUG_WINDOW
            <==> exists r :: r in e && DidFail(r) && 0 < r.startTime && now - r.startTime <= 15 * 60 * 1000
  {
    hide StatOf, Executions, DidFail;
    LatestTimes(decay, commands, text);
  }

  lemma ImportedOnly(decay: nat -> real, commands: map<string, Row>, text: string)
    ensures var e, st := Executions(commands, text), StatOf(decay, commands, text);
            st.runs > 0 && st.importedRuns == st.runs <==> e != {} && forall r :: r in e ==> r.imported
  {
    hide StatOf, Executions;
    var e := Executions(commands, text);
    Counts(decay, commands, text);
    AllOf((set r | r in e && WasImported(r)), e);
  }

  lemma JudgedCount(e: set<Row>)
    ensures |set r | r in e && (Succeeded(r) || DidFail(r) || NeverRan(r))|
            == |set r | r in e && Succeeded(r)| + |set r | r in e && DidFail(r)| + |set r | r in e && NeverRan(r)|
  {
    var a, b, c := set r | r in e && Succeeded(r), set r | r in e && DidFail(r), set r | r in e && NeverRan(r);
    assert (set r | r in e && (Succeeded(r) || DidFail(r) || NeverRan(r))) == a + b + c;
    assert a !! b && (a + b) !! c;
    assert |a + b + c| == |a + b| + |c| && |a + b| == |a| + |b|;
  }

  lemma SomeOf(e: set<Row>, p: Row -> bool, kind: set<Row>)
    requires forall r :: r in kind <==> r in e && p(r)
    ensures |kind| > 0 <==> exists r :: r in e && p(r)
  {
    if |kind| > 0 { var r :| r in kind; }
  }

  lemma AllOf<T>(a: set<T>, b: set<T>)
    requires a <= b
    ensures |a| == |b| <==> a == b
  {
    assert |b| == |a| + |b - a|;
    if a != b { var x :| x in b - a; }
  }

  lemma Ratio(a: nat, b: nat)
    requires a <= b
    ensures b > 0 ==> a as real / b as real * b as real == a as real && (a as real / b as real > 0.0 <==> a > 0)
  {
  }

  function Light(s: Setting, e: Entry, m: Match): Scored {
    Scored(e, m, ScoreOf(s.log1p, m, FrecencyOf(s, e.stat), NO_CONTEXT))
  }

  /** The candidate with its full score. */
  function Refined(s: Setting, places: map<string, Place>, x: Scored): Scored {
    x.(score := ScoreOf(s.log1p, x.m, FrecencyOf(s, x.entry.stat), ContextOf(s, places, x)))
  }

  function ContextOf(s: Setting, places: map<string, Place>, x: Scored): Context {
    ContextFor(x.entry.stat, if x.entry.command in places then places[x.entry.command] else NOWHERE, s.now)
  }

  // ------------------------------------------------------------- stable sorting

  function KeyOf(x: Scored): Key {
    Key(x.m.tier, x.score, x.entry.stat.lastTime)
  }

  predicate Ordered(list: seq<Scored>) {
    forall i, j :: 0 <= i < j < |list| ==> !Less(KeyOf(list[j]), KeyOf(list[i]))
  }

  function PutIn(x: Scored, list: seq<Scored>): seq<Scored> {
    if list == [] || !Less(KeyOf(list[0]), KeyOf(x)) then [x] + list else [list[0]] + PutIn(x, list[1..])
  }

  /** sort.SliceStable. */
  function StableSort(list: seq<Scored>): seq<Scored> {
    if list == [] then [] else PutIn(list[0], StableSort(list[1..]))
  }

  function Select(list: seq<Scored>, p: Scored -> bool): seq<Scored> {
    if list == [] then []
    else if p(list[0]) then [list[0]] + Select(list[1..], p)
    else Select(list[1..], p)
  }

  function HasKey(k: Key): Scored -> bool {
    (x: Scored) => KeyOf(x) == k
  }

  lemma {:induction false} PutInOrdered(x: Scored, list: seq<Scored>)
    requires Ordered(list)
    ensures Ordered(PutIn(x, list)) && multiset(PutIn(x, list)) == multiset(list) + multiset{x}
  {
    hide Less, KeyOf;
    if list == [] || !Less(KeyOf(list[0]), KeyOf(x)) {
      forall j | 0 <= j < |list| ensures !Less(KeyOf(list[j]), KeyOf(x)) {
        NotLessTransitive(list[j], list[0], x);
      }
    } else {
      var t := PutIn(x, list[1..]);
      PutInOrdered(x, list[1..]);
      assert list == [list[0]] + list[1..];
      forall j | 0 <= j < |t| ensures !Less(KeyOf(t[j]), KeyOf(list[0])) {
        assert t[j] in multiset(t);
        if t[j] == x {
          LessIsTotalOrder(KeyOf(list[0]), KeyOf(x), KeyOf(x));
        } else {
          assert t[j] in list[1..];
          LessIsTotalOrder(KeyOf(list[0]), KeyOf(list[0]), KeyOf(x));
        }
      }
    }
  }

  lemma NotLessTransitive(a: Scored, b: Scored, c: Scored)
    requires (a == b || !Less(KeyOf(a), KeyOf(b))) && !Less(KeyOf(b), KeyOf(c))
    ensures !Less(KeyOf(a), KeyOf(c))
  {
    LessIsTotalOrder(KeyOf(a), KeyOf(b), KeyOf(c));
    LessIsTotalOrder(KeyOf(a), KeyOf(c), KeyOf(b));
    LessIsTotalOrder(KeyOf(b), KeyOf(c), KeyOf(a));
    LessIsTotalOrder(KeyOf(b), KeyOf(a), KeyOf(c));
  }

  /** The sort is a permutation in order. */
  lemma {:induction false} SortSorts(list: seq<Scored>)
    ensures Ordered(StableSort(list)) && multiset(StableSort(list)) == multiset(list) && |StableSort(list)| == |list|
  {
    hide Less, KeyOf, Ordered;
    if list == [] {
      NothingOrdered();
    } else {
      SortSorts(list[1..]);
      PutInOrdered(list[0], StableSort(list[1..]));
      assert list == [list[0]] + list[1..];
    }
    assert |multiset(StableSort(list))| == |StableSort(list)| && |multiset(list)| == |list|;
  }

  lemma NothingOrdered()
    ensures Ordered([])
  {
  }

  lemma {:induction false} SelectMembers(list: seq<Scored>, p: Scored -> bool)
    ensures forall x :: x in Select(list, p) <==> x in list && p(x)
  {
    if list != [] {
      SelectMembers(list[1..], p);
      assert list == [list[0]] + list[1..];
    }
  }

  lemma OrderedCons(x: Scored, f: seq<Scored>)
    ensures Ordered([x] + f) <==> Ordered(f) && forall j :: 0 <= j < |f| ==> !Less(KeyOf(f[j]), KeyOf(x))
  {
    hide Less, KeyOf;
    var whole := [x] + f;
    assert forall j :: 0 <= j < |f| ==> whole[j+1] == f[j];
    if Ordered(whole) {
      forall i, j | 0 <= i < j < |f| ensures !Less(KeyOf(f[j]), KeyOf(f[i])) {
        assert !Less(KeyOf(whole[j+1]), KeyOf(whole[i+1]));
      }
      forall j | 0 <= j < |f| ensures !Less(KeyOf(f[j]), KeyOf(x)) {
        assert !Less(KeyOf(whole[j+1]), KeyOf(whole[0]));
      }
    }
  }

  /** A filtered list is in order exactly if the chosen elements were, pair by pair. */
  lemma {:induction false} SelectOrdered(list: seq<Scored>, p: Scored -> bool)
    ensures Ordered(Select(list, p)) <==>
            forall i, j :: 0 <= i < j < |list| && p(list[i]) && p(list[j]) ==> !Less(KeyOf(list[j]), KeyOf(list[i]))
  {
    hide Less, KeyOf, Ordered;
    NothingOrdered();
    if list != [] {
      var rest, f := list[1..], Select(list[1..], p);
      SelectOrdered(rest, p);
      SelectMembers(rest, p);
      assert forall j :: 0 < j < |list| ==> list[j] == rest[j-1];
      assert forall j :: 0 <= j < |rest| ==> rest[j] == list[j+1];
      if p(list[0]) {
        OrderedCons(list[0], f);
        assert (forall j :: 0 <= j < |f| ==> !Less(KeyOf(f[j]), KeyOf(list[0])))
          <==> forall x :: x in f ==> !Less(KeyOf(x), KeyOf(list[0]));
      }
    }
  }

  /** Sorting leaves alone what is in order already. */
  lemma {:induction false} SortOfOrdered(list: seq<Scored>)
    requires Ordered(list)
    ensures StableSort(list) == list
  {
    hide Less, KeyOf;
    if list != [] {
      assert Ordered(list[1..]);
      SortOfOrdered(list[1..]);
      assert list[1..] == [] || !Less(KeyOf(list[1]), KeyOf(list[0]));
      assert list == [list[0]] + list[1..];
    }
  }

  lemma {:induction false} PutInSelect(x: Scored, list: seq<Scored>, p: Scored -> bool)
    requires Ordered(list)
    ensures Select(PutIn(x, list), p) == if p(x) then PutIn(x, Select(list, p)) else Select(list, p)
  {
    hide Less, KeyOf;
    if list == [] {
    } else if !Less(KeyOf(list[0]), KeyOf(x)) {
      assert ([x] + list)[1..] == list;
      var f := Select(list, p);
      SelectMembers(list, p);
      if f != [] {
        assert f[0] in f;
        var j :| 0 <= j < |list| && list[j] == f[0];
        NotLessTransitive(f[0], list[0], x);
      }
    } else {
      assert Ordered(list[1..]);
      PutInSelect(x, list[1..], p);
      var t := PutIn(x, list[1..]);
      assert ([list[0]] + t)[1..] == t;
      var g := Select(list[1..], p);
      assert ([list[0]] + g)[1..] == g;
    }
  }

  /** Sorting and selecting commute. */
  lemma {:induction false} SortSelect(list: seq<Scored>, p: Scored -> bool)
    ensures Select(StableSort(list), p) == StableSort(Select(list, p))
  {
    hide PutIn, Ordered;
    if list != [] {
      SortSelect(list[1..], p);
      SortSorts(list[1..]);
      PutInSelect(list[0], StableSort(list[1..]), p);
      var g := Select(list[1..], p);
      assert ([list[0]] + g)[1..] == g;
    }
  }

  /** Equal keys keep the order they came in. */
  lemma SortIsStable(list: seq<Scored>, k: Key)
    ensures Select(StableSort(list), HasKey(k)) == Select(list, HasKey(k))
  {
    hide StableSort, Less, Select;
    SortSelect(list, HasKey(k));
    SelectMembers(list, HasKey(k));
    var f := Select(list, HasKey(k));
    forall i, j | 0 <= i < j < |f| ensures !Less(KeyOf(f[j]), KeyOf(f[i])) {
      assert f[i] in f && f[j] in f;
      LessIsTotalOrder(k, k, k);
    }
    SortOfOrdered(f);
  }

  lemma {:induction false} SameFirst(a: seq<Scored>, b: seq<Scored>)
    requires Ordered(a) && Ordered(b) && a != []
    requires forall k :: |Select(a, HasKey(k))| == |Select(b, HasKey(k))|
    ensures b != [] && KeyOf(a[0]) == KeyOf(b[0])
  {
    hide Less;
    var k := KeyOf(a[0]);
    assert |Select(b, HasKey(k))| > 0;
    SelectMembers(b, HasKey(k));
    var x := Select(b, HasKey(k))[0];
    assert x in Select(b, HasKey(k));
    var i :| 0 <= i < |b| && b[i] == x;
    var l := KeyOf(b[0]);
    assert |Select(a, HasKey(l))| > 0;
    SelectMembers(a, HasKey(l));
    var y := Select(a, HasKey(l))[0];
    assert y in Select(a, HasKey(l));
    var j :| 0 <= j < |a| && a[j] == y;
    LessIsTotalOrder(k, l, l);
  }

  /** Lists in order with the same number of elements under each key show the same keys in the same
      order. */
  lemma {:induction false} OrderedSameKeys(a: seq<Scored>, b: seq<Scored>)
    requires Ordered(a) && Ordered(b)
    requires forall k :: |Select(a, HasKey(k))| == |Select(b, HasKey(k))|
    ensures |a| == |b| && forall i :: 0 <= i < |a| ==> KeyOf(a[i]) == KeyOf(b[i])
  {
    hide Less;
    if a == [] {
      if b != [] { SameFirst(b, a); }
    } else {
      SameFirst(a, b);
      forall k ensures |Select(a[1..], HasKey(k))| == |Select(b[1..], HasKey(k))| {
        assert |Select(a, HasKey(k))| == |Select(b, HasKey(k))|;
      }
      OrderedSameKeys(a[1..], b[1..]);
      assert forall i :: 0 < i < |a| ==> a[i] == a[1..][i-1] && b[i] == b[1..][i-1];
    }
  }

  /** … and if it is the same elements in the same order under each key, they are the same list. */
  lemma {:induction false} OrderedUnique(a: seq<Scored>, b: seq<Scored>)
    requires Ordered(a) && Ordered(b)
    requires forall k :: Select(a, HasKey(k)) == Select(b, HasKey(k))
    ensures a == b
  {
    hide Less;
    OrderedSameKeys(a, b);
    if a != [] {
      var k := KeyOf(a[0]);
      assert Select(a, HasKey(k)) == Select(b, HasKey(k));
      assert Select(a, HasKey(k))[0] == a[0] && Select(b, HasKey(k))[0] == b[0];
      forall k ensures Select(a[1..], HasKey(k)) == Select(b[1..], HasKey(k)) {
        assert Select(a, HasKey(k)) == Select(b, HasKey(k));
        assert KeyOf(a[0]) == k ==> Select(a, HasKey(k))[1..] == Select(a[1..], HasKey(k));
        assert KeyOf(b[0]) == k ==> Select(b, HasKey(k))[1..] == Select(b[1..], HasKey(k));
      }
      OrderedUnique(a[1..], b[1..]);
      assert a == [a[0]] + a[1..] && b == [b[0]] + b[1..];
    }
  }

  // ------------------------------------------------------------- the two phases

  /** Every cached command that matches, in the cache's order, with its cheap score. */
  ghost function Candidates(s: Setting, stats: seq<Entry>, tokens: seq<string>): seq<Scored> {
    if stats == [] then []
    else
      var rest, e := Candidates(s, stats[..|stats|-1], tokens), stats[|stats|-1];
      match QueryMatch(s.cbrt, Folded(s.letters, e.command), WordMarks(s.letters, e.command), tokens)
      case Some(m) => rest + [Light(s, e, m)]
      case None => rest
  }

  /** The candidates are exactly the cached commands that match, each with its cheap score, in the cache's
      order. */
  lemma {:induction false} CandidatesInOrder(s: Setting, stats: seq<Entry>, tokens: seq<string>) returns (from: seq<nat>)
    ensures var list := Candidates(s, stats, tokens);
            && |from| == |list| && (forall j, k :: 0 <= j < k < |from| ==> from[j] < from[k])
            && (forall k :: 0 <= k < |from| ==>
                  from[k] < |stats| && MatchOf(s, stats[from[k]], tokens).Some?
                  && list[k] == Light(s, stats[from[k]], MatchOf(s, stats[from[k]], tokens).value))
            && (forall i :: 0 <= i < |stats| && MatchOf(s, stats[i], tokens).Some? ==> i in from)
  {
    hide QueryMatch, Light;
    if stats == [] {
      from := [];
    } else {
      var rest, last := stats[..|stats|-1], |stats| - 1;
      var before := CandidatesInOrder(s, rest, tokens);
      assert forall i :: 0 <= i < last ==> stats[i] == rest[i];
      if MatchOf(s, stats[last], tokens).Some? {
        from := before + [last];
        assert forall i :: i in before ==> i in from;
        assert from[|before|] == last;
      } else {
        from := before;
      }
    }
  }

  ghost function MatchOf(s: Setting, e: Entry, tokens: seq<string>): Option<Match> {
    QueryMatch(s.cbrt, Folded(s.letters, e.command), WordMarks(s.letters, e.command), tokens)
  }

  function Rescored(s: Setting, places: map<string, Place>, list: seq<Scored>): seq<Scored> {
    if list == [] then [] else [Refined(s, places, list[0])] + Rescored(s, places, list[1..])
  }

  function Top(list: seq<Scored>): seq<Scored> {
    if |list| > REFINE_CANDIDATES then list[..REFINE_CANDIDATES] else list
  }

  /** Cheap sort, cut, re-score, sort again. */
  function TwoPhase(s: Setting, places: map<string, Place>, candidates: seq<Scored>): seq<Scored> {
    StableSort(Rescored(s, places, Top(StableSort(candidates))))
  }

  /** What ranking everything in full would give. */
  function OnePhase(s: Setting, places: map<string, Place>, candidates: seq<Scored>): seq<Scored> {
    StableSort(Rescored(s, places, candidates))
  }

  function RefinesTo(s: Setting, places: map<string, Place>, k: Key): Scored -> bool {
    (x: Scored) => KeyOf(Refined(s, places, x)) == k
  }

  lemma {:induction false} RescoredAt(s: Setting, places: map<string, Place>, list: seq<Scored>)
    ensures |Rescored(s, places, list)| == |list|
    ensures forall i :: 0 <= i < |list| ==> Rescored(s, places, list)[i] == Refined(s, places, list[i])
  {
    hide Refined;
    if list != [] { RescoredAt(s, places, list[1..]); }
  }

  lemma {:induction false} SelectRescored(s: Setting, places: map<string, Place>, list: seq<Scored>, k: Key)
    ensures Select(Rescored(s, places, list), HasKey(k)) == Rescored(s, places, Select(list, RefinesTo(s, places, k)))
  {
    hide Refined;
    if list != [] {
      SelectRescored(s, places, list[1..], k);
      var x, r := Refined(s, places, list[0]), Rescored(s, places, list[1..]);
      assert ([x] + r)[1..] == r;
      var g := Select(list[1..], RefinesTo(s, places, k));
      assert ([list[0]] + g)[1..] == g;
    }
  }

  /** Whenever two candidates tie in the full ranking, the cheap ranking leaves them in the cache's
      order. */
  ghost predicate TiesAgree(s: Setting, places: map<string, Place>, candidates: seq<Scored>) {
    forall i, j :: 0 <= i < j < |candidates|
      && KeyOf(Refined(s, places, candidates[i])) == KeyOf(Refined(s, places, candidates[j]))
      ==> !Less(KeyOf(candidates[j]), KeyOf(candidates[i]))
  }

  lemma {:induction false} RescoredInjective(s: Setting, places: map<string, Place>, a: seq<Scored>, b: seq<Scored>)
    requires Rescored(s, places, a) == Rescored(s, places, b)
    requires forall x :: x in a || x in b ==> x.score == ScoreOf(s.log1p, x.m, FrecencyOf(s, x.entry.stat), NO_CONTEXT)
    ensures a == b
  {
    hide ScoreOf, FrecencyOf, ContextOf;
    RescoredAt(s, places, a);
    RescoredAt(s, places, b);
    forall i | 0 <= i < |a| ensures a[i] == b[i] {
      assert a[i] in a && b[i] in b;
      assert Rescored(s, places, a)[i] == Rescored(s, places, b)[i];
    }
  }

  /** With at most 200 matches the keys come out exactly as in a full ranking: the cut costs nothing. */
  lemma SmallListsRankInFull(s: Setting, places: map<string, Place>, candidates: seq<Scored>)
    requires |candidates| <= REFINE_CANDIDATES
    ensures var two, one := TwoPhase(s, places, candidates), OnePhase(s, places, candidates);
            |two| == |one| && forall i :: 0 <= i < |one| ==> KeyOf(two[i]) == KeyOf(one[i])
  {
    hide Refined, StableSort, Select, Rescored;
    SortSorts(candidates);
    var sorted := StableSort(candidates);
    var a, b := Rescored(s, places, sorted), Rescored(s, places, candidates);
    SortSorts(a);
    SortSorts(b);
    forall k ensures |Select(StableSort(a), HasKey(k))| == |Select(StableSort(b), HasKey(k))| {
      SortIsStable(a, k);
      SortIsStable(b, k);
      SelectRescored(s, places, sorted, k);
      SelectRescored(s, places, candidates, k);
      SortSelect(candidates, RefinesTo(s, places, k));
      SortSorts(Select(candidates, RefinesTo(s, places, k)));
      RescoredAt(s, places, Select(sorted, RefinesTo(s, places, k)));
      RescoredAt(s, places, Select(candidates, RefinesTo(s, places, k)));
    }
    OrderedSameKeys(StableSort(a), StableSort(b));
  }

  /** … and the very same list comes out if and only if the two rankings agree on the order of exact
      ties. */
  lemma SmallListsSameIff(s: Setting, places: map<string, Place>, candidates: seq<Scored>)
    requires |candidates| <= REFINE_CANDIDATES
    requires forall x :: x in candidates ==> x.score == ScoreOf(s.log1p, x.m, FrecencyOf(s, x.entry.stat), NO_CONTEXT)
    ensures TwoPhase(s, places, candidates) == OnePhase(s, places, candidates) <==> TiesAgree(s, places, candidates)
  {
    hide Refined, StableSort, Select, Rescored, ScoreOf, FrecencyOf, Less;
    SortSorts(candidates);
    var sorted := StableSort(candidates);
    var a, b := Rescored(s, places, sorted), Rescored(s, places, candidates);
    SortSorts(a);
    SortSorts(b);
    if TiesAgree(s, places, candidates) {
      forall k ensures Select(StableSort(a), HasKey(k)) == Select(StableSort(b), HasKey(k)) {
        SortIsStable(a, k);
        SortIsStable(b, k);
        TiedInOrder(s, places, candidates, k);
      }
      OrderedUnique(StableSort(a), StableSort(b));
    }
    if StableSort(a) == StableSort(b) {
      forall i, j | 0 <= i < j < |candidates|
        && KeyOf(Refined(s, places, candidates[i])) == KeyOf(Refined(s, places, candidates[j]))
        ensures !Less(KeyOf(candidates[j]), KeyOf(candidates[i]))
      {
        var k := KeyOf(Refined(s, places, candidates[i]));
        SortIsStable(a, k);
        SortIsStable(b, k);
        OrderOfTies(s, places, candidates, k);
      }
    }
  }

  lemma TiedInOrder(s: Setting, places: map<string, Place>, candidates: seq<Scored>, k: Key)
    requires TiesAgree(s, places, candidates)
    ensures Select(Rescored(s, places, StableSort(candidates)), HasKey(k)) == Select(Rescored(s, places, candidates), HasKey(k))
  {
    hide Refined, StableSort, Select, Rescored, Less;
    var p := RefinesTo(s, places, k);
    SelectRescored(s, places, StableSort(candidates), k);
    SelectRescored(s, places, candidates, k);
    SortSelect(candidates, p);
    SelectOrdered(candidates, p);
    SortOfOrdered(Select(candidates, p));
  }

  lemma OrderOfTies(s: Setting, places: map<string, Place>, candidates: seq<Scored>, k: Key)
    requires forall x :: x in candidates ==> x.score == ScoreOf(s.log1p, x.m, FrecencyOf(s, x.entry.stat), NO_CONTEXT)
    requires Select(Rescored(s, places, StableSort(candidates)), HasKey(k)) == Select(Rescored(s, places, candidates), HasKey(k))
    ensures forall i, j :: 0 <= i < j < |candidates|
              && KeyOf(Refined(s, places, candidates[i])) == k == KeyOf(Refined(s, places, candidates[j]))
              ==> !Less(KeyOf(candidates[j]), KeyOf(candidates[i]))
  {
    hide Refined, StableSort, Select, Rescored, Less, ScoreOf, FrecencyOf, ContextOf, KeyOf, Ordered;
    var p := RefinesTo(s, places, k);
    var f, g := Select(StableSort(candidates), p), Select(candidates, p);
    SelectRescored(s, places, StableSort(candidates), k);
    SelectRescored(s, places, candidates, k);
    SelectMembers(candidates, p);
    SortSelect(candidates, p);
    SortSorts(g);
    assert forall x :: x in f ==> x in multiset(f) && x in multiset(g) && x in g;
    RescoredInjective(s, places, f, g);
    SelectOrdered(candidates, p);
  }

  // ------------------------------------------------------------- the hard gate

  /** Whatever the contexts say, a worse kind of match is never listed above a better one; within a kind
      scores do not rise. */
  lemma TiersNeverIncrease(s: Setting, places: map<string, Place>, candidates: seq<Scored>)
    ensures var list := TwoPhase(s, places, candidates);
            forall j, k :: 0 <= j < k < |list| ==>
              || Level(list[j].m.tier) > Level(list[k].m.tier)
              || (list[j].m.tier == list[k].m.tier && list[j].score >= list[k].score)
  {
    hide StableSort, Rescored;
    SortSorts(Rescored(s, places, Top(StableSort(candidates))));
    var list := TwoPhase(s, places, candidates);
    forall j, k | 0 <= j < k < |list|
      ensures || Level(list[j].m.tier) > Level(list[k].m.tier)
              || (list[j].m.tier == list[k].m.tier && list[j].score >= list[k].score)
    {
      assert !Less(KeyOf(list[k]), KeyOf(list[j]));
    }
  }

  /** A candidate as phase one leaves it: its cheap score, from a real match and a decayed count. */
  ghost predicate FromPhaseOne(s: Setting, x: Scored) {
    x.m.tier != NoTier && x.m.score > 0.0 && x.entry.stat.weight >= 0.0
    && x.score == ScoreOf(s.log1p, x.m, FrecencyOf(s, x.entry.stat), NO_CONTEXT)
  }

  /** The entry holds the statistics its text had at some time; the rows may have moved on since. */
  ghost predicate Cached(s: Setting, e: Entry) {
    exists commands: map<string, Row> :: e.stat == StatOf(s.decay, commands, e.command)
  }

  /** Phase one over the ranking cache leaves only such candidates. */
  lemma {:induction false} CandidatesFromPhaseOne(s: Setting, stats: seq<Entry>, tokens: seq<string>)
    requires ValidSetting(s) && tokens != [] && forall e :: e in stats ==> Cached(s, e)
    ensures forall x :: x in Candidates(s, stats, tokens) ==> FromPhaseOne(s, x) && x.entry in stats
  {
    hide IsCubeRoot, IsLog1p, Frecency.IsDecay, FrecencyOf, ScoreOf, Weakest, Total, AllMatch, StatOf;
    if stats != [] {
      var e := stats[|stats|-1];
      assert e in stats && Cached(s, e);
      var commands: map<string, Row> :| e.stat == StatOf(s.decay, commands, e.command);
      WeightNonNegative(s.decay, commands, e.command);
      CandidatesFromPhaseOne(s, stats[..|stats|-1], tokens);
      var text, starts := Folded(s.letters, e.command), WordMarks(s.letters, e.command);
      if AllMatch(s.cbrt, text, starts, tokens) {
        MatchIsReal(s.cbrt, text, starts, tokens);
      }
    }
  }

  lemma MatchIsReal(cbrt: real -> real, text: string, starts: seq<bool>, tokens: seq<string>)
    requires IsCubeRoot(cbrt) && |starts| == |text| && tokens != [] && AllMatch(cbrt, text, starts, tokens)
    ensures var m := Match(Weakest(cbrt, text, starts, tokens), Total(cbrt, text, starts, tokens) / |tokens| as real);
            QueryMatch(cbrt, text, starts, tokens) == Some(m) && m.tier != NoTier && 0.0 < m.score <= 1.0
  {
    hide IsCubeRoot, Weakest, Total, TierOfToken, TokenMatch;
    QueryRange(cbrt, text, starts, tokens);
    var tok :| tok in tokens && TierOfToken(cbrt, text, starts, tok) == Weakest(cbrt, text, starts, tokens);
    assert TokenMatch(cbrt, text, starts, tok).Some?;
    TokenRange(cbrt, text, starts, tok);
    Quotient(Total(cbrt, text, starts, tokens), |tokens| as real);
  }

  lemma FrecencyNonNegative(s: Setting, stat: Stat)
    requires ValidSetting(s) && stat.weight >= 0.0
    ensures FrecencyOf(s, stat) >= 0.0
  {
    hide Frecency.IsDecay;
    if s.now > stat.weightAt {
      Frecency.DecayLaws(s.decay, s.now - stat.weightAt, 0);
      NonNegative(stat.weight, s.decay(s.now - stat.weightAt));
    }
  }

  lemma NonNegative(a: real, b: real)
    requires 0.0 <= a && 0.0 <= b
    ensures 0.0 <= a * b
  {
  }

  lemma LiftAtLeastOne(log1p: real -> real, f: real)
    requires IsLog1p(log1p) && f >= 0.0
    ensures Lift(log1p, f) >= 1.0
  {
    assert f > 0.0 ==> log1p(0.0) < log1p(f);
  }

  lemma FullScoreIsScaled(s: Setting, places: map<string, Place>, x: Scored)
    requires ValidSetting(s) && FromPhaseOne(s, x)
    ensures x.score >= 0.0 && Refined(s, places, x).score == x.score * Multiplier(ContextOf(s, places, x))
  {
    hide IsCubeRoot, IsLog1p, Frecency.IsDecay, FrecencyOf, Lift, ContextOf;
    var f := FrecencyOf(s, x.entry.stat);
    FrecencyNonNegative(s, x.entry.stat);
    LiftAtLeastOne(s.log1p, f);
    NonNegative(x.m.score, Lift(s.log1p, f));
    MultiplierRange(NO_CONTEXT);
  }

  /** The full score lies within the context clamp of the cheap one. */
  lemma FullScoreBand(s: Setting, places: map<string, Place>, x: Scored)
    requires ValidSetting(s) && FromPhaseOne(s, x)
    ensures x.score >= 0.0 && 0.6 * x.score <= Refined(s, places, x).score <= TOP_CONTEXT * x.score
  {
    hide ValidSetting, FromPhaseOne, Refined, Multiplier;
    FullScoreIsScaled(s, places, x);
    FailureRateInRange(x.entry.stat);
    MultiplierRange(ContextOf(s, places, x));
    Between(x.score, Multiplier(ContextOf(s, places, x)));
  }

  lemma Between(a: real, m: real)
    requires 0.0 <= a && 0.6 <= m <= TOP_CONTEXT
    ensures 0.6 * a <= a * m <= TOP_CONTEXT * a
  {
    assert 0.0 <= a * (m - 0.6) && 0.0 <= a * (TOP_CONTEXT - m);
  }

  /** What the cut can cost. The dropped candidate has no better tier than the kept one, and within a
      tier its full score is at most 1.878525 / 0.6 times the kept one's. */
  lemma WhatTheCutCanCost(s: Setting, places: map<string, Place>, candidates: seq<Scored>, kept: nat, dropped: nat)
    requires ValidSetting(s) && forall x :: x in candidates ==> FromPhaseOne(s, x)
    requires kept < REFINE_CANDIDATES <= dropped < |StableSort(candidates)|
    ensures var k, d := StableSort(candidates)[kept], StableSort(candidates)[dropped];
            && k in Top(StableSort(candidates))
            && Level(d.m.tier) <= Level(k.m.tier)
            && (d.m.tier == k.m.tier ==>
                  Refined(s, places, d).score <= TOP_CONTEXT / 0.6 * Refined(s, places, k).score)
  {
    hide StableSort, IsCubeRoot, IsLog1p, Frecency.IsDecay, FrecencyOf, ScoreOf, ContextOf;
    SortSorts(candidates);
    var sorted := StableSort(candidates);
    var k, d := sorted[kept], sorted[dropped];
    assert !Less(KeyOf(d), KeyOf(k));
    assert k == sorted[..REFINE_CANDIDATES][kept];
    assert k in multiset(sorted) && d in multiset(sorted);
    assert k in candidates && d in candidates;
    FullScoreBand(s, places, k);
    FullScoreBand(s, places, d);
    if d.m.tier == k.m.tier {
      SameLevelSameTier(d.m.tier, k.m.tier);
      Scale(d.score, k.score, Refined(s, places, d).score, Refined(s, places, k).score);
    }
  }

  lemma Scale(d: real, k: real, fd: real, fk: real)
    requires 0.0 <= d <= k && fd <= TOP_CONTEXT * d && 0.6 * k <= fk
    ensures fd <= TOP_CONTEXT / 0.6 * fk
  {
  }

  // ------------------------------------------------------------- the query

  /** `out` is what the rows of `names` leave of it: `from` places each row at its name, in the names'
      order, and passes over the names without a row only. */
  ghost predicate Rowed(out: seq<Row>, from: seq<nat>, rows: map<string, Row>, names: seq<string>) {
    && |from| == |out|
    && (forall j, k :: 0 <= j < k < |from| ==> from[j] < from[k])
    && (forall k :: 0 <= k < |out| ==> from[k] < |names| && names[from[k]] in rows && out[k] == rows[names[from[k]]])
    && (forall i :: 0 <= i < |names| && names[i] in rows ==> i in from)
  }

  method RowsFor(rows: map<string, Row>, names: seq<string>) returns (out: seq<Row>, ghost from: seq<nat>)
    ensures Rowed(out, from, rows, names)
  {
    out, from := [], [];
    for i := 0 to |names|
      invariant Rowed(out, from, rows, names[..i])
    {
      ghost var longer := from + [i];
      assert forall k :: k in from ==> k in longer;
      assert longer[|from|] == i && i in longer;
      if names[i] in rows { out, from := out + [rows[names[i]]], longer; }
    }
    assert names[..|names|] == names;
  }

  /** An increasing list of all numbers below n has each at its own place. */
  lemma {:induction false} NothingPassedOver(from: seq<nat>, n: nat)
    requires forall i, j :: 0 <= i < j < |from| ==> from[i] < from[j]
    requires forall i: nat :: i in from <==> i < n
    ensures |from| == n && forall k :: 0 <= k < n ==> from[k] == k
  {
    assert n > 0 ==> n - 1 in from;
    if from != [] {
      var last := |from| - 1;
      assert from[last] in from;
      var k :| 0 <= k < |from| && from[k] == n - 1;
      assert from == from[..last] + [from[last]];
      forall i: nat ensures i in from[..last] <==> i < n - 1 {
        if i < n - 1 { assert i in from; }
        if i in from[..last] { assert i in from; }
      }
      NothingPassedOver(from[..last], n - 1);
    }
  }

  /** When every name has a row, the rows stand exactly as the names do. */
  lemma RowForEveryName(out: seq<Row>, from: seq<nat>, rows: map<string, Row>, names: seq<string>)
    requires Rowed(out, from, rows, names) && forall i :: 0 <= i < |names| ==> names[i] in rows
    ensures |out| == |names| && forall i :: 0 <= i < |names| ==> out[i] == rows[names[i]]
  {
    NothingPassedOver(from, |names|);
  }

  function Names(list: seq<Scored>): seq<string> {
    seq(|list|, i requires 0 <= i < |list| => list[i].entry.command)
  }

  function FirstNames(stats: seq<Entry>): seq<string> {
    seq(if |stats| < REFINE_CANDIDATES then |stats| else REFINE_CANDIDATES, i requires 0 <= i < |stats| => stats[i].command)
  }

  /** The answer keeps the ranking's order: tiers never rise along it, and within a tier no score does. */
  lemma AnswerInOrder(s: Setting, places: map<string, Place>, candidates: seq<Scored>, rows: map<string, Row>,
                      out: seq<Row>, from: seq<nat>)
    requires Rowed(out, from, rows, Names(TwoPhase(s, places, candidates)))
    ensures var list := TwoPhase(s, places, candidates);
            && (forall k :: 0 <= k < |out| ==>
                  from[k] < |list| && list[from[k]].entry.command in rows && out[k] == rows[list[from[k]].entry.command])
            && (forall i :: 0 <= i < |list| && list[i].entry.command in rows ==> i in from)
            && ((forall i :: 0 <= i < |list| ==> list[i].entry.command in rows) ==>
                  |out| == |list| && forall i :: 0 <= i < |list| ==> out[i] == rows[list[i].entry.command])
            && forall j, k :: 0 <= j < k < |out| ==>
                 || Level(list[from[j]].m.tier) > Level(list[from[k]].m.tier)
                 || (list[from[j]].m.tier == list[from[k]].m.tier && list[from[j]].score >= list[from[k]].score)
  {
    hide TwoPhase, Level;
    TiersNeverIncrease(s, places, candidates);
    var list := TwoPhase(s, places, candidates);
    var names := Names(list);
    if forall i :: 0 <= i < |names| ==> names[i] in rows { RowForEveryName(out, from, rows, names); }
  }

  /** The same without tokens: the history's order. */
  lemma HistoryInOrder(stats: seq<Entry>, rows: map<string, Row>, out: seq<Row>, from: seq<nat>)
    requires Rowed(out, from, rows, FirstNames(stats))
    ensures var n := if |stats| < REFINE_CANDIDATES then |stats| else REFINE_CANDIDATES;
            && (forall k :: 0 <= k < |out| ==>
                  from[k] < n && stats[from[k]].command in rows && out[k] == rows[stats[from[k]].command])
            && (forall i :: 0 <= i < n && stats[i].command in rows ==> i in from)
            && ((forall i :: 0 <= i < n ==> stats[i].command in rows) ==>
                  |out| == n && forall i :: 0 <= i < n ==> out[i] == rows[stats[i].command])
  {
    var names := FirstNames(stats);
    if forall i :: 0 <= i < |names| ==> names[i] in rows { RowForEveryName(out, from, rows, names); }
  }

  lemma RowedAscends(out: seq<Row>, from: seq<nat>, rows: map<string, Row>, names: seq<string>)
    requires Rowed(out, from, rows, names)
    ensures |from| == |out| && forall j, k :: 0 <= j < k < |from| ==> from[j] < from[k]
  {
  }

  /** One query, no status filter. Without tokens the list is the history, most recent first. `places`
      and `rows` are what the database answers about the short list; `from` says which place in the list
      each row of the answer comes from. */
  method RankedResults(s: Setting, stats: seq<Entry>, places: map<string, Place>, rows: map<string, Row>, tokens: seq<string>)
    returns (out: seq<Row>, ghost from: seq<nat>)
    ensures |from| == |out| && forall j, k :: 0 <= j < k < |from| ==> from[j] < from[k]
    ensures tokens == [] ==>
              var n := if |stats| < REFINE_CANDIDATES then |stats| else REFINE_CANDIDATES;
              && (forall k :: 0 <= k < |out| ==>
                    from[k] < n && stats[from[k]].command in rows && out[k] == rows[stats[from[k]].command])
              && (forall i :: 0 <= i < n && stats[i].command in rows ==> i in from)
              && ((forall i :: 0 <= i < n ==> stats[i].command in rows) ==>
                    |out| == n && forall i :: 0 <= i < n ==> out[i] == rows[stats[i].command])
    ensures tokens != [] ==>
              var list := TwoPhase(s, places, Candidates(s, stats, tokens));
              && (forall k :: 0 <= k < |out| ==>
                    from[k] < |list| && list[from[k]].entry.command in rows && out[k] == rows[list[from[k]].entry.command])
              && (forall i :: 0 <= i < |list| && list[i].entry.command in rows ==> i in from)
              && ((forall i :: 0 <= i < |list| ==> list[i].entry.command in rows) ==>
                    |out| == |list| && forall i :: 0 <= i < |list| ==> out[i] == rows[list[i].entry.command])
              && forall j, k :: 0 <= j < k < |out| ==>
                   || Level(list[from[j]].m.tier) > Level(list[from[k]].m.tier)
                   || (list[from[j]].m.tier == list[from[k]].m.tier && list[from[j]].score >= list[from[k]].score)
  {
    hide QueryMatch, TwoPhase, Candidates, Level, Rowed, Names, FirstNames;
    if tokens == [] {
      var names := HistoryNames(stats);
      out, from := RowsFor(rows, names);
      RowedAscends(out, from, rows, names);
      HistoryInOrder(stats, rows, out, from);
    } else {
      var names := RankedNames(s, stats, places, tokens);
      out, from := RowsFor(rows, names);
      RowedAscends(out, from, rows, names);
      AnswerInOrder(s, places, Candidates(s, stats, tokens), rows, out, from);
    }
  }

  method HistoryNames(stats: seq<Entry>) returns (names: seq<string>)
    ensures names == FirstNames(stats)
  {
    names := [];
    for i := 0 to |stats|
      invariant i < REFINE_CANDIDATES && |names| == i && forall k :: 0 <= k < i ==> names[k] == stats[k].command
    {
      names := names + [stats[i].command];
      if |names| == REFINE_CANDIDATES { break; }
    }
  }

  method RankedNames(s: Setting, stats: seq<Entry>, places: map<string, Place>, tokens: seq<string>) returns (names: seq<string>)
    ensures names == Names(TwoPhase(s, places, Candidates(s, stats, tokens)))
  {
    hide TwoPhase, Candidates;
    var list := ShortList(s, stats, places, tokens);
    names := [];
    for i := 0 to |list|
      invariant |names| == i && forall k :: 0 <= k < i ==> names[k] == list[k].entry.command
    {
      names := names + [list[i].entry.command];
    }
  }

  /** The matching commands, best first: the cheap ranking, the cut and the full one. */
  method ShortList(s: Setting, stats: seq<Entry>, places: map<string, Place>, tokens: seq<string>) returns (list: seq<Scored>)
    ensures list == TwoPhase(s, places, Candidates(s, stats, tokens))
  {
    hide QueryMatch, Light, Refined, StableSort;
    list := Matching(s, stats, tokens);
    list := StableSort(list);
    if |list| > REFINE_CANDIDATES { list := list[..REFINE_CANDIDATES]; }
    list := Rescore(s, places, list);
    list := StableSort(list);
  }

  /** The candidates with their cheap scores, in the cache's order. */
  method Matching(s: Setting, stats: seq<Entry>, tokens: seq<string>) returns (shortlist: seq<Scored>)
    ensures shortlist == Candidates(s, stats, tokens)
  {
    hide QueryMatch, Light;
    shortlist := [];
    for i := 0 to |stats|
      invariant shortlist == Candidates(s, stats[..i], tokens)
    {
      assert stats[..i+1][..i] == stats[..i];
      var m := MatchCommand(s.cbrt, s.letters, stats[i].command, tokens);
      if m.None? { continue; }
      shortlist := shortlist + [Light(s, stats[i], m.value)];
    }
    assert stats[..|stats|] == stats;
  }

  /** Phase two: the context of each survivor, in place. */
  method Rescore(s: Setting, places: map<string, Place>, list: seq<Scored>) returns (r: seq<Scored>)
    ensures r == Rescored(s, places, list)
  {
    hide Refined;
    RescoredAt(s, places, list);
    r := list;
    for i := 0 to |list|
      invariant |r| == |list| && r[i..] == list[i..]
      invariant forall k :: 0 <= k < i ==> r[k] == Refined(s, places, list[k])
    {
      r := r[i := Refined(s, places, r[i])];
    }
  }
}
