/** Dating the entries a history file left undated (internal/histfile/histfile.go,
    `approximateUndated`). Times are unix milliseconds in the entries and nanoseconds in between; a
    start time of 0 means the file carried none. */
module Undated {

  const MILLISECOND := 1_000_000
  const SECOND := 1_000_000_000

  datatype Entry<T> = Entry(command: T, startTime: int, approximate: bool, durationMs: int)

  predicate Dated<T>(e: Entry<T>) {
    e.startTime != 0
  }

  /** The undated run around p starts here … */
  function RunStart<T>(s: seq<Entry<T>>, p: nat): (i: nat)
    requires p <= |s|
    ensures i <= p && (i == 0 || Dated(s[i-1])) && forall k :: i <= k < p ==> !Dated(s[k])
  {
    if p > 0 && !Dated(s[p-1]) then RunStart(s, p - 1) else p
  }

  /** … and ends before here. */
  function RunEnd<T>(s: seq<Entry<T>>, p: nat): (j: nat)
    requires p <= |s|
    ensures p <= j <= |s| && (j == |s| || Dated(s[j])) && forall k :: p <= k < j ==> !Dated(s[k])
    decreases |s| - p
  {
    if p < |s| && !Dated(s[p]) then RunEnd(s, p + 1) else p
  }

  /** The moment a run that ends before j must stay before: the next dated entry, or the file's time. */
  function Upper<T>(s: seq<Entry<T>>, end: int, j: nat): int
    requires j <= |s|
  {
    if j < |s| then s[j].startTime * MILLISECOND else end
  }

  /** Where the spacing starts from, and the spacing, for the run [i, j). */
  function Lower<T>(s: seq<Entry<T>>, end: int, i: nat, j: nat): int
    requires i < j <= |s|
  {
    var n, upper := j - i, Upper(s, end, j);
    if i > 0 && s[i-1].startTime * MILLISECOND > upper - (n + 1) * SECOND then s[i-1].startTime * MILLISECOND
    else upper - (n + 1) * SECOND
  }

  /** There is at least a millisecond for each entry of the run. */
  predicate Roomy<T>(s: seq<Entry<T>>, end: int, i: nat, j: nat)
    requires i < j <= |s|
  {
    Upper(s, end, j) - Lower(s, end, i, j) >= (j - i + 1) * MILLISECOND
  }

  function Start<T>(s: seq<Entry<T>>, end: int, i: nat, j: nat): int
    requires i < j <= |s|
  {
    if Roomy(s, end, i, j) then Lower(s, end, i, j) else Upper(s, end, j) - (j - i + 1) * SECOND
  }

  function Spacing<T>(s: seq<Entry<T>>, end: int, i: nat, j: nat): int
    requires i < j <= |s|
  {
    if Roomy(s, end, i, j) then (Upper(s, end, j) - Lower(s, end, i, j)) / (j - i + 1) else SECOND
  }

  /** The entry at p as the file's neighbours date it. */
  function DatedAt<T>(s: seq<Entry<T>>, end: int, p: nat): Entry<T>
    requires p < |s|
  {
    if Dated(s[p]) then s[p]
    else
      var i, j := RunStart(s, p), RunEnd(s, p);
      s[p].(startTime := (Start(s, end, i, j) + (p - i + 1) * Spacing(s, end, i, j)) / MILLISECOND, approximate := true)
  }

  function AllDated<T>(s: seq<Entry<T>>, end: int): (r: seq<Entry<T>>)
    ensures |r| == |s| && forall p :: 0 <= p < |s| ==> r[p] == DatedAt(s, end, p)
  {
    seq(|s|, p requires 0 <= p < |s| => DatedAt(s, end, p))
  }

  // ------------------------------------------------------------- the in-place pass

  /** Truncated division, as Go divides. */
  function Quo(a: int, b: int): int
    requires b > 0
  {
    if a >= 0 then a / b else -((-a) / b)
  }

  lemma QuoMeasures(a: int, n: int)
    requires n > 0
    ensures Quo(a, n) >= MILLISECOND <==> a >= n * MILLISECOND
    ensures a >= n * MILLISECOND ==> Quo(a, n) == a / n
  {
    DivideCompare(a, n, MILLISECOND);
  }

  lemma DivideCompare(a: int, n: int, m: int)
    requires n > 0
    ensures a / n >= m <==> a >= n * m
  {
    assert a == n * (a / n) + a % n;
    if a / n < m { ProductAbove(n, a / n, m); } else { ProductBelow(n, a / n, m); }
  }

  lemma ProductAbove(n: int, x: int, y: int)
    requires n > 0 && x < y
    ensures n * x + n <= n * y
  {
    var k := y - x - 1;
    Product(n, k);
    assert n * y == n * (x + 1 + k) == n * x + n + n * k;
  }

  lemma ProductBelow(n: int, x: int, y: int)
    requires n > 0 && x >= y
    ensures n * x >= n * y
  {
    var k := x - y;
    Product(n, k);
    assert n * x == n * (y + k) == n * y + n * k;
  }

  lemma Product(n: int, k: int)
    requires n > 0 && k >= 0
    ensures n * k >= 0
  {
  }

  lemma {:induction false} RunBounds<T>(s: seq<Entry<T>>, i: nat, j: nat, p: nat)
    requires i <= p < j <= |s| && (i == 0 || Dated(s[i-1])) && (j == |s| || Dated(s[j]))
    requires forall k :: i <= k < j ==> !Dated(s[k])
    ensures RunStart(s, p) == i && RunEnd(s, p) == j
  {
    var a, b := RunStart(s, p), RunEnd(s, p);
    assert a == 0 || Dated(s[a-1]);
    assert i == 0 || Dated(s[i-1]);
    assert b == |s| || Dated(s[b]);
    assert j == |s| || Dated(s[j]);
  }

  method ApproximateUndated<T>(entries: array<Entry<T>>, end: int)
    modifies entries
    ensures entries[..] == AllDated(old(entries[..]), end)
  {
    hide RunStart, RunEnd, Upper, Lower, Roomy, Start, Spacing, DatedAt;
    ghost var was := entries[..];
    var i := 0;
    while i < entries.Length
      invariant 0 <= i <= entries.Length && (0 < i < entries.Length ==> Dated(was[i-1]) || Dated(was[i]))
      invariant forall p :: 0 <= p < i ==> entries[p] == DatedAt(was, end, p)
      invariant forall p :: i <= p < entries.Length ==> entries[p] == was[p]
    {
      if entries[i].startTime != 0 {
        StaysDated(was, end, i);
        i := i + 1;
        continue;
      }
      var j := i;
      while j < entries.Length && entries[j].startTime == 0
        invariant i <= j <= entries.Length && forall k :: i <= k < j ==> !Dated(was[k])
      {
        j := j + 1;
      }
      FillRun(entries, was, end, i, j);
      i := j;
    }
  }

  lemma StaysDated<T>(s: seq<Entry<T>>, end: int, p: nat)
    requires p < |s| && Dated(s[p])
    ensures DatedAt(s, end, p) == s[p]
  {
  }

  /** Dates one run. */
  method FillRun<T>(entries: array<Entry<T>>, ghost was: seq<Entry<T>>, end: int, i: nat, j: nat)
    requires i < j <= entries.Length == |was|
    requires (i == 0 || Dated(was[i-1])) && (j == |was| || Dated(was[j])) && forall k :: i <= k < j ==> !Dated(was[k])
    requires forall p :: 0 <= p < i ==> entries[p] == DatedAt(was, end, p)
    requires forall p :: i <= p < entries.Length ==> entries[p] == was[p]
    modifies entries
    ensures forall p :: 0 <= p < j ==> entries[p] == DatedAt(was, end, p)
    ensures forall p :: j <= p < entries.Length ==> entries[p] == was[p]
  {
    hide RunStart, RunEnd, DatedAt;
    var n := j - i;
    var upper := end;
    if j < entries.Length { upper := entries[j].startTime * MILLISECOND; }
    var lower := upper - (n + 1) * SECOND;
    if i > 0 {
      StaysDated(was, end, i - 1);
      var prev := entries[i-1].startTime * MILLISECOND;
      if prev > lower { lower := prev; }
    }
    var step := Quo(upper - lower, n + 1);
    QuoMeasures(upper - lower, n + 1);
    if step < MILLISECOND {
      lower := upper - (n + 1) * SECOND;
      step := SECOND;
    }
    assert lower == Start(was, end, i, j) && step == Spacing(was, end, i, j);
    Place(entries, was, end, i, j, lower, step);
  }

  method Place<T>(entries: array<Entry<T>>, ghost was: seq<Entry<T>>, end: int, i: nat, j: nat, lower: int, step: int)
    requires i < j <= entries.Length == |was|
    requires (i == 0 || Dated(was[i-1])) && (j == |was| || Dated(was[j])) && forall k :: i <= k < j ==> !Dated(was[k])
    requires lower == Start(was, end, i, j) && step == Spacing(was, end, i, j)
    requires forall p :: 0 <= p < i ==> entries[p] == DatedAt(was, end, p)
    requires forall p :: i <= p < entries.Length ==> entries[p] == was[p]
    modifies entries
    ensures forall p :: 0 <= p < j ==> entries[p] == DatedAt(was, end, p)
    ensures forall p :: j <= p < entries.Length ==> entries[p] == was[p]
  {
    hide RunStart, RunEnd, DatedAt, Start, Spacing;
    for k := 0 to j - i
      invariant forall p :: 0 <= p < i + k ==> entries[p] == DatedAt(was, end, p)
      invariant forall p :: i + k <= p < entries.Length ==> entries[p] == was[p]
    {
      entries[i+k] := entries[i+k].(startTime := (lower + (k + 1) * step) / MILLISECOND, approximate := true);
      RunBounds(was, i, j, i + k);
      InRun(was, end, i, j, i + k);
    }
  }

  lemma InRun<T>(s: seq<Entry<T>>, end: int, i: nat, j: nat, p: nat)
    requires i <= p < j <= |s| && !Dated(s[p]) && RunStart(s, p) == i && RunEnd(s, p) == j
    ensures DatedAt(s, end, p) == s[p].(startTime := (Start(s, end, i, j) + (p - i + 1) * Spacing(s, end, i, j)) / MILLISECOND,
                                        approximate := true)
  {
  }

  // ------------------------------------------------------------- the order of the result

  lemma NothingElseChanges<T>(s: seq<Entry<T>>, end: int, p: nat)
    requires p < |s|
    ensures Dated(s[p]) ==> AllDated(s, end)[p] == s[p]
    ensures !Dated(s[p]) ==> AllDated(s, end)[p] == s[p].(startTime := AllDated(s, end)[p].startTime, approximate := true)
  {
    hide RunStart, RunEnd, Start, Spacing;
  }

  lemma SpacingFits<T>(s: seq<Entry<T>>, end: int, i: nat, j: nat)
    requires i < j <= |s|
    ensures Spacing(s, end, i, j) >= MILLISECOND
    ensures Start(s, end, i, j) + (j - i + 1) * Spacing(s, end, i, j) <= Upper(s, end, j)
  {
    var n, room := j - i + 1, Upper(s, end, j) - Lower(s, end, i, j);
    if Roomy(s, end, i, j) {
      DivideCompare(room, n, MILLISECOND);
      assert room == n * (room / n) + room % n;
    }
  }

  lemma Floors(a: int, b: int)
    ensures a + MILLISECOND <= b ==> a / MILLISECOND < b / MILLISECOND
    ensures a * MILLISECOND / MILLISECOND == a
  {
  }

  lemma Steps(k: int, step: int)
    ensures (k + 1) * step == k * step + step
  {
  }

  /** Inside an undated run the times come out strictly increasing, whatever the neighbours are. */
  lemma RunsIncrease<T>(s: seq<Entry<T>>, end: int, p: nat)
    requires p + 1 < |s| && !Dated(s[p]) && !Dated(s[p+1])
    ensures AllDated(s, end)[p].startTime < AllDated(s, end)[p+1].startTime
  {
    hide Start, Spacing, RunStart, RunEnd;
    var i, j := RunStart(s, p), RunEnd(s, p);
    assert forall k :: i <= k < j ==> !Dated(s[k]);
    RunCovers(s, p, i, j);
    RunBounds(s, i, j, p + 1);
    SpacingFits(s, end, i, j);
    var step, lower := Spacing(s, end, i, j), Start(s, end, i, j);
    Steps(p - i + 1, step);
    Floors(lower + (p - i + 1) * step, lower + (p - i + 2) * step);
  }

  lemma RunCovers<T>(s: seq<Entry<T>>, p: nat, i: nat, j: nat)
    requires p < |s| && !Dated(s[p]) && i == RunStart(s, p) && j == RunEnd(s, p)
    ensures i <= p < j && (p + 1 < |s| && !Dated(s[p+1]) ==> p + 1 < j)
    ensures forall k :: i <= k < j ==> !Dated(s[k])
  {
    assert j == |s| || Dated(s[j]);
  }

  /** The last entry of a run comes strictly before the dated entry after it, and before the file's
      time when the file ends there. */
  lemma RunEndsBefore<T>(s: seq<Entry<T>>, end: int, p: nat)
    requires p < |s| && !Dated(s[p]) && (p + 1 < |s| ==> Dated(s[p+1]))
    ensures AllDated(s, end)[p].startTime < if p + 1 < |s| then s[p+1].startTime else end / MILLISECOND
  {
    hide Start, Spacing, RunStart, RunEnd;
    var i, j := RunStart(s, p), RunEnd(s, p);
    RunCovers(s, p, i, j);
    assert p + 1 == |s| || Dated(s[p+1]);
    SpacingFits(s, end, i, j);
    var step, lower := Spacing(s, end, i, j), Start(s, end, i, j);
    Steps(p - i + 1, step);
    Floors(lower + (p - i + 1) * step, Upper(s, end, j));
    if j < |s| { Floors(s[j].startTime, 0); }
  }

  /** The first entry of a run comes strictly after the dated entry before it if and only if there is a
      millisecond for each entry of the run and one to spare before the next time. */
  lemma RunStartsAfterIff<T>(s: seq<Entry<T>>, end: int, p: nat)
    requires 0 < p < |s| && Dated(s[p-1]) && !Dated(s[p])
    ensures var j := RunEnd(s, p);
            AllDated(s, end)[p].startTime > s[p-1].startTime
            <==> Upper(s, end, j) - s[p-1].startTime * MILLISECOND >= (j - p + 1) * MILLISECOND
  {
    var i, j := RunStart(s, p), RunEnd(s, p);
    assert i == p;
    SpacingFits(s, end, i, j);
    var prev, upper := s[p-1].startTime * MILLISECOND, Upper(s, end, j);
    Floors(prev, Start(s, end, i, j) + Spacing(s, end, i, j));
    Floors(s[p-1].startTime, 0);
    if !Roomy(s, end, i, j) {
      Floors(upper - (j - p) * SECOND, prev);
    }
  }

  /** Unless the entry before the run leaves less room, the run's entries come out one second apart, the
      last a second before the moment the run must stay before. */
  lemma SecondApart<T>(s: seq<Entry<T>>, end: int, p: nat)
    requires p < |s| && !Dated(s[p])
    ensures var i, j := RunStart(s, p), RunEnd(s, p);
            (i == 0 || s[i-1].startTime * MILLISECOND <= Upper(s, end, j) - (j - i + 1) * SECOND) ==>
              AllDated(s, end)[p].startTime == (Upper(s, end, j) - (j - p) * SECOND) / MILLISECOND
  {
    var i, j := RunStart(s, p), RunEnd(s, p);
    RunCovers(s, p, i, j);
    hide RunStart, RunEnd, Upper;
    var n := j - i + 1;
    if i == 0 || s[i-1].startTime * MILLISECOND <= Upper(s, end, j) - n * SECOND {
      assert Lower(s, end, i, j) == Upper(s, end, j) - n * SECOND;
      assert (n * SECOND) / n == SECOND by { WholeShare(n, SECOND); }
      assert Start(s, end, i, j) == Upper(s, end, j) - n * SECOND && Spacing(s, end, i, j) == SECOND;
    }
  }

  lemma WholeShare(n: int, x: int)
    requires n > 0
    ensures (n * x) / n == x
  {
    DivideCompare(n * x, n, x);
    DivideCompare(n * x, n, x + 1);
  }

  predicate Increasing<T>(r: seq<Entry<T>>) {
    forall p {:trigger r[p]} :: 0 <= p && p + 1 < |r| ==> r[p].startTime < r[p+1].startTime
  }

  /** After the dated entry at p, the n undated entries that follow have n + 1 milliseconds before the
      next dated one, or before the file's time. */
  predicate HasRoomAfter<T>(s: seq<Entry<T>>, end: int, p: nat)
    requires p + 1 < |s|
  {
    var j := RunEnd(s, p + 1);
    Upper(s, end, j) - s[p].startTime * MILLISECOND >= (j - p) * MILLISECOND
  }

  lemma StepIncreasesIff<T>(s: seq<Entry<T>>, end: int, p: nat)
    requires p + 1 < |s|
    ensures AllDated(s, end)[p].startTime < AllDated(s, end)[p+1].startTime <==> !Dated(s[p]) || HasRoomAfter(s, end, p)
  {
    hide Start, Spacing, RunStart;
    NothingElseChanges(s, end, p);
    NothingElseChanges(s, end, p + 1);
    if !Dated(s[p]) {
      if Dated(s[p+1]) { RunEndsBefore(s, end, p); } else { RunsIncrease(s, end, p); }
    } else if !Dated(s[p+1]) {
      RunStartsAfterIff(s, end, p + 1);
    }
  }

  /** The whole file comes out strictly increasing if and only if after every dated entry there is room
      for the undated run that follows it (for none, that the next dated entry is later). */
  lemma FileIncreasesIff<T>(s: seq<Entry<T>>, end: int)
    ensures Increasing(AllDated(s, end))
            <==> forall p {:trigger s[p]} :: 0 <= p && p + 1 < |s| && Dated(s[p]) ==> HasRoomAfter(s, end, p)
  {
    hide DatedAt, HasRoomAfter;
    var r := AllDated(s, end);
    forall p {:trigger s[p]} | 0 <= p && p + 1 < |s|
      ensures r[p].startTime < r[p+1].startTime <==> !Dated(s[p]) || HasRoomAfter(s, end, p)
    {
      StepIncreasesIff(s, end, p);
    }
    if Increasing(r) {
      forall p {:trigger s[p]} | 0 <= p && p + 1 < |s| && Dated(s[p]) ensures HasRoomAfter(s, end, p) {
        assert r[p].startTime < r[p+1].startTime;
      }
    } else {
      var p {:trigger r[p]} :| 0 <= p && p + 1 < |r| && !(r[p].startTime < r[p+1].startTime);
      assert Dated(s[p]) && !HasRoomAfter(s, end, p);
    }
  }
}
