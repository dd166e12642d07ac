/** Matching a command against query tokens (internal/rank/rank.go): word starts, the three ways a
    token can match, the greedy subsequence search and the match score. */
module Matcher {
  import opened Calendar

  /** What the matcher asks of Unicode. */
  datatype Letters = Letters(isUpper: char -> bool, isLower: char -> bool, toLower: char -> char)

  datatype Tier = NoTier | Fuzzy | Substring | WordPrefix

  function Level(t: Tier): nat {
    match t
    case NoTier => 0
    case Fuzzy => 1
    case Substring => 2
    case WordPrefix => 3
  }

  datatype Match = Match(tier: Tier, score: real)

  /** What math.Cbrt is relied on for. */
  ghost predicate IsCubeRoot(cbrt: real -> real) {
    && cbrt(0.0) == 0.0 && cbrt(1.0) == 1.0
    && forall x: real, y: real :: 0.0 <= x < y ==> cbrt(x) < cbrt(y)
  }

  // ------------------------------------------------------------- embeddings

  /** `pos` places the first |pos| characters of the token, in order, before `bound`. */
  predicate Fits(text: string, tok: string, pos: seq<int>, bound: int) {
    && |pos| <= |tok| && bound <= |text|
    && (forall k :: 0 <= k < |pos| ==> 0 <= pos[k] < bound && text[pos[k]] == tok[k])
    && (forall j, k :: 0 <= j < k < |pos| ==> pos[j] < pos[k])
  }

  predicate Embeds(text: string, tok: string, pos: seq<int>) {
    Fits(text, tok, pos, |text|) && |pos| == |tok|
  }

  /** No embedding of the token ends before `pos` does, and among those that end there `pos` has every
      character as late as any: the span is the shortest with that end. */
  ghost predicate Tight(text: string, tok: string, pos: seq<int>) {
    && Embeds(text, tok, pos) && pos != []
    && (forall p :: Embeds(text, tok, p) ==> pos[|pos|-1] <= p[|p|-1])
    && (forall p, k :: Embeds(text, tok, p) && p[|p|-1] == pos[|pos|-1] && 0 <= k < |p| ==> p[k] <= pos[k])
  }

  /** The forward scan never falls behind: one more character of text lets at most one more of the
      token in, and only if it is the next one. */
  lemma ForwardStep(text: string, tok: string, i: nat, ti: nat)
    requires i < |text| && ti < |tok|
    requires forall p :: Fits(text, tok, p, i) ==> |p| <= ti
    ensures forall p :: Fits(text, tok, p, i + 1) ==> |p| <= if text[i] == tok[ti] then ti + 1 else ti
  {
    forall p | Fits(text, tok, p, i + 1) ensures |p| <= if text[i] == tok[ti] then ti + 1 else ti {
      if p != [] {
        var q := p[..|p|-1];
        assert forall k :: 0 <= k < |q| ==> q[k] == p[k] && p[k] < p[|p|-1];
        assert Fits(text, tok, q, i);
        if p[|p|-1] != i { assert Fits(text, tok, p, i); }
      }
    }
  }

  lemma FitsBelow(text: string, tok: string, pos: seq<int>, bound: int)
    requires Fits(text, tok, pos, bound)
    ensures pos == [] || 0 < bound
  {
    if pos != [] { assert 0 <= pos[0] < bound; }
  }

  lemma NothingFits(text: string, tok: string)
    ensures Fits(text, tok, [], 0) && forall p :: Fits(text, tok, p, 0) ==> |p| <= 0
  {
    forall p | Fits(text, tok, p, 0) ensures |p| <= 0 {
      FitsBelow(text, tok, p, 0);
    }
  }

  lemma FoundOneMore(text: string, tok: string, found: seq<int>, i: nat)
    requires i < |text| && Fits(text, tok, found, i)
    ensures Fits(text, tok, found, i + 1)
    ensures |found| < |tok| && text[i] == tok[|found|] ==> Fits(text, tok, found + [i], i + 1)
  {
  }

  /** When nothing shorter holds the whole token, `end` is where the earliest embedding ends. */
  lemma EarliestEnd(text: string, tok: string, end: nat, found: seq<int>)
    requires tok != [] && end < |text| && |found| == |tok| && Fits(text, tok, found, end + 1)
    requires forall p :: Fits(text, tok, p, end) ==> |p| < |tok|
    ensures Embeds(text, tok, found) && found[|found|-1] == end
    ensures forall p :: Embeds(text, tok, p) ==> end <= p[|p|-1]
  {
    forall p | Embeds(text, tok, p) ensures end <= p[|p|-1] {
      assert p[|p|-1] < end ==> Fits(text, tok, p, end);
    }
    assert found[|found|-1] < end ==> Fits(text, tok, found, end);
  }

  /** Finds the end of the first match, then scans back from it: the forward scan decides whether the
      token embeds at all, the backward scan tightens it. */
  method Subsequence(text: string, tok: string) returns (r: Option<seq<int>>)
    requires tok != []
    ensures r.Some? <==> exists p :: Embeds(text, tok, p)
    ensures r.Some? ==> Tight(text, tok, r.value)
  {
    hide Fits;
    var end := -1;
    var ti := 0;
    ghost var found: seq<int> := [];
    NothingFits(text, tok);
    for i := 0 to |text|
      invariant end < 0 && ti == |found| < |tok| && Fits(text, tok, found, i)
      invariant forall p :: Fits(text, tok, p, i) ==> |p| <= ti
    {
      FoundOneMore(text, tok, found, i);
      ForwardStep(text, tok, i, ti);
      if text[i] == tok[ti] {
        found := found + [i];
        ti := ti + 1;
        if ti == |tok| {
          end := i;
          break;
        }
      }
    }
    if end < 0 {
      return None;
    }
    EarliestEnd(text, tok, end, found);
    var pos := ScanBack(text, tok, end, found);
    return Some(pos);
  }

  /** Every embedding that ends at `end` has its k-th character at `i` or before. */
  ghost predicate AtMost(text: string, tok: string, end: int, k: nat, i: int)
    requires k < |tok|
  {
    forall p :: Embeds(text, tok, p) && p[|p|-1] == end ==> p[k] <= i
  }

  lemma BackwardStep(text: string, tok: string, end: int, k: nat, i: nat)
    requires k < |tok| && i < |text| && AtMost(text, tok, end, k, i)
    ensures text[i] != tok[k] ==> AtMost(text, tok, end, k, i - 1)
    ensures k > 0 ==> AtMost(text, tok, end, k - 1, i - 1)
  {
    forall p | Embeds(text, tok, p) && p[|p|-1] == end
      ensures p[k] <= i && (text[i] != tok[k] ==> p[k] <= i - 1) && (k > 0 ==> p[k-1] <= i - 1)
    {
      assert text[p[k]] == tok[k] && (k > 0 ==> p[k-1] < p[k]);
    }
  }

  lemma StartOfScan(text: string, tok: string, end: nat, first: seq<int>)
    requires tok != [] && Embeds(text, tok, first) && first[|first|-1] == end
    ensures end < |text| && text[end] == tok[|tok|-1] && AtMost(text, tok, end, |tok| - 1, end)
    ensures forall k, i :: 0 <= k < |tok| && AtMost(text, tok, end, k, i) ==> 0 <= i
  {
    forall k, i | 0 <= k < |tok| && AtMost(text, tok, end, k, i) ensures 0 <= i {
      assert 0 <= first[k] <= i;
    }
  }

  lemma EndOfScan(text: string, tok: string, end: nat, pos: seq<int>)
    requires tok != [] && |pos| == |tok| && pos[|pos|-1] == end < |text|
    requires forall p :: Embeds(text, tok, p) ==> end <= p[|p|-1]
    requires forall k :: 0 <= k < |tok| ==> 0 <= pos[k] <= end && text[pos[k]] == tok[k] && AtMost(text, tok, end, k, pos[k])
    requires forall j, k :: 0 <= j < k < |tok| ==> pos[j] < pos[k]
    ensures Tight(text, tok, pos)
  {
    forall p, k | Embeds(text, tok, p) && p[|p|-1] == end && 0 <= k < |p| ensures p[k] <= pos[k] {
      assert AtMost(text, tok, end, k, pos[k]);
    }
  }

  /** From the end of the earliest match back, taking each character as soon as it is met. */
  method ScanBack(text: string, tok: string, end: nat, ghost first: seq<int>) returns (r: seq<int>)
    requires tok != [] && Embeds(text, tok, first) && first[|first|-1] == end
    requires forall p :: Embeds(text, tok, p) ==> end <= p[|p|-1]
    ensures Tight(text, tok, r) && r[|r|-1] == end
  {
    hide AtMost, Fits, Tight;
    StartOfScan(text, tok, end, first);
    var pos := new int[|tok|];
    var ti, i := |tok| - 1, end;
    while i >= 0 && ti >= 0
      invariant -1 <= ti < |tok| && -1 <= i <= end && (ti == |tok| - 1 ==> i == end)
      invariant ti < |tok| - 1 ==> pos[|tok|-1] == end
      invariant forall k :: ti < k < |tok| ==> i < pos[k] <= end && text[pos[k]] == tok[k] && AtMost(text, tok, end, k, pos[k])
      invariant forall j, k :: ti < j < k < |tok| ==> pos[j] < pos[k]
      invariant ti >= 0 ==> AtMost(text, tok, end, ti, i)
    {
      BackwardStep(text, tok, end, ti, i);
      if text[i] == tok[ti] {
        pos[ti] := i;
        ti := ti - 1;
      }
      i := i - 1;
    }
    EndOfScan(text, tok, end, pos[..]);
    return pos[..];
  }

  // ------------------------------------------------------------- words and verbatim matches

  const SEPARATORS := " \t\n-_/.:=,|&;'\""

  predicate IsSeparator(c: char) {
    c in {' ', '\t', '\n', '-', '_', '/', '.', ':', '=', ',', '|', '&', ';', '\'', '"'}
  }

  /** A word starts at the beginning, at what follows a separator (unless that is one too), and at a
      capital that either does not follow a capital or is followed by a lower-case letter. */
  predicate StartsWord(letters: Letters, text: string, i: nat)
    requires i < |text|
  {
    i == 0
    || (IsSeparator(text[i-1]) && !IsSeparator(text[i]))
    || (!IsSeparator(text[i-1]) && letters.isUpper(text[i])
        && (!letters.isUpper(text[i-1]) || (i + 1 < |text| && letters.isLower(text[i+1]))))
  }

  method WordStarts(letters: Letters, text: string) returns (r: seq<bool>)
    ensures |r| == |text| && forall i :: 0 <= i < |text| ==> r[i] == StartsWord(letters, text, i)
    ensures text != [] ==> r[0]
    // After a separator everything but another separator starts a word …
    ensures forall i :: 0 < i < |text| && text[i-1] in SEPARATORS ==> (r[i] <==> text[i] !in SEPARATORS)
    // … and elsewhere only capitals do.
    ensures forall i :: 0 < i < |text| && text[i-1] !in SEPARATORS && r[i] ==> letters.isUpper(text[i])
    ensures forall i :: 0 < i < |text| && text[i-1] !in SEPARATORS && letters.isUpper(text[i]) && !letters.isUpper(text[i-1]) ==> r[i]
  {
    var out := new bool[|text|](_ => false);
    for i := 0 to |text|
      invariant forall k :: 0 <= k < i ==> out[k] == StartsWord(letters, text, k)
      invariant forall k :: i <= k < |text| ==> !out[k]
    {
      if i == 0 {
        out[i] := true;
      } else if IsSeparator(text[i-1]) {
        out[i] := !IsSeparator(text[i]);
      } else if letters.isUpper(text[i]) {
        out[i] := !letters.isUpper(text[i-1]) || (i + 1 < |text| && letters.isLower(text[i+1]));
      }
    }
    return out[..];
  }

  /** Inside a word, capitals in a row start one word at the first of them, and another at the last one
      if what follows it is lower-case: parse|HTTP|Response. */
  lemma CapitalRun(letters: Letters, text: string, a: nat, b: nat, i: nat)
    requires 0 < a <= i < b <= |text| && !IsSeparator(text[a-1]) && !letters.isUpper(text[a-1])
    requires forall k :: a <= k < b ==> letters.isUpper(text[k])
    requires b < |text| ==> !letters.isUpper(text[b])
    requires forall c :: letters.isUpper(c) ==> !IsSeparator(c) && !letters.isLower(c)
    ensures StartsWord(letters, text, i) <==> i == a || (i == b - 1 && b < |text| && letters.isLower(text[b]))
  {
    if i > a { assert letters.isUpper(text[i-1]); }
    if i + 1 < b { assert letters.isUpper(text[i+1]); }
  }

  predicate PrefixAt(text: string, i: nat, tok: string) {
    i + |tok| <= |text| && text[i..i+|tok|] == tok
  }

  method HasPrefixAt(text: string, i: nat, tok: string) returns (r: bool)
    ensures r <==> PrefixAt(text, i, tok)
  {
    if i + |tok| > |text| { return false; }
    for j := 0 to |tok|
      invariant text[i..i+j] == tok[..j]
    {
      if text[i+j] != tok[j] {
        assert text[i..i+|tok|][j] != tok[j];
        return false;
      }
      assert text[i..i+j+1] == text[i..i+j] + [text[i+j]] && tok[..j+1] == tok[..j] + [tok[j]];
    }
    assert tok[..|tok|] == tok;
    return true;
  }

  function Contiguous(start: nat, n: nat): (pos: seq<int>)
    ensures |pos| == n && forall i :: 0 <= i < n ==> pos[i] == start + i
  {
    seq(n, i => start + i)
  }

  // ------------------------------------------------------------- how well placed a match is

  /** The weight of the i-th matched character. */
  function Weight(starts: seq<bool>, pos: seq<int>, i: nat): real
    requires i < |pos| && 0 <= pos[i] < |starts|
  {
    if starts[pos[i]] then 1.0
    else if i > 0 && pos[i-1] == pos[i] - 1 then 0.7
    else 0.4
  }

  predicate Placed(starts: seq<bool>, pos: seq<int>) {
    && (forall i :: 0 <= i < |pos| ==> 0 <= pos[i] < |starts|)
    && (forall i, j :: 0 <= i < j < |pos| ==> pos[i] < pos[j])
  }

  function WeightSum(starts: seq<bool>, pos: seq<int>, n: nat): (sum: real)
    requires Placed(starts, pos) && n <= |pos|
    ensures 0.4 * n as real <= sum <= n as real
    ensures sum == n as real <==> forall i :: 0 <= i < n ==> starts[pos[i]]
  {
    if n == 0 then 0.0 else WeightSum(starts, pos, n - 1) + Weight(starts, pos, n - 1)
  }

  function Span(pos: seq<int>): int
    requires pos != []
  {
    pos[|pos|-1] - pos[0] + 1
  }

  lemma {:induction false} SpanAtLeast(starts: seq<bool>, pos: seq<int>, n: nat)
    requires Placed(starts, pos) && 0 < n <= |pos|
    ensures pos[n-1] - pos[0] + 1 >= n
  {
    if n > 1 { SpanAtLeast(starts, pos, n - 1); }
  }

  function Placement(starts: seq<bool>, pos: seq<int>): real
    requires Placed(starts, pos) && pos != []
  {
    WeightSum(starts, pos, |pos|) / |pos| as real
  }

  function Compactness(cbrt: real -> real, pos: seq<int>): real
    requires pos != [] && Span(pos) > 0
  {
    cbrt(|pos| as real / Span(pos) as real)
  }

  /** Mean weight times the softened compactness. */
  function Rating(cbrt: real -> real, starts: seq<bool>, pos: seq<int>): real
    requires Placed(starts, pos) && pos != []
  {
    SpanAtLeast(starts, pos, |pos|);
    Placement(starts, pos) * Compactness(cbrt, pos)
  }

  lemma Quotient(a: real, b: real)
    requires 0.0 < a <= b
    ensures 0.0 < a / b <= 1.0 && (a / b == 1.0 <==> a == b)
  {
  }

  lemma Product(a: real, b: real)
    requires 0.0 < a <= 1.0 && 0.0 < b <= 1.0
    ensures 0.0 < a * b <= 1.0 && (a * b == 1.0 <==> a == 1.0 && b == 1.0)
  {
    if a < 1.0 { assert a * b < 1.0 * b; }
  }

  lemma RootInRange(cbrt: real -> real, x: real)
    requires IsCubeRoot(cbrt) && 0.0 < x <= 1.0
    ensures 0.0 < cbrt(x) <= 1.0 && (cbrt(x) == 1.0 <==> x == 1.0)
  {
  }

  lemma PlacementRange(starts: seq<bool>, pos: seq<int>)
    requires Placed(starts, pos) && pos != []
    ensures 0.0 < Placement(starts, pos) <= 1.0
    ensures Placement(starts, pos) == 1.0 <==> forall i :: 0 <= i < |pos| ==> starts[pos[i]]
  {
    hide WeightSum;
    Quotient(WeightSum(starts, pos, |pos|), |pos| as real);
  }

  lemma CompactnessRange(cbrt: real -> real, pos: seq<int>)
    requires IsCubeRoot(cbrt) && pos != [] && Span(pos) >= |pos|
    ensures 0.0 < Compactness(cbrt, pos) <= 1.0 && (Compactness(cbrt, pos) == 1.0 <==> Span(pos) == |pos|)
  {
    hide IsCubeRoot, Span;
    Quotient(|pos| as real, Span(pos) as real);
    RootInRange(cbrt, |pos| as real / Span(pos) as real);
  }

  /** A rating lies in (0, 1], and is 1 exactly for matched characters that are adjacent and each start
      a word. */
  lemma RatingRange(cbrt: real -> real, starts: seq<bool>, pos: seq<int>)
    requires IsCubeRoot(cbrt) && Placed(starts, pos) && pos != []
    ensures 0.0 < Rating(cbrt, starts, pos) <= 1.0
    ensures Rating(cbrt, starts, pos) == 1.0 <==> Span(pos) == |pos| && forall i :: 0 <= i < |pos| ==> starts[pos[i]]
  {
    hide IsCubeRoot, Placement, Compactness;
    SpanAtLeast(starts, pos, |pos|);
    PlacementRange(starts, pos);
    CompactnessRange(cbrt, pos);
    Product(Placement(starts, pos), Compactness(cbrt, pos));
  }

  lemma {:induction false} SumOfAdjacent(starts: seq<bool>, pos: seq<int>, n: nat)
    requires Placed(starts, pos) && 0 < n <= |pos|
    requires forall i :: 0 < i < n ==> pos[i] == pos[i-1] + 1 && !starts[pos[i]]
    ensures WeightSum(starts, pos, n) == (if starts[pos[0]] then 1.0 else 0.4) + 0.7 * (n - 1) as real
  {
    if n > 1 {
      SumOfAdjacent(starts, pos, n - 1);
    } else {
      assert WeightSum(starts, pos, 0) == 0.0;
    }
  }

  /** What a token that stands verbatim inside one word scores: a word start is worth 1, a character
      behind its neighbour 0.7, and any other 0.4. */
  lemma RatingOfAdjacent(cbrt: real -> real, starts: seq<bool>, pos: seq<int>)
    requires IsCubeRoot(cbrt) && Placed(starts, pos) && pos != []
    requires forall i :: 0 < i < |pos| ==> pos[i] == pos[i-1] + 1 && !starts[pos[i]]
    ensures Rating(cbrt, starts, pos) == ((if starts[pos[0]] then 1.0 else 0.4) + 0.7 * (|pos| - 1) as real) / |pos| as real
  {
    hide IsCubeRoot;
    SumOfAdjacent(starts, pos, |pos|);
    AdjacentSpan(pos, |pos|);
    CompactnessRange(cbrt, pos);
  }

  lemma {:induction false} AdjacentSpan(pos: seq<int>, n: nat)
    requires 0 < n <= |pos| && forall i :: 0 < i < n ==> pos[i] == pos[i-1] + 1
    ensures pos[n-1] == pos[0] + n - 1
  {
    if n > 1 { AdjacentSpan(pos, n - 1); }
  }

  method TokenScore(cbrt: real -> real, starts: seq<bool>, pos: seq<int>) returns (r: real)
    requires Placed(starts, pos)
    ensures r == if pos == [] then 0.0 else Rating(cbrt, starts, pos)
  {
    if pos == [] { return 0.0; }
    var sum := 0.0;
    for i := 0 to |pos|
      invariant sum == WeightSum(starts, pos, i)
    {
      var p := pos[i];
      if starts[p] {
        sum := sum + 1.0;
      } else if i > 0 && pos[i-1] == p - 1 {
        sum := sum + 0.7;
      } else {
        sum := sum + 0.4;
      }
    }
    var placement := sum / |pos| as real;
    var span := pos[|pos|-1] - pos[0] + 1;
    SpanAtLeast(starts, pos, |pos|);
    var compact := cbrt(|pos| as real / span as real);
    return placement * compact;
  }

  // ------------------------------------------------------------- one token

  predicate PrefixOfWord(text: string, starts: seq<bool>, i: nat, tok: string)
    requires |starts| == |text|
  {
    i < |text| && starts[i] && PrefixAt(text, i, tok)
  }

  predicate Inside(text: string, i: nat, tok: string) {
    i < |text| && PrefixAt(text, i, tok)
  }

  ghost predicate FoundAt(i: nat, at: nat -> bool) {
    at(i) && forall j: nat :: j < i ==> !at(j)
  }

  /** Where a token matches: at the first word it begins; or else the first place it stands verbatim;
      or else at its tight embedding. */
  ghost predicate Matches(text: string, starts: seq<bool>, tok: string, tier: Tier, pos: seq<int>)
    requires |starts| == |text|
  {
    match tier
    case WordPrefix =>
      exists i: nat :: FoundAt(i, (k: nat) => PrefixOfWord(text, starts, k, tok)) && pos == Contiguous(i, |tok|)
    case Substring =>
      && (forall k: nat :: !PrefixOfWord(text, starts, k, tok))
      && exists i: nat :: FoundAt(i, (k: nat) => Inside(text, k, tok)) && pos == Contiguous(i, |tok|)
    case Fuzzy => (forall k: nat :: !Inside(text, k, tok)) && Tight(text, tok, pos)
    case NoTier => false
  }

  /** A token matches in at most one way. */
  lemma MatchesOnce(text: string, starts: seq<bool>, tok: string, t: Tier, p: seq<int>, u: Tier, q: seq<int>)
    requires |starts| == |text|
    requires Matches(text, starts, tok, t, p) && Matches(text, starts, tok, u, q)
    ensures t == u && p == q
  {
    hide Tight, PrefixAt;
    if t == u == Fuzzy {
      TightOnce(text, tok, p, q);
    } else if t == u == WordPrefix {
      var i: nat :| FoundAt(i, (k: nat) => PrefixOfWord(text, starts, k, tok)) && p == Contiguous(i, |tok|);
      var j: nat :| FoundAt(j, (k: nat) => PrefixOfWord(text, starts, k, tok)) && q == Contiguous(j, |tok|);
      assert i == j;
    } else if t == u == Substring {
      var i: nat :| FoundAt(i, (k: nat) => Inside(text, k, tok)) && p == Contiguous(i, |tok|);
      var j: nat :| FoundAt(j, (k: nat) => Inside(text, k, tok)) && q == Contiguous(j, |tok|);
      assert i == j;
    } else {
      assert forall i: nat :: PrefixOfWord(text, starts, i, tok) ==> Inside(text, i, tok);
    }
  }

  lemma TightOnce(text: string, tok: string, p: seq<int>, q: seq<int>)
    requires Tight(text, tok, p) && Tight(text, tok, q)
    ensures p == q
  {
    hide Fits;
    forall k | 0 <= k < |tok| ensures p[k] == q[k] {
      assert p[k] <= q[k] && q[k] <= p[k];
    }
  }

  lemma VerbatimEmbeds(text: string, i: nat, tok: string)
    requires Inside(text, i, tok)
    ensures Embeds(text, tok, Contiguous(i, |tok|))
  {
    forall k | 0 <= k < |tok| ensures text[i+k] == tok[k] {
      assert text[i..i+|tok|][k] == tok[k];
    }
  }

  lemma MatchEmbeds(text: string, starts: seq<bool>, tok: string, tier: Tier, pos: seq<int>)
    requires |starts| == |text| && Matches(text, starts, tok, tier, pos)
    ensures Embeds(text, tok, pos) && Placed(starts, pos)
  {
    hide PrefixAt;
    if tier != Fuzzy {
      var i: nat :| Inside(text, i, tok) && pos == Contiguous(i, |tok|);
      VerbatimEmbeds(text, i, tok);
    }
  }

  method MatchToken(cbrt: real -> real, text: string, starts: seq<bool>, tok: string)
    returns (r: Option<Match>, ghost pos: seq<int>)
    requires |starts| == |text|
    ensures r.None? <==> tok == [] || !exists p :: Embeds(text, tok, p)
    ensures r.Some? ==> && Matches(text, starts, tok, r.value.tier, pos) && Placed(starts, pos) && pos != []
                        && r.value.score == Rating(cbrt, starts, pos)
  {
    hide Fits, PrefixAt, Rating, Tight, Placed;
    pos := [];
    if tok == [] { return None, []; }
    for i := 0 to |text|
      invariant forall k: nat :: k < i ==> !PrefixOfWord(text, starts, k, tok)
    {
      var here := HasPrefixAt(text, i, tok);
      if !starts[i] || !here { continue; }
      r, pos := Contiguously(cbrt, text, starts, tok, WordPrefix, i);
      return;
    }
    for i := 0 to |text|
      invariant forall k: nat :: k < i ==> !Inside(text, k, tok)
    {
      var here := HasPrefixAt(text, i, tok);
      if here {
        r, pos := Contiguously(cbrt, text, starts, tok, Substring, i);
        return;
      }
    }
    var found := Subsequence(text, tok);
    if found.None? { return None, []; }
    pos := found.value;
    MatchEmbeds(text, starts, tok, Fuzzy, pos);
    var score := TokenScore(cbrt, starts, found.value);
    return Some(Match(Fuzzy, score)), pos;
  }

  /** A match of adjacent characters at i. */
  method Contiguously(cbrt: real -> real, text: string, starts: seq<bool>, tok: string, tier: Tier, i: nat)
    returns (r: Option<Match>, ghost pos: seq<int>)
    requires |starts| == |text| && tok != [] && Matches(text, starts, tok, tier, Contiguous(i, |tok|))
    ensures r.Some? && r.value.tier == tier && pos == Contiguous(i, |tok|) && Placed(starts, pos)
    ensures Embeds(text, tok, pos) && r.value.score == Rating(cbrt, starts, pos)
  {
    MatchEmbeds(text, starts, tok, tier, Contiguous(i, |tok|));
    var score := TokenScore(cbrt, starts, Contiguous(i, |tok|));
    return Some(Match(tier, score)), Contiguous(i, |tok|);
  }

  /** The tier in terms of the text alone: begins a word, or else stands verbatim, or else embeds. */
  lemma TierSaysHow(text: string, starts: seq<bool>, tok: string, tier: Tier, pos: seq<int>)
    requires |starts| == |text| && Matches(text, starts, tok, tier, pos)
    ensures tier == WordPrefix <==> exists i: nat :: PrefixOfWord(text, starts, i, tok)
    ensures tier == Substring <==> (exists i: nat :: Inside(text, i, tok)) && forall i: nat :: !PrefixOfWord(text, starts, i, tok)
    ensures tier == Fuzzy <==> forall i: nat :: !Inside(text, i, tok)
  {
    hide Tight, PrefixAt;
    assert forall i: nat :: PrefixOfWord(text, starts, i, tok) ==> Inside(text, i, tok);
  }

  // ------------------------------------------------------------- the whole query

  /** How one token matches, as a function. */
  ghost function TokenMatch(cbrt: real -> real, text: string, starts: seq<bool>, tok: string): Option<Match>
    requires |starts| == |text|
  {
    if tier, pos :| Matches(text, starts, tok, tier, pos) && Placed(starts, pos) && pos != []
    then Some(Match(tier, Rating(cbrt, starts, pos))) else None
  }

  lemma TokenMatchIs(cbrt: real -> real, text: string, starts: seq<bool>, tok: string, r: Option<Match>, pos: seq<int>)
    requires |starts| == |text|
    requires r.None? <==> tok == [] || !exists p :: Embeds(text, tok, p)
    requires r.Some? ==> && Matches(text, starts, tok, r.value.tier, pos) && Placed(starts, pos) && pos != []
                         && r.value.score == Rating(cbrt, starts, pos)
    ensures r == TokenMatch(cbrt, text, starts, tok)
  {
    hide Matches, Embeds, Rating, Placed;
    if tier, p :| Matches(text, starts, tok, tier, p) && Placed(starts, p) && p != [] {
      MatchEmbeds(text, starts, tok, tier, p);
      SameLength(text, tok, p);
      MatchesOnce(text, starts, tok, tier, p, r.value.tier, pos);
    }
    forall tier, p | Matches(text, starts, tok, tier, p) && Placed(starts, p) && p != []
      ensures r.Some? && tier == r.value.tier && p == pos
    {
      MatchEmbeds(text, starts, tok, tier, p);
      SameLength(text, tok, p);
      MatchesOnce(text, starts, tok, tier, p, r.value.tier, pos);
    }
  }

  lemma SameLength(text: string, tok: string, p: seq<int>)
    requires Embeds(text, tok, p)
    ensures |p| == |tok|
  {
  }

  ghost function TierOfToken(cbrt: real -> real, text: string, starts: seq<bool>, tok: string): Tier
    requires |starts| == |text|
  {
    match TokenMatch(cbrt, text, starts, tok) case Some(m) => m.tier case None => NoTier
  }

  ghost function ScoreOfToken(cbrt: real -> real, text: string, starts: seq<bool>, tok: string): real
    requires |starts| == |text|
  {
    match TokenMatch(cbrt, text, starts, tok) case Some(m) => m.score case None => 0.0
  }

  ghost function Total(cbrt: real -> real, text: string, starts: seq<bool>, tokens: seq<string>): real
    requires |starts| == |text|
  {
    if tokens == [] then 0.0
    else Total(cbrt, text, starts, tokens[..|tokens|-1]) + ScoreOfToken(cbrt, text, starts, tokens[|tokens|-1])
  }

  /** The lowest tier of the tokens. */
  ghost function Weakest(cbrt: real -> real, text: string, starts: seq<bool>, tokens: seq<string>): Tier
    requires |starts| == |text|
  {
    if tokens == [] then WordPrefix
    else
      var rest, t := Weakest(cbrt, text, starts, tokens[..|tokens|-1]), TierOfToken(cbrt, text, starts, tokens[|tokens|-1]);
      if Level(t) < Level(rest) then t else rest
  }

  ghost predicate AllMatch(cbrt: real -> real, text: string, starts: seq<bool>, tokens: seq<string>)
    requires |starts| == |text|
  {
    forall tok :: tok in tokens ==> TokenMatch(cbrt, text, starts, tok).Some?
  }

  ghost function QueryMatch(cbrt: real -> real, text: string, starts: seq<bool>, tokens: seq<string>): Option<Match>
    requires |starts| == |text|
  {
    if tokens == [] then Some(Match(WordPrefix, 1.0))
    else if !AllMatch(cbrt, text, starts, tokens) then None
    else Some(Match(Weakest(cbrt, text, starts, tokens), Total(cbrt, text, starts, tokens) / |tokens| as real))
  }

  function Folded(letters: Letters, command: string): string {
    seq(|command|, i requires 0 <= i < |command| => letters.toLower(command[i]))
  }

  function WordMarks(letters: Letters, command: string): seq<bool> {
    seq(|command|, i requires 0 <= i < |command| => StartsWord(letters, command, i))
  }

  /** `w` begins a word of the command: it stands at the command's beginning, or behind a separator
      while beginning with none. */
  ghost predicate BeginsWord(command: string, a: string, w: string) {
    && w != [] && a + w <= command
    && (a == [] || (a[|a|-1] in SEPARATORS && w[0] !in SEPARATORS))
  }

  lemma {:induction false} FirstFound(at: nat -> bool, i: nat) returns (first: nat)
    requires at(i)
    ensures FoundAt(first, at) && first <= i
  {
    if j: nat :| j < i && at(j) {
      first := FirstFound(at, j);
    } else {
      first := i;
    }
  }

  /** A token that stands where a word starts matches as a word. */
  lemma WordTier(cbrt: real -> real, text: string, starts: seq<bool>, tok: string, i: nat)
    requires |starts| == |text| && tok != [] && PrefixOfWord(text, starts, i, tok)
    ensures TokenMatch(cbrt, text, starts, tok).Some? && TierOfToken(cbrt, text, starts, tok) == WordPrefix
  {
    hide PrefixAt, Rating, Placed, Embeds, Tight;
    var first := FirstFound((k: nat) => PrefixOfWord(text, starts, k, tok), i);
    var pos := Contiguous(first, |tok|);
    assert Matches(text, starts, tok, WordPrefix, pos);
    MatchEmbeds(text, starts, tok, WordPrefix, pos);
    assert pos != [];
    var tier, p :| Matches(text, starts, tok, tier, p) && Placed(starts, p) && p != []
                   && TokenMatch(cbrt, text, starts, tok) == Some(Match(tier, Rating(cbrt, starts, p)));
    MatchesOnce(text, starts, tok, WordPrefix, pos, tier, p);
  }

  lemma FoldedSplit(letters: Letters, a: string, b: string)
    ensures Folded(letters, a + b) == Folded(letters, a) + Folded(letters, b)
  {
  }

  lemma WordStands(letters: Letters, command: string, a: string, w: string)
    requires BeginsWord(command, a, w)
    ensures PrefixOfWord(Folded(letters, command), WordMarks(letters, command), |a|, Folded(letters, w))
  {
    var rest := command[|a|+|w|..];
    assert command == a + w + rest;
    FoldedSplit(letters, a + w, rest);
    FoldedSplit(letters, a, w);
  }

  /** A token matches as a word when it is the folded beginning of one: `push` in `git push`. */
  lemma WordsMatchAsWords(cbrt: real -> real, letters: Letters, command: string, a: string, w: string)
    requires BeginsWord(command, a, w)
    ensures var text, starts := Folded(letters, command), WordMarks(letters, command);
            && TokenMatch(cbrt, text, starts, Folded(letters, w)).Some?
            && TierOfToken(cbrt, text, starts, Folded(letters, w)) == WordPrefix
            && QueryMatch(cbrt, text, starts, [Folded(letters, w)]).Some?
            && QueryMatch(cbrt, text, starts, [Folded(letters, w)]).value.tier == WordPrefix
  {
    hide TokenMatch, PrefixOfWord;
    var text, starts, tok := Folded(letters, command), WordMarks(letters, command), Folded(letters, w);
    WordStands(letters, command, a, w);
    WordTier(cbrt, text, starts, tok, |a|);
    assert [tok][..0] == [];
    assert Weakest(cbrt, text, starts, [tok][..0]) == WordPrefix;
  }

  lemma WordQueries(cbrt: real -> real, letters: Letters, command: string, tokens: seq<string>)
    ensures var m := QueryMatch(cbrt, Folded(letters, command), WordMarks(letters, command), tokens);
            forall a, w :: BeginsWord(command, a, w) && tokens == [Folded(letters, w)] ==> m.Some? && m.value.tier == WordPrefix
  {
    hide QueryMatch, BeginsWord;
    forall a, w | BeginsWord(command, a, w) && tokens == [Folded(letters, w)]
      ensures QueryMatch(cbrt, Folded(letters, command), WordMarks(letters, command), tokens).Some?
      ensures QueryMatch(cbrt, Folded(letters, command), WordMarks(letters, command), tokens).value.tier == WordPrefix
    {
      WordsMatchAsWords(cbrt, letters, command, a, w);
    }
  }

  method Fold(letters: Letters, command: string) returns (text: string)
    ensures text == Folded(letters, command)
  {
    var folded := new char[|command|](_ => ' ');
    for i := 0 to |command|
      invariant folded[..i] == Folded(letters, command)[..i]
    {
      folded[i] := letters.toLower(command[i]);
      assert folded[..i+1] == folded[..i] + [folded[i]];
    }
    return folded[..];
  }

  /** Every token must match; the match is as good as its weakest token, and scores the mean. */
  method MatchCommand(cbrt: real -> real, letters: Letters, command: string, tokens: seq<string>) returns (r: Option<Match>)
    ensures r == QueryMatch(cbrt, Folded(letters, command), WordMarks(letters, command), tokens)
    ensures r.Some? <==> forall tok :: tok in tokens ==> tok != [] && exists p :: Embeds(Folded(letters, command), tok, p)
    // What begins the command, or follows a separator in it, matches as a word.
    ensures forall a, w :: BeginsWord(command, a, w) && tokens == [Folded(letters, w)] ==> r.Some? && r.value.tier == WordPrefix
  {
    hide BeginsWord, TokenMatch, Embeds, Matches, Rating, Placed;
    WordQueries(cbrt, letters, command, tokens);
    if tokens == [] { return Some(Match(WordPrefix, 1.0)); }
    var text := Fold(letters, command);
    var starts := WordStarts(letters, command);
    assert text == Folded(letters, command) && starts == WordMarks(letters, command);

    var worst, total := WordPrefix, 0.0;
    for i := 0 to |tokens|
      invariant AllMatch(cbrt, text, starts, tokens[..i])
      invariant worst == Weakest(cbrt, text, starts, tokens[..i]) && total == Total(cbrt, text, starts, tokens[..i])
      invariant forall tok :: tok in tokens[..i] ==> tok != [] && exists p :: Embeds(text, tok, p)
    {
      assert tokens[..i+1][..i] == tokens[..i] && tokens[..i+1] == tokens[..i] + [tokens[i]];
      ghost var pos;
      var m;
      m, pos := MatchToken(cbrt, text, starts, tokens[i]);
      TokenMatchIs(cbrt, text, starts, tokens[i], m, pos);
      if m.None? {
        assert tokens[i] in tokens;
        return None;
      }
      if Level(m.value.tier) < Level(worst) { worst := m.value.tier; }
      total := total + m.value.score;
    }
    assert tokens[..|tokens|] == tokens;
    return Some(Match(worst, total / |tokens| as real));
  }

  lemma TokenRange(cbrt: real -> real, text: string, starts: seq<bool>, tok: string)
    requires IsCubeRoot(cbrt) && |starts| == |text| && TokenMatch(cbrt, text, starts, tok).Some?
    ensures 0.0 < ScoreOfToken(cbrt, text, starts, tok) <= 1.0 && TierOfToken(cbrt, text, starts, tok) != NoTier
  {
    hide IsCubeRoot, Rating, Placed, Tight, FoundAt, PrefixOfWord, Inside;
    var tier, pos :| Matches(text, starts, tok, tier, pos) && Placed(starts, pos) && pos != []
                     && TokenMatch(cbrt, text, starts, tok) == Some(Match(tier, Rating(cbrt, starts, pos)));
    RatingRange(cbrt, starts, pos);
  }

  /** A match's tier is the minimum over its tokens, and its score lies in (0, 1]. */
  lemma {:induction false} QueryRange(cbrt: real -> real, text: string, starts: seq<bool>, tokens: seq<string>)
    requires IsCubeRoot(cbrt) && |starts| == |text| && AllMatch(cbrt, text, starts, tokens)
    ensures forall tok :: tok in tokens ==> Level(Weakest(cbrt, text, starts, tokens)) <= Level(TierOfToken(cbrt, text, starts, tok))
    ensures tokens != [] ==> exists tok :: tok in tokens && TierOfToken(cbrt, text, starts, tok) == Weakest(cbrt, text, starts, tokens)
    ensures tokens != [] ==> 0.0 < Total(cbrt, text, starts, tokens) <= |tokens| as real
  {
    hide IsCubeRoot, TierOfToken, ScoreOfToken, TokenMatch, Weakest, Total, Level;
    NoTokens(cbrt, text, starts);
    if tokens != [] {
      var rest, tok := tokens[..|tokens|-1], tokens[|tokens|-1];
      assert tokens == rest + [tok];
      assert tok in tokens;
      QueryRange(cbrt, text, starts, rest);
      TokenRange(cbrt, text, starts, tok);
      LastToken(cbrt, text, starts, rest, tok);
    }
  }

  lemma NoTokens(cbrt: real -> real, text: string, starts: seq<bool>)
    requires |starts| == |text|
    ensures Weakest(cbrt, text, starts, []) == WordPrefix && Total(cbrt, text, starts, []) == 0.0
  {
  }

  lemma LastToken(cbrt: real -> real, text: string, starts: seq<bool>, rest: seq<string>, tok: string)
    requires |starts| == |text|
    ensures var w, v, t := Weakest(cbrt, text, starts, rest + [tok]), Weakest(cbrt, text, starts, rest), TierOfToken(cbrt, text, starts, tok);
            && (w == v || w == t) && Level(w) <= Level(v) && Level(w) <= Level(t) && (rest == [] ==> w == t)
    ensures Total(cbrt, text, starts, rest + [tok]) == Total(cbrt, text, starts, rest) + ScoreOfToken(cbrt, text, starts, tok)
  {
    hide TierOfToken, ScoreOfToken;
    assert (rest + [tok])[..|rest|] == rest;
    assert forall t: Tier :: Level(t) == 3 ==> t == WordPrefix;
  }

  lemma {:induction false} TotalSplit(cbrt: real -> real, text: string, starts: seq<bool>, a: seq<string>, t: string, b: seq<string>)
    requires |starts| == |text|
    ensures Total(cbrt, text, starts, a + [t] + b) == Total(cbrt, text, starts, a + b) + ScoreOfToken(cbrt, text, starts, t)
  {
    hide ScoreOfToken;
    if b == [] {
      assert (a + [t] + b)[..|a|] == a && a + b == a;
    } else {
      var c, x := b[..|b|-1], b[|b|-1];
      TotalSplit(cbrt, text, starts, a, t, c);
      assert (a + [t] + b)[..|a|+|b|] == a + [t] + c && (a + b)[..|a|+|c|] == a + c;
    }
  }

  lemma TotalSnoc(cbrt: real -> real, text: string, starts: seq<bool>, a: seq<string>, t: string)
    requires |starts| == |text|
    ensures Total(cbrt, text, starts, a + [t]) == Total(cbrt, text, starts, a) + ScoreOfToken(cbrt, text, starts, t)
  {
    assert (a + [t])[..|a|] == a;
  }

  lemma TakeOut(rest: seq<string>, t: string, b: seq<string>) returns (i: nat)
    requires multiset(rest + [t]) == multiset(b)
    ensures i < |b| && b == b[..i] + [t] + b[i+1..] && multiset(rest) == multiset(b[..i] + b[i+1..])
  {
    assert t in multiset(rest + [t]);
    assert t in b;
    i :| 0 <= i < |b| && b[i] == t;
    assert b == b[..i] + [t] + b[i+1..];
    assert multiset(b) == multiset(b[..i] + [t]) + multiset(b[i+1..]);
    assert multiset(rest) == multiset(rest + [t]) - multiset{t};
  }

  lemma {:induction false} TotalPermutes(cbrt: real -> real, text: string, starts: seq<bool>, a: seq<string>, b: seq<string>)
    requires |starts| == |text| && multiset(a) == multiset(b)
    ensures Total(cbrt, text, starts, a) == Total(cbrt, text, starts, b)
  {
    hide ScoreOfToken, Total;
    if a == [] {
      assert |multiset(b)| == |b|;
    } else {
      var rest, t := a[..|a|-1], a[|a|-1];
      assert a == rest + [t];
      var i := TakeOut(rest, t, b);
      TotalSplit(cbrt, text, starts, b[..i], t, b[i+1..]);
      TotalSnoc(cbrt, text, starts, rest, t);
      TotalPermutes(cbrt, text, starts, rest, b[..i] + b[i+1..]);
    }
  }

  /** The order of the query's tokens changes neither whether a command matches, nor its tier, nor its
      score. */
  lemma TokenOrderIrrelevant(cbrt: real -> real, text: string, starts: seq<bool>, a: seq<string>, b: seq<string>)
    requires IsCubeRoot(cbrt) && |starts| == |text| && multiset(a) == multiset(b)
    ensures QueryMatch(cbrt, text, starts, a) == QueryMatch(cbrt, text, starts, b)
  {
    hide IsCubeRoot, TokenMatch, TierOfToken, Weakest, Total;
    assert |multiset(a)| == |a| && |multiset(b)| == |b|;
    assert forall t :: (t in a <==> t in multiset(a)) && (t in b <==> t in multiset(b));
    TotalPermutes(cbrt, text, starts, a, b);
    if a != [] && AllMatch(cbrt, text, starts, a) {
      QueryRange(cbrt, text, starts, a);
      QueryRange(cbrt, text, starts, b);
      SameLevel(Weakest(cbrt, text, starts, a), Weakest(cbrt, text, starts, b));
    }
  }

  lemma SameLevel(a: Tier, b: Tier)
    requires Level(a) == Level(b)
    ensures a == b
  {
  }
}
