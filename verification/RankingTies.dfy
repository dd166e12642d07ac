/** Two commands whose full scores tie while their cheap scores do not: for lists of at most 200 the
    two-phase ranking (internal/tui/ranking.go) is then not the full ranking. */
module RankingTies {
  import opened Calendar
  import opened Rows
  import opened CommandStats
  import opened Matcher
  import opened Score
  import opened Ranking
  import Frecency

  /** What the letter classes say about the characters of the example. */
  ghost predicate KnowsAB(letters: Letters) {
    && letters.toLower('a') == 'a' && letters.toLower('b') == 'b' && letters.toLower('B') == 'b'
    && letters.isUpper('B') && !letters.isUpper('a') && !letters.isUpper('b')
  }

  // ------------------------------------------------------------- the statistics

  /** Runs of one command at moment 7, with these exit codes. */
  function Burst(text: string, codes: seq<int>): seq<Row> {
    if codes == [] then []
    else
      var n := |codes| - 1;
      Burst(text, codes[..n])
      + [Row("", text, "", "", "", "", None, "", 7, None, Some(codes[n]), None, if codes[n] == 0 then Completed else Failed,
             0, false, false)]
  }

  function Count(codes: seq<int>, code: int): nat {
    if codes == [] then 0 else Count(codes[..|codes|-1], code) + if codes[|codes|-1] == code then 1 else 0
  }

  function BurstStat(codes: seq<int>): Stat {
    if codes == [] then Stat(0, 0, 0.0, 0, 0, 0, 0, 0, 0, 0, 0)
    else Stat(|codes|, 7, 1.0, 7, Count(codes, 0), Count(codes, 1), 0, 0, 0, 0, if Count(codes, 1) > 0 then 7 else 0)
  }

  lemma {:induction false} BurstObserved(decay: nat -> real, text: string, codes: seq<int>)
    requires Frecency.IsDecay(decay)
    ensures |Burst(text, codes)| == |codes|
    ensures Frecency.Observed(decay, Times(Burst(text, codes))) == if codes == [] then Frecency.FRESH else Frecency.State(1.0, 7, 7)
  {
    hide Frecency.IsDecay, Frecency.Observed, Frecency.After, Times;
    if codes == [] {
      NothingTallied();
      NothingObserved(decay);
    } else {
      var n := |codes| - 1;
      var before := Burst(text, codes[..n]);
      BurstObserved(decay, text, codes[..n]);
      TimesSnoc(before, Burst(text, codes)[|before|]);
      OneMoreRun(decay, Times(before));
    }
  }

  lemma NothingObserved(decay: nat -> real)
    ensures Frecency.Observed(decay, []) == Frecency.FRESH
  {
  }

  lemma OneMoreRun(decay: nat -> real, times: seq<int>)
    requires Frecency.IsDecay(decay)
    requires Frecency.Observed(decay, times) == Frecency.FRESH || Frecency.Observed(decay, times) == Frecency.State(1.0, 7, 7)
    ensures Frecency.Observed(decay, times + [7]) == Frecency.State(1.0, 7, 7)
  {
    hide Frecency.IsDecay;
    Frecency.DecayLaws(decay, 0, 0);
    assert (times + [7])[..|times|] == times;
  }

  /** A burst of successes and failures counts once, however long it is. */
  lemma {:induction false} BurstTally(decay: nat -> real, text: string, codes: seq<int>)
    requires Frecency.IsDecay(decay) && forall i :: 0 <= i < |codes| ==> codes[i] == 0 || codes[i] == 1
    ensures Tally(decay, Burst(text, codes)) == BurstStat(codes)
  {
    hide Frecency.IsDecay, Frecency.Observed, Frecency.Latest, Filter, Times;
    BurstObserved(decay, text, codes);
    BurstObserved(decay, text, codes[..if codes == [] then 0 else |codes| - 1]);
    var rows := Burst(text, codes);
    if codes == [] {
      NothingTallied();
    } else {
      var n := |codes| - 1;
      BurstTally(decay, text, codes[..n]);
      assert rows[..n] == Burst(text, codes[..n]) && rows[..n+1] == rows;
      OneMoreRow(rows, n);
    }
  }

  // ------------------------------------------------------------- the matches

  /** A token that is the whole text matches it as a word. */
  lemma WholeTextMatches(cbrt: real -> real, text: string, starts: seq<bool>)
    requires IsCubeRoot(cbrt) && text != [] && |starts| == |text| && starts[0]
    ensures Placed(starts, Contiguous(0, |text|))
    ensures TokenMatch(cbrt, text, starts, text) == Some(Match(WordPrefix, Rating(cbrt, starts, Contiguous(0, |text|))))
  {
    hide IsCubeRoot, Rating;
    assert text[0..|text|] == text;
    assert FoundAt(0, (k: nat) => PrefixOfWord(text, starts, k, text));
    var pos := Contiguous(0, |text|);
    assert Matches(text, starts, text, WordPrefix, pos);
    VerbatimEmbeds(text, 0, text);
    TokenMatchIs(cbrt, text, starts, text, Some(Match(WordPrefix, Rating(cbrt, starts, pos))), pos);
  }

  /** Two adjacent characters of which the first starts a word. */
  lemma TwoCharacterRating(cbrt: real -> real, second: bool)
    requires IsCubeRoot(cbrt)
    ensures Placed([true, second], Contiguous(0, 2))
    ensures Rating(cbrt, [true, second], Contiguous(0, 2)) == if second then 1.0 else 0.85
  {
    var starts, pos := [true, second], Contiguous(0, 2);
    assert WeightSum(starts, pos, 0) == 0.0;
    assert WeightSum(starts, pos, 1) == 1.0;
    assert WeightSum(starts, pos, 2) == if second then 2.0 else 1.7;
  }

  /** The one-token query "ab" against the commands ab and aB: both begin with it, and the second has a
      word start more. */
  lemma ABMatches(cbrt: real -> real, letters: Letters, command: string)
    requires IsCubeRoot(cbrt) && KnowsAB(letters) && (command == "ab" || command == "aB")
    ensures QueryMatch(cbrt, Folded(letters, command), WordMarks(letters, command), ["ab"])
            == Some(Match(WordPrefix, if command == "aB" then 1.0 else 0.85))
  {
    hide TokenMatch, Rating, IsCubeRoot, QueryMatch;
    var text, starts := Folded(letters, command), WordMarks(letters, command);
    assert text == "ab" && starts == [true, command == "aB"];
    WholeTextMatches(cbrt, text, starts);
    TwoCharacterRating(cbrt, command == "aB");
    OneToken(cbrt, text, starts, "ab");
  }

  /** A query of one token has that token's match. */
  lemma OneToken(cbrt: real -> real, text: string, starts: seq<bool>, tok: string)
    requires |starts| == |text|
    ensures QueryMatch(cbrt, text, starts, [tok]) ==
            match TokenMatch(cbrt, text, starts, tok)
            case None => None
            case Some(m) => Some(Match(if Level(m.tier) < 3 then m.tier else WordPrefix, m.score))
  {
    hide TokenMatch;
    var one := [tok];
    assert one[..0] == [] && forall t :: t in one <==> t == tok;
    assert AllMatch(cbrt, text, starts, one) <==> TokenMatch(cbrt, text, starts, tok).Some?;
    assert Total(cbrt, text, starts, one) == ScoreOfToken(cbrt, text, starts, tok);
    assert Weakest(cbrt, text, starts, one[..0]) == WordPrefix;
    Unity(ScoreOfToken(cbrt, text, starts, tok));
  }

  lemma Unity(x: real)
    ensures x / 1.0 == x
  {
  }

  // ------------------------------------------------------------- the tie

  /** The commands ab, five times successful, and aB, which failed three times out of five, both last run
      long enough ago for no failure to look recent, tie in the full ranking with no context at all;
      the cheap ranking puts aB first, and the list the user sees keeps it there, where a ranking of
      everything in full would have kept ab first. */
  lemma TieCanSwap(s: Setting, stats: seq<Entry>)
    requires ValidSetting(s) && KnowsAB(s.letters) && s.now > 7 + DEBUG_WINDOW
    requires stats == [Entry("ab", Tally(s.decay, Burst("ab", [0, 0, 0, 0, 0]))),
                       Entry("aB", Tally(s.decay, Burst("aB", [0, 0, 1, 1, 1])))]
    ensures var candidates := Candidates(s, stats, ["ab"]);
            TwoPhase(s, map[], candidates) != OnePhase(s, map[], candidates)
  {
    hide IsCubeRoot, IsLog1p, Frecency.IsDecay, QueryMatch, StableSort, Rescored, Burst, Tally, Lift, FrecencyOf;
    BurstTally(s.decay, "ab", [0, 0, 0, 0, 0]);
    BurstTally(s.decay, "aB", [0, 0, 1, 1, 1]);
    BurstStats();
    ABMatches(s.cbrt, s.letters, "ab");
    ABMatches(s.cbrt, s.letters, "aB");
    var x, y := Light(s, stats[0], Match(WordPrefix, 0.85)), Light(s, stats[1], Match(WordPrefix, 1.0));
    assert stats[..1] == [stats[0]] && stats[..1][..0] == [];
    assert Candidates(s, stats[..1], ["ab"]) == [x];
    assert Candidates(s, stats, ["ab"]) == [x, y];
    TiedScores(s, stats[0], stats[1]);
    SmallListsSameIff(s, map[], [x, y]);
    assert Less(KeyOf([x, y][1]), KeyOf([x, y][0]));
    assert KeyOf(Refined(s, map[], [x, y][0])) == KeyOf(Refined(s, map[], [x, y][1]));
  }

  lemma BurstStats()
    ensures BurstStat([0, 0, 0, 0, 0]) == Stat(5, 7, 1.0, 7, 5, 0, 0, 0, 0, 0, 0)
    ensures BurstStat([0, 0, 1, 1, 1]) == Stat(5, 7, 1.0, 7, 2, 3, 0, 0, 0, 0, 7)
  {
    var good, mixed := [0, 0, 0, 0, 0], [0, 0, 1, 1, 1];
    assert good[..4] == [0, 0, 0, 0] && good[..4][..3] == [0, 0, 0] && [0, 0, 0][..2] == [0, 0] && [0, 0][..1] == [0];
    assert Count([0, 0], 0) == 2 && Count([0, 0], 1) == 0;
    assert Count([0, 0, 0], 0) == 3 && Count([0, 0, 0], 1) == 0;
    assert Count([0, 0, 0, 0], 0) == 4 && Count([0, 0, 0, 0], 1) == 0;
    assert [0, 0, 1][..2] == [0, 0] && [0, 0, 1, 1][..3] == [0, 0, 1] && mixed[..4] == [0, 0, 1, 1];
    assert Count([0, 0, 1], 0) == 2 && Count([0, 0, 1], 1) == 1;
    assert Count([0, 0, 1, 1], 0) == 2 && Count([0, 0, 1, 1], 1) == 2;
  }

  lemma TiedScores(s: Setting, weak: Entry, strong: Entry)
    requires ValidSetting(s) && s.now > 7 + DEBUG_WINDOW && weak.command != strong.command
    requires weak.stat == Stat(5, 7, 1.0, 7, 5, 0, 0, 0, 0, 0, 0) && strong.stat == Stat(5, 7, 1.0, 7, 2, 3, 0, 0, 0, 0, 7)
    ensures var x, y := Light(s, weak, Match(WordPrefix, 0.85)), Light(s, strong, Match(WordPrefix, 1.0));
            x.score < y.score && Refined(s, map[], x).score == Refined(s, map[], y).score
  {
    hide IsCubeRoot, IsLog1p, Frecency.IsDecay, Lift, FrecencyOf;
    FrecencyNonNegative(s, weak.stat);
    assert FrecencyOf(s, weak.stat) == FrecencyOf(s, strong.stat) by { SameFrecency(s, weak.stat, strong.stat); }
    LiftAtLeastOne(s.log1p, FrecencyOf(s, weak.stat));
    assert FailureRate(weak.stat) == 0.0 && FailureRate(strong.stat) == 0.6;
    assert Multiplier(ContextFor(weak.stat, NOWHERE, s.now)) == 1.0;
    assert Multiplier(ContextFor(strong.stat, NOWHERE, s.now)) == 0.85;
    assert Multiplier(NO_CONTEXT) == 1.0;
  }

  lemma SameFrecency(s: Setting, a: Stat, b: Stat)
    requires a.weight == b.weight && a.weightAt == b.weightAt
    ensures FrecencyOf(s, a) == FrecencyOf(s, b)
  {
  }
}
