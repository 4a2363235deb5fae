/**
  The bot's move selector (src/lib/game/botAI.ts): enumerate the bot's legal
  moves, score them with a heuristic, add noise, sort by noisy score and take
  either the best move or one of the best three.

  The source's `Math.random()` is modelled as a stream `rand` of draws in
  [0, 1), consumed in the order the source draws them: `rand(i)` is the noise
  of the i-th valid move (scaled by 3), `rand(n)` is the draw compared with
  0.7, and `rand(n + 1)` is the draw that picks an index among the top three.
 */
module BotAI {
  import opened GameTypes
  import opened GameRules

  /** The order in which the source visits hands: `['left', 'right']`. */
  const HandOrder: seq<Hand> := [Left, Right]

  /** The draws a `Math.random()` source produces: each in [0, 1). */
  ghost predicate IsRandomStream(rand: nat -> real) {
    forall i: nat :: 0.0 <= rand(i) < 1.0
  }

  // ---------------------------------------------------------------------
  // Enumeration of valid moves

  /**
    The regular moves from bot hand `sourceHand` onto those of the first `k`
    player hands (in `HandOrder`) that hold fingers.
   */
  function MovesFrom(state: GameState, sourceHand: Hand, k: nat): seq<Move>
    requires k <= |HandOrder|
  {
    (if k >= 1 && state.player.left > 0 then [Regular(Bot, sourceHand, Human, Left)] else []) +
    (if k >= 2 && state.player.right > 0 then [Regular(Bot, sourceHand, Human, Right)] else [])
  }

  /** The regular moves from those of the first `i` bot hands that hold fingers. */
  function RegularMoves(state: GameState, i: nat): seq<Move>
    requires i <= |HandOrder|
  {
    (if i >= 1 && state.bot.left > 0 then MovesFrom(state, Left, |HandOrder|) else []) +
    (if i >= 2 && state.bot.right > 0 then MovesFrom(state, Right, |HandOrder|) else [])
  }

  /**
    The bot's split move: its source is the left hand when that hand holds
    fingers and the right hand otherwise; its target is the other hand.
   */
  function BotSplit(state: GameState): Move {
    Split(Bot,
          if state.bot.left > 0 then Left else Right,
          if state.bot.left > 0 then Right else Left)
  }

  /** What `getValidMoves` returns: every regular move, then the split if allowed. */
  function ValidMoves(state: GameState): seq<Move> {
    RegularMoves(state, |HandOrder|) + (if CanSplitHand(state.bot) then [BotSplit(state)] else [])
  }

  /** A regular move of the bot from a hand with fingers onto a player hand with fingers. */
  predicate IsBotRegular(state: GameState, m: Move) {
    m.Regular? && m.sourcePlayer == Bot && m.targetPlayer == Human &&
    state.bot.Get(m.sourceHand) > 0 && state.player.Get(m.targetHand) > 0
  }

  /** Number of a side's hands that hold fingers. */
  function Active(h: HandState): (n: nat)
    ensures n <= 2
    ensures n == 0 <==> !(h.left > 0 || h.right > 0)
  {
    (if h.left > 0 then 1 else 0) + (if h.right > 0 then 1 else 0)
  }

  /** `getValidMoves`: two nested loops pushing regular moves, then the optional split. */
  method GetValidMoves(state: GameState) returns (validMoves: seq<Move>)
    ensures validMoves == ValidMoves(state)
  {
    validMoves := [];
    var botHands := HandOrder;
    var playerHands := HandOrder;

    for i := 0 to |botHands|
      invariant validMoves == RegularMoves(state, i)
    {
      var sourceHand := botHands[i];
      if state.bot.Get(sourceHand) > 0 {
        for j := 0 to |playerHands|
          invariant validMoves == RegularMoves(state, i) + MovesFrom(state, sourceHand, j)
        {
          var targetHand := playerHands[j];
          if state.player.Get(targetHand) > 0 {
            validMoves := validMoves + [Regular(Bot, sourceHand, Human, targetHand)];
          }
        }
      }
    }

    if CanSplitHand(state.bot) {
      validMoves := validMoves + [Split(Bot,
                                        if state.bot.left > 0 then Left else Right,
                                        if state.bot.left > 0 then Right else Left)];
    }
  }

  /**
    Every valid move is a bot regular move between hands that hold fingers, or
    the bot's split; every such regular move is listed, and the split is listed
    exactly when the bot may split.
   */
  lemma ValidMovesMembers(state: GameState, m: Move)
    ensures m in ValidMoves(state) <==>
              IsBotRegular(state, m) || (m == BotSplit(state) && CanSplitHand(state.bot))
  {
  }

  /**
    The bot's split names two different hands: the source is the left hand
    exactly when the left hand holds fingers, and for hands in range the
    target is an empty hand.
   */
  lemma ValidMovesSplitShape(state: GameState, m: Move)
    requires m in ValidMoves(state) && m.Split?
    ensures m.player == Bot && m.sourceHand != m.targetHand
    ensures m.sourceHand == Left <==> state.bot.left > 0
    ensures ValidHand(state.bot) ==> state.bot.Get(m.targetHand) == 0
  {
    ValidMovesMembers(state, m);
  }

  /**
    There are (bot hands with fingers) x (player hands with fingers) regular
    moves, the split comes last exactly when the bot may split, and so there
    are at most five moves.
   */
  lemma ValidMovesCount(state: GameState)
    ensures |ValidMoves(state)| == Active(state.bot) * Active(state.player) + (if CanSplitHand(state.bot) then 1 else 0)
    ensures |ValidMoves(state)| <= 5
    ensures |ValidMoves(state)| > 0 ==>
              (ValidMoves(state)[|ValidMoves(state)| - 1].Split? <==> CanSplitHand(state.bot))
    ensures forall k :: 0 <= k < |ValidMoves(state)| && ValidMoves(state)[k].Split? ==>
              k == |ValidMoves(state)| - 1
  {
  }

  /** When both sides have a hand with fingers, the bot has a move. */
  lemma ValidMovesNonEmpty(state: GameState)
    requires state.bot.left > 0 || state.bot.right > 0
    requires state.player.left > 0 || state.player.right > 0
    ensures |ValidMoves(state)| > 0
  {
    ValidMovesCount(state);
  }

  // ---------------------------------------------------------------------
  // Scoring

  /**
    `evaluateMove`. A regular move scores 10 if it empties the target hand,
    5 if it leaves the player's total odd, and loses 3 if the bot's source hand
    holds one finger; a split scores 7, or 2 when a player hand holds 4. The
    source reads the bot's source hand and the player's target hand whatever
    sides the move names.
   */
  function EvaluateMove(state: GameState, move: Move): (score: int)
    ensures move.Regular? ==>
              var after := AfterMove(state, Bot, move.sourceHand, Human, move.targetHand);
              score == (if after.player.Get(move.targetHand) == 0 then 10 else 0)
                     + (if after.player.Total() % 2 != 0 then 5 else 0)
                     - (if state.bot.Get(move.sourceHand) == 1 then 3 else 0)
    ensures move.Split? ==> score == if state.player.left == 4 || state.player.right == 4 then 2 else 7
    ensures -3 <= score <= 15
  {
    match move
    case Regular(_, sourceHand, _, targetHand) =>
      var targetValue := state.player.Get(targetHand);
      var sourceValue := state.bot.Get(sourceHand);
      var newValue := JsRem(targetValue + sourceValue, 5);
      var eliminate := if newValue == 0 then 10 else 0;
      var parity := if JsRem(state.player.left + state.player.right + newValue - targetValue, 2) != 0 then 5 else 0;
      var exposed := if sourceValue == 1 then 3 else 0;
      eliminate + parity - exposed
    case Split(_, _, _) =>
      7 - (if state.player.left == 4 || state.player.right == 4 then 5 else 0)
  }

  // ---------------------------------------------------------------------
  // Sorting by noisy score

  /** A move with its noisy score (an element of `scoredMoves`). */
  datatype ScoredMove = ScoredMove(move: Move, score: real)

  /**
    `validMoves.map(...)`: each move keeps its place and gets its score plus 3
    times its own noise draw, so a draw in [0, 1) adds less than 3 points.
   */
  function Scored(state: GameState, moves: seq<Move>, rand: nat -> real): (r: seq<ScoredMove>)
    ensures |r| == |moves|
    ensures forall i :: 0 <= i < |r| ==> r[i].move == moves[i]
    ensures IsRandomStream(rand) ==>
              forall i :: 0 <= i < |r| ==>
                EvaluateMove(state, moves[i]) as real <= r[i].score < EvaluateMove(state, moves[i]) as real + 3.0
  {
    seq(|moves|, i requires 0 <= i < |moves| =>
      ScoredMove(moves[i], EvaluateMove(state, moves[i]) as real + rand(i) * 3.0))
  }

  /** The noisy candidates the bot chooses among. */
  function Candidates(state: GameState, rand: nat -> real): (r: seq<ScoredMove>)
    ensures |r| == |ValidMoves(state)|
    ensures forall i :: 0 <= i < |r| ==> r[i].move == ValidMoves(state)[i]
    ensures IsRandomStream(rand) ==>
              forall i :: 0 <= i < |r| ==> -3.0 <= r[i].score < 18.0
  {
    Scored(state, ValidMoves(state), rand)
  }

  /** Scores never increase along the sequence. */
  predicate NonIncreasing(s: seq<ScoredMove>) {
    forall i, j :: 0 <= i < j < |s| ==> s[i].score >= s[j].score
  }

  /**
    Inserts `x` behind the trailing entries that score less than it, so that
    it lands after every entry of equal score (entries keep their order).
   */
  function InsertDesc(s: seq<ScoredMove>, x: ScoredMove): (r: seq<ScoredMove>)
    ensures |r| == |s| + 1
  {
    if s == [] || s[|s| - 1].score >= x.score then s + [x]
    else InsertDesc(s[..|s| - 1], x) + [s[|s| - 1]]
  }

  /**
    The stable descending sort of `scoredMoves.sort((a, b) => b.score - a.score)`:
    each entry in turn is inserted into the sorted prefix before it.
   */
  function SortDesc(s: seq<ScoredMove>): (r: seq<ScoredMove>)
    ensures |r| == |s|
  {
    if s == [] then []
    else InsertDesc(SortDesc(s[..|s| - 1]), s[|s| - 1])
  }

  /** Inserting keeps a non-increasing sequence non-increasing. */
  lemma {:induction false} InsertDescSorted(s: seq<ScoredMove>, x: ScoredMove)
    requires NonIncreasing(s)
    ensures NonIncreasing(InsertDesc(s, x))
    ensures var r := InsertDesc(s, x); r[|r| - 1] == x || (s != [] && r[|r| - 1] == s[|s| - 1])
  {
    if s != [] && s[|s| - 1].score < x.score {
      var init, last := s[..|s| - 1], s[|s| - 1];
      InsertDescSorted(init, x);
      var r := InsertDesc(init, x);
      assert r[|r| - 1].score >= last.score;
    }
  }

  /** Inserting adds exactly `x`. */
  lemma {:induction false} InsertDescPermutes(s: seq<ScoredMove>, x: ScoredMove)
    ensures multiset(InsertDesc(s, x)) == multiset(s) + multiset{x}
  {
    if s != [] && s[|s| - 1].score < x.score {
      var init, last := s[..|s| - 1], s[|s| - 1];
      assert s == init + [last];
      InsertDescPermutes(init, x);
    }
  }

  /** The sorted list is in non-increasing score order. */
  lemma {:induction false} SortDescSorted(s: seq<ScoredMove>)
    ensures NonIncreasing(SortDesc(s))
  {
    if s != [] {
      SortDescSorted(s[..|s| - 1]);
      InsertDescSorted(SortDesc(s[..|s| - 1]), s[|s| - 1]);
    }
  }

  /** The sorted list is a permutation of the scored moves. */
  lemma {:induction false} SortDescPermutes(s: seq<ScoredMove>)
    ensures multiset(SortDesc(s)) == multiset(s)
  {
    if s != [] {
      var init, last := s[..|s| - 1], s[|s| - 1];
      assert s == init + [last];
      SortDescPermutes(init);
      InsertDescPermutes(SortDesc(init), last);
    }
  }

  /** The in-place sort: a stable insertion sort, equal to `SortDesc`. */
  method SortByScore(a: array<ScoredMove>)
    modifies a
    ensures a[..] == SortDesc(old(a[..]))
    ensures NonIncreasing(a[..]) && multiset(a[..]) == multiset(old(a[..]))
  {
    ghost var input := a[..];
    for i := 0 to a.Length
      invariant SortedUpTo(a[..], input, i)
    {
      InsertionStart(a[..], input, i);
      var j := i;
      while j > 0 && a[j - 1].score < a[j].score
        invariant Inserting(a[..], input, i, j)
      {
        InsertionStep(a[..], input, i, j);
        a[j - 1], a[j] := a[j], a[j - 1];
        j := j - 1;
      }
      InsertionStop(a[..], input, i, j);
    }
    assert input[..a.Length] == input;
    SortDescSorted(input);
    SortDescPermutes(input);
  }

  /** Outer loop of the sort: the first `i` entries are `input`'s first `i`, sorted. */
  ghost predicate SortedUpTo(s: seq<ScoredMove>, input: seq<ScoredMove>, i: nat) {
    i <= |s| == |input| && s[..i] == SortDesc(input[..i]) && s[i..] == input[i..]
  }

  /**
    Inner loop of the sort: `input[i]` sits at `j` and is moving left; the
    others of the first `i + 1` entries are `input`'s first `i`, sorted.
   */
  ghost predicate Inserting(s: seq<ScoredMove>, input: seq<ScoredMove>, i: nat, j: nat) {
    j <= i < |s| == |input| &&
    s[j] == input[i] && s[i + 1..] == input[i + 1..] &&
    s[..j] + s[j + 1..i + 1] == SortDesc(input[..i]) &&
    InsertDesc(SortDesc(input[..i]), input[i]) == InsertDesc(s[..j], input[i]) + s[j + 1..i + 1]
  }

  lemma InsertionStart(s: seq<ScoredMove>, input: seq<ScoredMove>, i: nat)
    requires SortedUpTo(s, input, i) && i < |s|
    ensures Inserting(s, input, i, i)
  {
  }

  lemma InsertionStep(s: seq<ScoredMove>, input: seq<ScoredMove>, i: nat, j: nat)
    requires Inserting(s, input, i, j) && j > 0 && s[j - 1].score < s[j].score
    ensures Inserting(s[j - 1 := s[j]][j := s[j - 1]], input, i, j - 1)
  {
    var t := s[j - 1 := s[j]][j := s[j - 1]];
    assert t[..j - 1] == s[..j - 1];
    assert t[j..i + 1] == [s[j - 1]] + s[j + 1..i + 1];
    assert t[i + 1..] == s[i + 1..];
    assert s[..j] == s[..j - 1] + [s[j - 1]];
    assert s[..j][..j - 1] == s[..j - 1];
    assert InsertDesc(s[..j], input[i]) == InsertDesc(s[..j - 1], input[i]) + [s[j - 1]];
    assert t[..j - 1] + t[j..i + 1] == s[..j] + s[j + 1..i + 1];
  }

  lemma InsertionStop(s: seq<ScoredMove>, input: seq<ScoredMove>, i: nat, j: nat)
    requires Inserting(s, input, i, j) && (j == 0 || s[j - 1].score >= s[j].score)
    ensures SortedUpTo(s, input, i + 1)
  {
    var x := input[i];
    assert InsertDesc(s[..j], x) == s[..j] + [x];
    assert s[..i + 1] == s[..j] + [x] + s[j + 1..i + 1];
    assert input[..i + 1][..i] == input[..i] && input[..i + 1][i] == x;
  }

  // ---------------------------------------------------------------------
  // Selection

  /**
    The index `getBotMove` takes from the sorted list of `n` candidates: 0 when
    the first draw is below 0.7 or there are fewer than three candidates,
    otherwise floor(3 x second draw). It is always one of the top three.
   */
  function ChoiceIndex(n: nat, rand: nat -> real): (k: nat)
    requires IsRandomStream(rand) && n > 0
    ensures k < n && k < 3
    ensures rand(n) < 0.7 || n < 3 ==> k == 0
    ensures !(rand(n) < 0.7 || n < 3) ==> k as real <= rand(n + 1) * 3.0 < k as real + 1.0
  {
    if rand(n) < 0.7 || n < 3 then 0 else (rand(n + 1) * 3.0).Floor
  }

  /**
    What `getBotMove` returns: `NoValidMoves` when the bot has no move;
    otherwise the move at `ChoiceIndex` of the candidates sorted by noisy score,
    which is always one of the valid moves.
   */
  function BotChoice(state: GameState, rand: nat -> real): (r: Result<Move>)
    requires IsRandomStream(rand)
    ensures r.Err? <==> |ValidMoves(state)| == 0
    ensures r.Err? ==> r.error == NoValidMoves
    ensures r.Ok? ==> r.value in ValidMoves(state)
  {
    var n := |ValidMoves(state)|;
    if n == 0 then
      Err(NoValidMoves)
    else
      var chosen := SortDesc(Candidates(state, rand))[ChoiceIndex(n, rand)];
      SortDescPermutes(Candidates(state, rand));
      assert chosen in multiset(Candidates(state, rand));
      Ok(chosen.move)
  }

  /** `getBotMove`: enumerate, score with noise, sort in place, pick. */
  method GetBotMove(state: GameState, rand: nat -> real) returns (r: Result<Move>)
    requires IsRandomStream(rand)
    ensures r == BotChoice(state, rand)
  {
    var validMoves := GetValidMoves(state);
    if |validMoves| == 0 {
      return Err(NoValidMoves);
    }
    var n := |validMoves|;
    var scoredMoves := new ScoredMove[n](i requires 0 <= i < n =>
      ScoredMove(validMoves[i], EvaluateMove(state, validMoves[i]) as real + rand(i) * 3.0));
    assert scoredMoves[..] == Candidates(state, rand);
    SortByScore(scoredMoves);

    var index;
    if rand(n) < 0.7 || n < 3 {
      index := 0;
    } else {
      var randomIndex := (rand(n + 1) * 3.0).Floor;
      index := randomIndex;
    }
    assert index == ChoiceIndex(n, rand);
    r := Ok(scoredMoves[index].move);
  }

  /** Number of entries scoring strictly more than `c`. */
  function CountAbove(s: seq<ScoredMove>, c: real): (n: nat)
    ensures n <= |s|
  {
    if s == [] then 0
    else CountAbove(s[..|s| - 1], c) + (if s[|s| - 1].score > c then 1 else 0)
  }

  lemma {:induction false} CountAboveAppend(s: seq<ScoredMove>, t: seq<ScoredMove>, c: real)
    ensures CountAbove(s + t, c) == CountAbove(s, c) + CountAbove(t, c)
  {
    if t != [] {
      assert (s + t)[..|s + t| - 1] == s + t[..|t| - 1];
      CountAboveAppend(s, t[..|t| - 1], c);
    } else {
      assert s + t == s;
    }
  }

  lemma {:induction false} CountAboveInsert(s: seq<ScoredMove>, x: ScoredMove, c: real)
    ensures CountAbove(InsertDesc(s, x), c) == CountAbove(s, c) + (if x.score > c then 1 else 0)
  {
    if s == [] || s[|s| - 1].score >= x.score {
      CountAboveAppend(s, [x], c);
    } else {
      var init := s[..|s| - 1];
      CountAboveInsert(init, x, c);
      CountAboveAppend(InsertDesc(init, x), [s[|s| - 1]], c);
      CountAboveAppend(init, [s[|s| - 1]], c);
      assert init + [s[|s| - 1]] == s;
    }
  }

  /** Sorting does not change how many entries score above a bound. */
  lemma {:induction false} CountAboveSort(s: seq<ScoredMove>, c: real)
    ensures CountAbove(SortDesc(s), c) == CountAbove(s, c)
  {
    if s != [] {
      var init := s[..|s| - 1];
      CountAboveSort(init, c);
      CountAboveInsert(SortDesc(init), s[|s| - 1], c);
      CountAboveAppend(init, [s[|s| - 1]], c);
      assert init + [s[|s| - 1]] == s;
    }
  }

  /** In a non-increasing sequence at most `k` entries score above the one at index `k`. */
  lemma CountAboveSorted(s: seq<ScoredMove>, k: nat)
    requires NonIncreasing(s) && k < |s|
    ensures CountAbove(s, s[k].score) <= k
  {
  }

  /**
    The bot plays a move of maximal noisy score when the first draw is below
    0.7 or fewer than three moves are available.
   */
  lemma BotChoiceGreedy(state: GameState, rand: nat -> real)
    requires IsRandomStream(rand)
    requires |ValidMoves(state)| > 0
    requires rand(|ValidMoves(state)|) < 0.7 || |ValidMoves(state)| < 3
    ensures var cands := Candidates(state, rand);
            exists k :: 0 <= k < |cands| && cands[k].move == BotChoice(state, rand).value &&
                        forall j :: 0 <= j < |cands| ==> cands[j].score <= cands[k].score
  {
    var cands := Candidates(state, rand);
    var sorted := SortDesc(cands);
    var top := sorted[0];
    SortDescSorted(cands);
    SortDescPermutes(cands);
    assert top in multiset(cands);
    var k :| 0 <= k < |cands| && cands[k] == top;
    forall j | 0 <= j < |cands| ensures cands[j].score <= top.score {
      assert cands[j] in multiset(sorted);
      var m :| 0 <= m < |sorted| && sorted[m] == cands[j];
      if m > 0 {
        assert sorted[0].score >= sorted[m].score;
      }
    }
  }

  /**
    Whatever the draws, the bot plays one of its top three candidates: at most
    two candidates score strictly more than the move it plays.
   */
  lemma BotChoiceTopThree(state: GameState, rand: nat -> real)
    requires IsRandomStream(rand)
    requires |ValidMoves(state)| > 0
    ensures var cands := Candidates(state, rand);
            exists k :: 0 <= k < |cands| && cands[k].move == BotChoice(state, rand).value &&
                        CountAbove(cands, cands[k].score) <= 2
  {
    var cands := Candidates(state, rand);
    var n := |cands|;
    var sorted := SortDesc(cands);
    var index := ChoiceIndex(n, rand);
    var chosen := sorted[index];
    assert BotChoice(state, rand).value == chosen.move;
    SortDescSorted(cands);
    SortDescPermutes(cands);
    assert chosen in multiset(cands);
    var k :| 0 <= k < n && cands[k] == chosen;
    CountAboveSorted(sorted, index);
    CountAboveSort(cands, chosen.score);
  }
}
