/**
  A game between two fresh players over a number of turns. In each turn
  both players decide before either records, so each move depends only on
  the opponent's earlier moves. `Moves` is that process as a pure function;
  the `Game` class runs it on two `Player` objects and is proved to follow it.
 */
module Games {
  import opened Payoffs
  import opened Players

  /** The number of turns a game is played for unless told otherwise. */
  const DefaultTurns: int := 10

  /** The number of turns a requested turn count runs: none when it is negative. */
  function Turns(numTurns: int): (n: nat)
    ensures numTurns >= 0 ==> n == numTurns
    ensures numTurns < 0 ==> n == 0
  {
    if numTurns < 0 then 0 else numTurns
  }

  /** The two players' own moves after `n` turns of `k1` against `k2`. */
  function Moves(k1: Kind, k2: Kind, n: nat): (h: (seq<bool>, seq<bool>))
    ensures |h.0| == n && |h.1| == n
  {
    if n == 0 then ([], [])
    else
      var before := Moves(k1, k2, n - 1);
      (before.0 + [NextMove(k1, before.1)], before.1 + [NextMove(k2, before.0)])
  }

  /** One player's view of a game: its own moves and the opponent's. */
  datatype History = History(own: seq<bool>, other: seq<bool>)

  /** Both final scores and both players' histories. */
  datatype GameResult = GameResult(scores: (int, int), histories: (History, History))

  /** The result of a fresh game of `k1` against `k2` for `numTurns` turns. */
  function Play(k1: Kind, k2: Kind, numTurns: int): (r: GameResult)
    ensures |r.histories.0.own| == Turns(numTurns) == |r.histories.1.own|
  {
    var h := Moves(k1, k2, Turns(numTurns));
    GameResult((TotalPayoff(h.0, h.1), TotalPayoff(h.1, h.0)), (History(h.0, h.1), History(h.1, h.0)))
  }

  /** The scores of a game are the total payoffs of the two move lists it produces. */
  lemma PlayScores(k1: Kind, k2: Kind, n: nat, own: seq<bool>, other: seq<bool>)
    requires Moves(k1, k2, n) == (own, other)
    ensures Play(k1, k2, n).scores == (TotalPayoff(own, other), TotalPayoff(other, own))
  {
  }

  /** A game's result is made of the two move lists it produces and their total payoffs. */
  lemma PlayResult(k1: Kind, k2: Kind, numTurns: int, own: seq<bool>, other: seq<bool>)
    requires Moves(k1, k2, Turns(numTurns)) == (own, other)
    ensures Play(k1, k2, numTurns) ==
            GameResult((TotalPayoff(own, other), TotalPayoff(other, own)), (History(own, other), History(other, own)))
  {
  }

  /** A longer game starts with the moves of a shorter one. */
  lemma {:induction false} MovesPrefix(k1: Kind, k2: Kind, m: nat, n: nat)
    requires m <= n
    ensures Moves(k1, k2, n).0[..m] == Moves(k1, k2, m).0
    ensures Moves(k1, k2, n).1[..m] == Moves(k1, k2, m).1
  {
    if m < n {
      MovesPrefix(k1, k2, m, n - 1);
      var (a, b) := Moves(k1, k2, n - 1);
      assert (a + [NextMove(k1, b)])[..m] == a[..m];
      assert (b + [NextMove(k2, a)])[..m] == b[..m];
    }
  }

  /** Simultaneous moves: each player's move in turn `i` is its strategy applied to the
      opponent's moves of the turns before `i`, and to nothing of turn `i` itself. */
  lemma MovesSimultaneous(k1: Kind, k2: Kind, n: nat, i: nat)
    requires i < n
    ensures Moves(k1, k2, n).0[i] == NextMove(k1, Moves(k1, k2, n).1[..i])
    ensures Moves(k1, k2, n).1[i] == NextMove(k2, Moves(k1, k2, n).0[..i])
  {
    MovesPrefix(k1, k2, i + 1, n);
    MovesPrefix(k1, k2, i, n);
    assert Moves(k1, k2, n).0[i] == Moves(k1, k2, n).0[..i + 1][i];
    assert Moves(k1, k2, n).1[i] == Moves(k1, k2, n).1[..i + 1][i];
  }

  /** Swapping the players' seats swaps their move sequences. */
  lemma {:induction false} MovesSwap(k1: Kind, k2: Kind, n: nat)
    ensures Moves(k2, k1, n) == (Moves(k1, k2, n).1, Moves(k1, k2, n).0)
  {
    if n > 0 {
      MovesSwap(k1, k2, n - 1);
    }
  }

  /** Swapping the players' seats swaps their scores. */
  lemma PlaySwap(k1: Kind, k2: Kind, numTurns: int)
    ensures Play(k2, k1, numTurns).scores == (Play(k1, k2, numTurns).scores.1, Play(k1, k2, numTurns).scores.0)
  {
    MovesSwap(k1, k2, Turns(numTurns));
  }

  /** A strategy played against itself makes the same moves in both seats. */
  lemma {:induction false} MovesSelf(k: Kind, n: nat)
    ensures Moves(k, k, n).0 == Moves(k, k, n).1
  {
    if n > 0 {
      MovesSelf(k, n - 1);
    }
  }

  /** A strategy played against itself scores the same in both seats. */
  lemma PlaySelf(k: Kind, numTurns: int)
    ensures Play(k, k, numTurns).scores.0 == Play(k, k, numTurns).scores.1
    ensures Play(k, k, numTurns).histories.0 == Play(k, k, numTurns).histories.1
  {
    MovesSelf(k, Turns(numTurns));
  }

  /** Detective's first four moves are its opening, whatever the opponent plays. */
  lemma DetectiveOpens(k2: Kind, n: nat)
    requires n >= |Opening|
    ensures Moves(Detective, k2, n).0[..|Opening|] == Opening
  {
    forall i | 0 <= i < |Opening|
      ensures Moves(Detective, k2, n).0[i] == Opening[i]
    {
      MovesSimultaneous(Detective, k2, n, i);
    }
  }

  /** In a game, Grudge cooperates in turn `i` exactly when the opponent cooperated in every
      turn before `i`. */
  lemma GrudgeRule(k2: Kind, n: nat, i: nat)
    requires i < n
    ensures Moves(Grudge, k2, n).0[i] <==> forall j :: 0 <= j < i ==> Moves(Grudge, k2, n).1[j]
  {
    var other := Moves(Grudge, k2, n).1;
    MovesSimultaneous(Grudge, k2, n, i);
    assert forall j :: 0 <= j < i ==> other[..i][j] == other[j];
  }

  /** In a game, once its opening is over, Detective cooperates in turn `i` exactly when the
      opponent defected in some earlier turn and cooperated in turn `i - 1`. */
  lemma DetectiveRule(k2: Kind, n: nat, i: nat)
    requires |Opening| <= i < n
    ensures Moves(Detective, k2, n).0[i] <==>
              (exists j :: 0 <= j < i && !Moves(Detective, k2, n).1[j]) && Moves(Detective, k2, n).1[i - 1]
  {
    var other := Moves(Detective, k2, n).1;
    MovesSimultaneous(Detective, k2, n, i);
    assert forall j :: 0 <= j < i ==> other[..i][j] == other[j];
  }

  /** `n` recorded turns become `n + 1` by appending the moves chosen from the first `n`. */
  lemma MovesStep(k1: Kind, k2: Kind, n: nat)
    ensures Moves(k1, k2, n + 1).0 == Moves(k1, k2, n).0 + [NextMove(k1, Moves(k1, k2, n).1)]
    ensures Moves(k1, k2, n + 1).1 == Moves(k1, k2, n).1 + [NextMove(k2, Moves(k1, k2, n).0)]
  {
  }

  /** The strategies' moves extend a game's move lists by one turn. */
  lemma MovesNext(k1: Kind, k2: Kind, before: (seq<bool>, seq<bool>), move1: bool, move2: bool)
    requires before == Moves(k1, k2, |before.0|)
    requires move1 == NextMove(k1, before.1) && move2 == NextMove(k2, before.0)
    ensures (before.0 + [move1], before.1 + [move2]) == Moves(k1, k2, |before.0| + 1)
  {
    MovesStep(k1, k2, |before.0|);
  }

  /** Good against Good: both cooperate every turn. */
  lemma {:induction false} GoodVsGoodMoves(n: nat)
    ensures Moves(Good, Good, n) == (Repeat(true, n), Repeat(true, n))
  {
    if n > 0 {
      GoodVsGoodMoves(n - 1);
      MovesStep(Good, Good, n - 1);
      RepeatSnoc(true, n - 1);
    }
  }

  /** Good against Good: both score 5 a turn. */
  lemma GoodVsGood(n: nat)
    ensures Play(Good, Good, n).scores == (5 * n, 5 * n)
  {
    var all := Repeat(true, n);
    assert Play(Good, Good, n).scores == (TotalPayoff(all, all), TotalPayoff(all, all)) by {
      GoodVsGoodMoves(n);
      PlayScores(Good, Good, n, all, all);
    }
    TotalPayoffRepeat(true, true, n);
  }

  /** Bad against Bad: both defect every turn. */
  lemma {:induction false} BadVsBadMoves(n: nat)
    ensures Moves(Bad, Bad, n) == (Repeat(false, n), Repeat(false, n))
  {
    if n > 0 {
      BadVsBadMoves(n - 1);
      MovesStep(Bad, Bad, n - 1);
      RepeatSnoc(false, n - 1);
    }
  }

  /** Bad against Bad: both score -5 a turn. */
  lemma BadVsBad(n: nat)
    ensures Play(Bad, Bad, n).scores == (-5 * n, -5 * n)
  {
    var all := Repeat(false, n);
    assert Play(Bad, Bad, n).scores == (TotalPayoff(all, all), TotalPayoff(all, all)) by {
      BadVsBadMoves(n);
      PlayScores(Bad, Bad, n, all, all);
    }
    TotalPayoffRepeat(false, false, n);
  }

  /** Copycat against Bad: Copycat cooperates once and then copies the defections. */
  lemma {:induction false} CopycatVsBadMoves(n: nat)
    requires n >= 1
    ensures Moves(Copycat, Bad, n) == ([true] + Repeat(false, n - 1), Repeat(false, n))
  {
    if n > 1 {
      CopycatVsBadMoves(n - 1);
      MovesStep(Copycat, Bad, n - 1);
      RepeatSnoc(false, n - 2);
      RepeatSnoc(false, n - 1);
      assert Last(Repeat(false, n - 1)) == false;
      assert [true] + Repeat(false, n - 2) + [false] == [true] + Repeat(false, n - 1);
    } else {
      assert Moves(Copycat, Bad, 0) == ([], []);
      MovesStep(Copycat, Bad, 0);
      assert Moves(Copycat, Bad, 1).0 == [true] && Moves(Copycat, Bad, 1).1 == [false];
      assert [true] + Repeat(false, 0) == [true] && Repeat(false, 1) == [false];
    }
  }

  /** The totals of Copycat's line against Bad's: 10 lost and won in the first round, then
      5 lost by each side a round. */
  lemma CopycatVsBadTotals(n: nat)
    requires n >= 1
    ensures TotalPayoff([true] + Repeat(false, n - 1), [false] + Repeat(false, n - 1)) == -10 - 5 * (n - 1)
    ensures TotalPayoff([false] + Repeat(false, n - 1), [true] + Repeat(false, n - 1)) == 10 - 5 * (n - 1)
  {
    var rest := Repeat(false, n - 1);
    TotalPayoffRepeat(false, false, n - 1);
    TotalPayoffAppend([], [], true, false);
    TotalPayoffAppend([], [], false, true);
    TotalPayoffConcat([true], [false], rest, rest);
    TotalPayoffConcat([false], [true], rest, rest);
  }

  /** Copycat against Bad: Copycat loses 10 in the first turn and 5 in each later one;
      Bad wins 10 and then loses 5 a turn. */
  lemma CopycatVsBad(n: nat)
    requires n >= 1
    ensures Play(Copycat, Bad, n).scores == (-10 - 5 * (n - 1), 10 - 5 * (n - 1))
  {
    var copycat, bad := [true] + Repeat(false, n - 1), [false] + Repeat(false, n - 1);
    assert Play(Copycat, Bad, n).scores == (TotalPayoff(copycat, bad), TotalPayoff(bad, copycat)) by {
      CopycatVsBadMoves(n);
      RepeatSnoc(false, n - 1);
      PlayScores(Copycat, Bad, n, copycat, bad);
    }
    CopycatVsBadTotals(n);
  }

  /** Detective's own moves over `n` turns against a strategy that never varies its move. */
  function DetectiveLine(n: nat): (s: seq<bool>)
    ensures |s| == n
  {
    if n <= |Opening| then Opening[..n] else Opening + Repeat(false, n - |Opening|)
  }

  lemma DetectiveLineStep(n: nat)
    requires n > 0
    ensures DetectiveLine(n) == DetectiveLine(n - 1) + [if n <= |Opening| then Opening[n - 1] else false]
  {
    if n > |Opening| + 1 {
      RepeatSnoc(false, n - 1 - |Opening|);
    }
  }

  /** The payoffs of the four opening rounds against an opponent who always cooperates or always defects. */
  lemma OpeningTotals()
    ensures TotalPayoff(Opening, Repeat(true, 4)) == 25 && TotalPayoff(Repeat(true, 4), Opening) == 5
    ensures TotalPayoff(Opening, Repeat(false, 4)) == -35 && TotalPayoff(Repeat(false, 4), Opening) == 25
  {
    forall c: bool
      ensures TotalPayoff(Opening, Repeat(c, 4)) == Payoff(true, c) + Payoff(false, c) + 2 * Payoff(true, c)
      ensures TotalPayoff(Repeat(c, 4), Opening) == Payoff(c, true) + Payoff(c, false) + 2 * Payoff(c, true)
    {
      assert Repeat(c, 4) == [] + [c] + [c] + [c] + [c];
      assert Opening == [] + [true] + [false] + [true] + [true];
      TotalPayoffAppend([], [], true, c);
      TotalPayoffAppend([true], [c], false, c);
      TotalPayoffAppend([true, false], [c, c], true, c);
      TotalPayoffAppend([true, false, true], [c, c, c], true, c);
      TotalPayoffAppend([], [], c, true);
      TotalPayoffAppend([c], [true], c, false);
      TotalPayoffAppend([c, c], [true, false], c, true);
      TotalPayoffAppend([c, c, c], [true, false, true], c, true);
    }
  }

  /** Detective against Good: Good never defects, so after the opening Detective defects for good. */
  lemma {:induction false} DetectiveVsGoodMoves(n: nat)
    ensures Moves(Detective, Good, n) == (DetectiveLine(n), Repeat(true, n))
  {
    if n > 0 {
      DetectiveVsGoodMoves(n - 1);
      MovesStep(Detective, Good, n - 1);
      RepeatSnoc(true, n - 1);
      DetectiveLineStep(n);
    }
  }

  /** The totals of Detective's line against Good's: the opening scores 25 to 5, and each
      later round 10 to -10. */
  lemma DetectiveVsGoodTotals(n: nat)
    requires n >= 4
    ensures TotalPayoff(Opening + Repeat(false, n - 4), Repeat(true, n)) == 25 + 10 * (n - 4)
    ensures TotalPayoff(Repeat(true, n), Opening + Repeat(false, n - 4)) == 5 - 10 * (n - 4)
  {
    var after, always := Repeat(false, n - 4), Repeat(true, n - 4);
    RepeatConcat(true, 4, n - 4);
    OpeningTotals();
    TotalPayoffRepeat(false, true, n - 4);
    TotalPayoffRepeat(true, false, n - 4);
    TotalPayoffConcat(Opening, Repeat(true, 4), after, always);
    TotalPayoffConcat(Repeat(true, 4), Opening, always, after);
  }

  /** Detective against Good: the opening scores 25 to 5, and each later turn 10 to -10. */
  lemma DetectiveVsGood(n: nat)
    requires n >= 4
    ensures Play(Detective, Good, n).scores == (25 + 10 * (n - 4), 5 - 10 * (n - 4))
  {
    var line, good := Opening + Repeat(false, n - 4), Repeat(true, n);
    assert Play(Detective, Good, n).scores == (TotalPayoff(line, good), TotalPayoff(good, line)) by {
      DetectiveVsGoodMoves(n);
      assert Opening[..4] == Opening + Repeat(false, 0);
      PlayScores(Detective, Good, n, line, good);
    }
    DetectiveVsGoodTotals(n);
  }

  /** Detective against Bad: Bad defects in the opening, so afterwards Detective mirrors its defections. */
  lemma {:induction false} DetectiveVsBadMoves(n: nat)
    ensures Moves(Detective, Bad, n) == (DetectiveLine(n), Repeat(false, n))
  {
    if n > 0 {
      var line, bad := DetectiveLine(n - 1), Repeat(false, n - 1);
      var move := if n <= |Opening| then Opening[n - 1] else false;
      assert NextMove(Detective, bad) == move by {
        if n - 1 >= |Opening| {
          assert bad[0] == false;
        }
      }
      DetectiveVsBadMoves(n - 1);
      MovesNext(Detective, Bad, (line, bad), move, false);
      DetectiveLineStep(n);
      RepeatSnoc(false, n - 1);
    }
  }

  /** The totals of Detective's line against Bad's: the opening scores -35 to 25, and each
      later round -5 to -5. */
  lemma DetectiveVsBadTotals(n: nat)
    requires n >= 4
    ensures TotalPayoff(Opening + Repeat(false, n - 4), Repeat(false, n)) == -35 - 5 * (n - 4)
    ensures TotalPayoff(Repeat(false, n), Opening + Repeat(false, n - 4)) == 25 - 5 * (n - 4)
  {
    var after := Repeat(false, n - 4);
    RepeatConcat(false, 4, n - 4);
    OpeningTotals();
    TotalPayoffRepeat(false, false, n - 4);
    TotalPayoffConcat(Opening, Repeat(false, 4), after, after);
    TotalPayoffConcat(Repeat(false, 4), Opening, after, after);
  }

  /** Detective's line against Bad once the opening is over. */
  lemma DetectiveVsBadLine(n: nat)
    requires n >= 4
    ensures Moves(Detective, Bad, n) == (Opening + Repeat(false, n - 4), Repeat(false, n))
  {
    DetectiveVsBadMoves(n);
    assert Opening[..4] == Opening + Repeat(false, 0);
  }

  /** Detective against Bad: the opening scores -35 to 25, and each later turn -5 to -5. */
  lemma DetectiveVsBad(n: nat)
    requires n >= 4
    ensures Play(Detective, Bad, n).scores == (-35 - 5 * (n - 4), 25 - 5 * (n - 4))
  {
    var line, bad := Opening + Repeat(false, n - 4), Repeat(false, n);
    assert Play(Detective, Bad, n).scores == (TotalPayoff(line, bad), TotalPayoff(bad, line)) by {
      DetectiveVsBadLine(n);
      PlayScores(Detective, Bad, n, line, bad);
    }
    DetectiveVsBadTotals(n);
  }

  /** The default ten-turn results of the matches whose outcome is known in closed form. */
  lemma TenTurnOutcomes()
    ensures Play(Good, Good, DefaultTurns).scores == (50, 50)
    ensures Play(Bad, Bad, DefaultTurns).scores == (-50, -50)
    ensures Play(Copycat, Bad, DefaultTurns).scores == (-55, -35)
    ensures Play(Detective, Good, DefaultTurns).scores == (85, -55)
    ensures Play(Detective, Bad, DefaultTurns).scores == (-65, -5)
  {
    GoodVsGood(10);
    BadVsBad(10);
    CopycatVsBad(10);
    DetectiveVsGood(10);
    DetectiveVsBad(10);
  }

  /** A game between two players of the given strategies. */
  class Game {
    const player1: Player
    const player2: Player
    const numTurns: int

    /** Two distinct players, each consistent between rounds, whose histories mirror each
        other and are what their strategies produce over the turns played so far. */
    ghost predicate Valid()
      reads this, player1, player2
      ensures Valid() ==> |player1.own| == |player2.own|
      ensures Valid() ==> player1.score == TotalPayoff(player1.own, player2.own)
      ensures Valid() ==> player2.score == TotalPayoff(player2.own, player1.own)
    {
      && player1 != player2
      && player1.Valid() && player2.Valid()
      && player1.own == player2.other && player1.other == player2.own
      && (player1.own, player2.own) == Moves(player1.kind, player2.kind, |player1.own|)
    }

    constructor (k1: Kind, k2: Kind, numTurns: int := DefaultTurns)
      ensures Valid() && fresh(player1) && fresh(player2)
      ensures player1.kind == k1 && player2.kind == k2 && this.numTurns == numTurns
      ensures player1.own == [] && player1.score == 0 && player2.score == 0
    {
      player1 := new Player(k1);
      player2 := new Player(k2);
      this.numTurns := numTurns;
    }

    /** One turn: both players decide, then both record the round. */
    method PlayTurn()
      requires Valid()
      modifies player1, player2
      ensures Valid()
      ensures player1.own == old(player1.own) + [NextMove(player1.kind, old(player1.other))]
      ensures player2.own == old(player2.own) + [NextMove(player2.kind, old(player2.other))]
      ensures player1.score == old(player1.score) + Payoff(Last(player1.own), Last(player2.own))
      ensures player2.score == old(player2.score) + Payoff(Last(player2.own), Last(player1.own))
    {
      ghost var k1, k2, before := player1.kind, player2.kind, (player1.own, player2.own);
      var move1 := player1.MakeMove();
      var move2 := player2.MakeMove();
      player1.UpdateScore(move1, move2);
      player2.UpdateScore(move2, move1);
      MovesNext(k1, k2, before, move1, move2);
    }

    /** Plays `numTurns` turns and returns both scores and both histories. */
    method PlayGame() returns (result: GameResult)
      requires Valid()
      modifies player1, player2
      ensures Valid()
      ensures |player1.own| == old(|player1.own|) + Turns(numTurns)
      ensures player1.own == player2.other && player1.other == player2.own
      ensures (player1.own, player2.own) == Moves(player1.kind, player2.kind, |player1.own|)
      ensures result == GameResult((player1.score, player2.score),
                                   (History(player1.own, player1.other), History(player2.own, player2.other)))
      ensures old(player1.own) == [] ==> result == Play(player1.kind, player2.kind, numTurns)
    {
      var t := 0;
      while t < numTurns
        invariant Valid()
        invariant 0 <= t <= Turns(numTurns)
        invariant |player1.own| == old(|player1.own|) + t
      {
        PlayTurn();
        t := t + 1;
      }
      result := GameResult((player1.score, player2.score),
                           (History(player1.own, player1.other), History(player2.own, player2.other)));
      if old(player1.own) == [] {
        PlayResult(player1.kind, player2.kind, numTurns, player1.own, player2.own);
      }
    }
  }

  /** The demonstration game: Detective against Bad for the default ten turns. */
  method Demo() returns (result: GameResult)
    ensures result.scores == (-65, -5)
    ensures result.histories.0.own == Opening + Repeat(false, 6)
    ensures result.histories.1.own == Repeat(false, 10)
  {
    var game := new Game(Detective, Bad);
    result := game.PlayGame();
    DetectiveVsBad(10);
    DetectiveVsBadMoves(10);
  }
}
