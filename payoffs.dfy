/**
  The fixed payoff table of the iterated Prisoner's Dilemma and the score it
  yields over a recorded history of rounds. A move is a `bool`: `true`
  cooperates, `false` defects.
 */
module Payoffs {

  /** The 2x2 table; rows are the own move, columns the other move, each in the order cooperate, defect. */
  const Table: seq<seq<int>> := [[5, -10], [10, -5]]

  /** Position of a move among the table's row and column labels. */
  function Index(move: bool): (i: nat)
    ensures i < 2
    ensures i == 0 <==> move
  {
    if move then 0 else 1
  }

  /** The reward of the player who played `own` against `other`: row `own`, column `other`. */
  function Payoff(own: bool, other: bool): (r: int)
    ensures own && other ==> r == 5
    ensures own && !other ==> r == -10
    ensures !own && other ==> r == 10
    ensures !own && !other ==> r == -5
  {
    Table[Index(own)][Index(other)]
  }

  /** The table orders its payoffs as a Prisoner's Dilemma: temptation > reward > punishment > sucker,
      and mutual cooperation beats taking turns at exploiting each other. */
  lemma PrisonersDilemma()
    ensures Payoff(false, true) > Payoff(true, true) > Payoff(false, false) > Payoff(true, false)
    ensures 2 * Payoff(true, true) > Payoff(false, true) + Payoff(true, false)
  {
  }

  /** `n` copies of one move. */
  function Repeat(move: bool, n: nat): (s: seq<bool>)
    ensures |s| == n
    ensures forall i :: 0 <= i < n ==> s[i] == move
  {
    seq(n, _ => move)
  }

  lemma RepeatSnoc(move: bool, n: nat)
    ensures Repeat(move, n) + [move] == Repeat(move, n + 1)
    ensures [move] + Repeat(move, n) == Repeat(move, n + 1)
  {
  }

  lemma RepeatConcat(move: bool, m: nat, n: nat)
    ensures Repeat(move, m) + Repeat(move, n) == Repeat(move, m + n)
  {
  }

  /** Sum, over the rounds of a history, of the payoff of `own[i]` against `other[i]`. */
  function TotalPayoff(own: seq<bool>, other: seq<bool>): int
    requires |own| == |other|
  {
    if own == [] then 0
    else TotalPayoff(own[..|own| - 1], other[..|other| - 1]) + Payoff(own[|own| - 1], other[|other| - 1])
  }

  /** Recording one more round adds exactly that round's payoff to the total. */
  lemma TotalPayoffAppend(own: seq<bool>, other: seq<bool>, a: bool, b: bool)
    requires |own| == |other|
    ensures TotalPayoff(own + [a], other + [b]) == TotalPayoff(own, other) + Payoff(a, b)
  {
    assert (own + [a])[..|own|] == own;
    assert (other + [b])[..|other|] == other;
  }

  /** Playing the same pair of moves for `n` rounds scores `n` times that pair's payoff. */
  lemma {:induction false} TotalPayoffRepeat(a: bool, b: bool, n: nat)
    ensures TotalPayoff(Repeat(a, n), Repeat(b, n)) == n * Payoff(a, b)
  {
    if n > 0 {
      assert Repeat(a, n)[..n - 1] == Repeat(a, n - 1);
      assert Repeat(b, n)[..n - 1] == Repeat(b, n - 1);
      TotalPayoffRepeat(a, b, n - 1);
    }
  }

  /** The total of a history that starts with a given prefix is the prefix's total plus the rest's. */
  lemma {:induction false} TotalPayoffConcat(own: seq<bool>, other: seq<bool>, own': seq<bool>, other': seq<bool>)
    requires |own| == |other| && |own'| == |other'|
    ensures TotalPayoff(own + own', other + other') == TotalPayoff(own, other) + TotalPayoff(own', other')
  {
    if own' != [] {
      var n := |own'| - 1;
      assert (own + own')[..|own| + n] == own + own'[..n];
      assert (other + other')[..|other| + n] == other + other'[..n];
      TotalPayoffConcat(own, other, own'[..n], other'[..n]);
    } else {
      assert own + own' == own && other + other' == other;
    }
  }
}
