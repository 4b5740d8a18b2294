/**
  The five strategies. Each is a `Player` object holding a score, the two
  move lists `own` and `other`, and (for Grudge and Detective) the sticky
  `betrayed` flag. `NextMove` is the decision rule of each strategy as a
  pure function of the opponent's recorded moves; `Player.MakeMove` is the
  stateful decision as the players run it, proved to agree with `NextMove`.
 */
module Players {
  import opened Payoffs

  datatype Kind = Good | Bad | Copycat | Grudge | Detective

  /** The display name of each strategy: the strategy's own word followed by " Player". */
  function Name(kind: Kind): (r: string)
    ensures |r| > |" Player"| && r[|r| - |" Player"|..] == " Player"
  {
    match kind
    case Good => "Good Player"
    case Bad => "Bad Player"
    case Copycat => "Copycat Player"
    case Grudge => "Grudge Player"
    case Detective => "Detective Player"
  }

  /** No two strategies share a display name. */
  lemma NameInjective(k1: Kind, k2: Kind)
    ensures Name(k1) == Name(k2) <==> k1 == k2
  {
  }

  /** Detective's fixed first four moves. */
  const Opening: seq<bool> := [true, false, true, true]

  /** The strategies that keep a `betrayed` flag. */
  predicate KeepsFlag(kind: Kind) {
    kind == Grudge || kind == Detective
  }

  function Last(s: seq<bool>): bool
    requires s != []
  {
    s[|s| - 1]
  }

  /** The flag a player holds once it has decided with `other` recorded: set iff it keeps
      a flag and the opponent has defected in some recorded round. */
  predicate Betrayed(kind: Kind, other: seq<bool>) {
    KeepsFlag(kind) && false in other
  }

  /** The flag a player holds before deciding with `other` recorded: the earlier decisions
      saw every recorded move but the last. */
  predicate BetrayedBefore(kind: Kind, other: seq<bool>) {
    other != [] && Betrayed(kind, other[..|other| - 1])
  }

  /** The move each strategy makes when the opponent's recorded moves are `other`. Once the
      opponent has defected, Grudge defects; after its opening, Detective defects against an
      opponent that has never defected. */
  function NextMove(kind: Kind, other: seq<bool>): (r: bool)
    ensures kind == Good ==> r
    ensures kind == Bad ==> !r
    ensures kind == Grudge && false in other ==> !r
    ensures kind == Detective && |other| < |Opening| ==> r == Opening[|other|]
    ensures kind == Detective && |other| >= |Opening| && false !in other ==> !r
  {
    match kind
    case Good => true
    case Bad => false
    case Copycat => other == [] || Last(other)
    case Grudge => false !in other
    case Detective =>
      if |other| < |Opening| then Opening[|other|]
      else if false in other then Last(other)
      else false
  }

  /** Once set, the flag stays set however many more rounds are recorded. */
  lemma BetrayedSticky(kind: Kind, other: seq<bool>, more: seq<bool>, next: bool)
    requires Betrayed(kind, other)
    ensures Betrayed(kind, other + more)
    ensures BetrayedBefore(kind, other + more + [next])
  {
    var i :| 0 <= i < |other| && other[i] == false;
    assert (other + more)[i] == false;
    assert (other + more + [next])[..|other + more|] == other + more;
  }

  /** Once Grudge defects it never cooperates again, whatever the opponent does afterwards. */
  lemma GrudgeNeverForgives(other: seq<bool>, more: seq<bool>)
    requires !NextMove(Grudge, other)
    ensures !NextMove(Grudge, other + more)
  {
    var i :| 0 <= i < |other| && other[i] == false;
    assert (other + more)[i] == false;
  }

  /** A player of one strategy, with its running score and move history. */
  class Player {
    const kind: Kind
    var score: int
    var own: seq<bool>
    var other: seq<bool>
    var betrayed: bool

    /** The histories have one entry per recorded round and the score is their total payoff. */
    ghost predicate Synced()
      reads this
    {
      |own| == |other| && score == TotalPayoff(own, other)
    }

    /** The state between rounds. */
    ghost predicate Valid()
      reads this
      ensures Valid() ==> (betrayed ==> KeepsFlag(kind) && false in other)
    {
      Synced() && betrayed == BetrayedBefore(kind, other)
    }

    /** The state after the player has decided its move for the coming round, before recording it. */
    ghost predicate Decided()
      reads this
    {
      Synced() && betrayed == Betrayed(kind, other)
    }

    constructor (kind: Kind)
      ensures this.kind == kind && score == 0 && own == [] && other == [] && !betrayed
      ensures Valid()
    {
      this.kind := kind;
      score := 0;
      own := [];
      other := [];
      betrayed := false;
    }

    /** Records one round: adds its payoff to the score and appends both moves. */
    method UpdateScore(ownMove: bool, otherMove: bool)
      modifies this`score, this`own, this`other
      ensures score == old(score) + Payoff(ownMove, otherMove)
      ensures own == old(own) + [ownMove] && other == old(other) + [otherMove]
      ensures old(Synced()) ==> Synced()
      ensures old(Decided()) ==> Valid()
    {
      if |own| == |other| {
        TotalPayoffAppend(own, other, ownMove, otherMove);
      }
      score := score + Payoff(ownMove, otherMove);
      own := own + [ownMove];
      other := other + [otherMove];
      assert other[..|other| - 1] == old(other);
    }

    /** The strategy's decision for the coming round. Grudge and Detective set `betrayed`
        when the opponent's last recorded move was a defection; nothing clears it. */
    method MakeMove() returns (move: bool)
      requires own != [] ==> other != []
      modifies this`betrayed
      ensures old(betrayed) ==> betrayed
      ensures KeepsFlag(kind) ==> betrayed == (old(betrayed) || (own != [] && !Last(other)))
      ensures !KeepsFlag(kind) ==> betrayed == old(betrayed)
      ensures kind == Good ==> move
      ensures kind == Bad ==> !move
      ensures kind == Copycat ==> move == (own == [] || Last(other))
      ensures kind == Grudge ==> move == (own == [] || !betrayed)
      ensures kind == Detective ==>
                move == if |own| < |Opening| then Opening[|own|] else if betrayed then Last(other) else false
      ensures old(Valid()) ==> Decided() && move == NextMove(kind, other)
    {
      if other != [] {
        assert other == other[..|other| - 1] + [Last(other)];
      }
      match kind
      case Good =>
        move := true;
      case Bad =>
        move := false;
      case Copycat =>
        if |own| == 0 {
          move := true;
        } else {
          move := other[|other| - 1];
        }
      case Grudge =>
        if |own| == 0 {
          move := true;
        } else if betrayed {
          move := false;
        } else if !other[|other| - 1] {
          betrayed := true;
          move := false;
        } else {
          move := true;
        }
      case Detective =>
        if |own| != 0 && !other[|other| - 1] {
          betrayed := true;
        }
        if |own| < |Opening| {
          move := Opening[|own|];
        } else if betrayed {
          move := other[|other| - 1];
        } else {
          move := false;
        }
    }
  }
}
