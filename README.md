# Iterated Prisoner's Dilemma: strategies, games and tournament

This project models a small iterated Prisoner's Dilemma engine and proves
properties of it. The engine has five parts.

- **Payoff table.** A move is `true` (cooperate) or `false` (defect). Each
  round pays 5 for mutual cooperation, -10 to a player who is exploited,
  10 to the exploiter, and -5 for mutual defection. So Copycat and Bad,
  who defect against each other from the second turn on, end a ten-turn
  game at -10 + 9·(-5) = -55 and 10 + 9·(-5) = -35.
- **Players.** A player keeps a score and two move lists: its own moves and
  its opponent's. Recording a round adds that round's payoff to the score
  and appends both moves.
- **Five strategies.**
  - Good always cooperates.
  - Bad always defects.
  - Copycat cooperates first, then repeats the opponent's last move.
  - Grudge cooperates until the opponent defects once, then defects for
    ever.
  - Detective opens with cooperate, defect, cooperate, cooperate. After
    that, it mirrors the opponent if the opponent ever defected, and
    defects otherwise.
  - Grudge and Detective keep a sticky `betrayed` flag, which they set
    while deciding a move.
- **Game.** A game builds two fresh players and plays a number of turns
  (10 by default). In each turn both players decide before either one
  records, so the moves are simultaneous. The game returns both scores and
  both histories.
- **Tournament.** The tournament script plays one default game for every
  unordered pair of the five strategies, self-pairs included. Each game
  writes player 1's score in the cell (name 1, name 2) of a score matrix
  indexed by display names. It then writes player 2's score in the cell
  (name 2, name 1).

The model has four modules.

- `Payoffs`: the table, and `TotalPayoff`, the sum of payoffs over a
  history.
- `Players`:
  - the strategy kinds and their display names;
  - `NextMove`, each strategy's rule as a pure function of the opponent's
    recorded moves;
  - the `Player` class with the state the source mutates.

  `Player.MakeMove` is proved to agree with `NextMove` whenever the player
  is in its between-rounds state.
- `Games`:
  - `Moves` and `Play`, the game as a pure function;
  - the `Game` class, whose `PlayTurn` and `PlayGame` methods are proved to
    follow `Moves` and `Play`;
  - closed-form results of several matches.
- `Tournament`:
  - `CombinationsWithReplacement`;
  - `Record`, the fold that writes two cells per game, and `Outcomes`, the
    resulting matrix;
  - `RunTournament`, the loop, proved to produce that matrix;
  - lemmas that say which value every cell holds.

## Model

| member | source | states |
|---|---|---|
| Payoffs.Payoff | classes.py:4 | The payoff of own move against other move: (C,C)=5, (C,D)=-10, (D,C)=10, (D,D)=-5. The row is the own move and the column the other move. |
| Payoffs.Index | classes.py:4 | The table's labels are ordered cooperate first: a move's position is 0 exactly when it cooperates. |
| Payoffs.PrisonersDilemma | classes.py:4 | The table is a Prisoner's Dilemma: temptation > reward > punishment > sucker, and 2·reward > temptation + sucker. |
| Payoffs.TotalPayoffAppend | classes.py:17-21 | Recording one more round adds exactly that round's payoff to the history's total. |
| Payoffs.TotalPayoffConcat | classes.py:17-21 | The total of a history is the total of any prefix plus the total of the rest. |
| Payoffs.TotalPayoffRepeat | classes.py:17-21 | n rounds of the same move pair score n times that pair's payoff. |
| Players.Player.constructor | classes.py:8-15 | A new player has score 0, two empty move lists and a clear flag, and is in the between-rounds state. |
| Players.Player.UpdateScore | classes.py:17-21 | It adds the round's payoff to the score and appends one move to each list; nothing else changes. It keeps score == TotalPayoff(own, other) with equal lengths, and turns the decided state into the between-rounds state. |
| Players.Player.MakeMove | classes.py:28-92 | It gives each kind's move: Good cooperates; Bad defects; Copycat cooperates first, then copies the last move; Grudge cooperates first, then as long as it is not betrayed; Detective plays its opening for the first four turns, then mirrors if betrayed and defects otherwise. The flag is set exactly when the opponent's last recorded move was a defection, is never cleared, and only Grudge and Detective change it. From the between-rounds state, the move equals NextMove. |
| Players.Name | classes.py:24-81 | Each strategy's display name is its own word followed by " Player". |
| Players.NextMove | classes.py:28-92 | The rule each strategy plays against the opponent's recorded moves: Good cooperates, Bad defects, Grudge defects once the opponent has defected, Detective plays its opening for the first four turns and afterwards defects against an opponent that has never defected. |
| Players.Player.Valid | classes.py:54-92 | The between-rounds state: equal-length histories, score equal to their total payoff, and the flag derived from the history. A set flag belongs to Grudge or Detective and means the opponent defected in a recorded round. |
| Players.NameInjective | classes.py:25-81 | The five display names are pairwise distinct. |
| Players.BetrayedSticky | classes.py:66-69 | Once the flag is derived from a history, it stays set however many rounds are recorded afterwards. |
| Players.GrudgeNeverForgives | classes.py:62-72 | Once Grudge defects, it never cooperates again, whatever the opponent plays later. |
| Games.Turns | classes.py:116 | A turn count runs that many turns, and a negative count runs none, as `range` does. |
| Games.Moves | classes.py:107-117 | After n turns, each player has exactly n moves. |
| Games.MovesSimultaneous | classes.py:107-112 | Each player's move in turn i is its rule applied to the opponent's moves before turn i only. |
| Games.MovesPrefix | classes.py:114-117 | A longer game starts with exactly the moves of a shorter one. |
| Games.MovesSwap | classes.py:107-112 | Swapping the seats swaps the two move sequences. |
| Games.PlaySwap | classes.py:107-120 | Swapping the seats swaps the two scores. |
| Games.MovesSelf | classes.py:103-112 | A strategy against itself makes identical moves in both seats. |
| Games.PlaySelf | classes.py:103-120 | A strategy against itself gets equal scores and identical histories in both seats. |
| Games.Play | classes.py:114-120 | Both returned histories have one entry per turn played; a negative turn count plays no turn. |
| Games.GrudgeRule | classes.py:62-72 | In a game, Grudge cooperates in turn i exactly when the opponent cooperated in every earlier turn (both directions). |
| Games.DetectiveRule | classes.py:83-92 | In a game, from turn 4 on, Detective cooperates in turn i exactly when the opponent defected in some earlier turn and cooperated in turn i - 1 (both directions). |
| Games.DetectiveOpens | classes.py:77-88 | Detective's first four moves are true, false, true, true, whatever the opponent plays. |
| Games.GoodVsGood | classes.py:24-30 | Good against Good over n turns scores (5n, 5n). |
| Games.BadVsBad | classes.py:33-39 | Bad against Bad over n turns scores (-5n, -5n). |
| Games.CopycatVsBad | classes.py:42-51 | Copycat against Bad over n ≥ 1 turns scores (-10 - 5(n-1), 10 - 5(n-1)). |
| Games.CopycatVsBadMoves | classes.py:46-51 | Copycat's moves against Bad are one cooperation followed by defections. |
| Games.DetectiveVsGood | classes.py:74-92 | Detective against Good over n ≥ 4 turns scores (25 + 10(n-4), 5 - 10(n-4)). |
| Games.DetectiveVsGoodMoves | classes.py:83-92 | Against Good, Detective plays its opening and then defects every turn. |
| Games.DetectiveVsBad | classes.py:74-92 | Detective against Bad over n ≥ 4 turns scores (-35 - 5(n-4), 25 - 5(n-4)). |
| Games.DetectiveVsBadMoves | classes.py:83-92 | Against Bad, Detective plays its opening and then defects every turn. |
| Games.TenTurnOutcomes | classes.py:96 | Over the default ten turns: Good/Good (50, 50), Bad/Bad (-50, -50), Copycat/Bad (-55, -35), Detective/Good (85, -55), Detective/Bad (-65, -5). |
| Games.Game.Valid | classes.py:107-112 | Both players have played the same number of turns, and each score is the total payoff of its own moves against the other player's moves. |
| Games.Game.constructor | classes.py:96-105 | It makes two distinct fresh players of the given kinds, with zero scores and empty histories; the turn count defaults to 10. |
| Games.Game.PlayTurn | classes.py:107-112 | Each player appends NextMove of the opponent's earlier moves, and each score grows by that round's payoff. The game invariant is kept: histories are mirrored, scores equal the history totals, flags are derived from the history, and the moves equal Moves. |
| Games.Game.PlayGame | classes.py:114-120 | It plays max(numTurns, 0) turns and keeps the mirrored histories. It returns both scores and histories. From a fresh game the result is exactly Play(kind1, kind2, numTurns). |
| Games.Demo | classes.py:123-125 | The demonstration game, Detective against Bad, scores (-65, -5) with Detective moving true, false, true, true and then defecting. |
| Tournament.CombinationsWithReplacement | 1-v-1s.py:10 | It generates the pairs (s[i], s[j]) with i ≤ j, in lexicographic order of positions. |
| Tournament.PairsWith | 1-v-1s.py:10 | It generates one pair (x, s[j]) for each position j of s, in order. |
| Tournament.CombinationsCount | 1-v-1s.py:10 | A catalog of k entries gives k(k+1)/2 pairs. |
| Tournament.CombinationsMembers | 1-v-1s.py:10 | A pair is generated exactly when it is (s[i], s[j]) for some i ≤ j (both directions). |
| Tournament.TournamentGames | 1-v-1s.py:4-11 | The tournament plays 15 games: exactly the pairs i ≤ j of [Good, Bad, Copycat, Grudge, Detective]. |
| Tournament.CatalogDistinct | 1-v-1s.py:5 | The catalog's display names are pairwise distinct. |
| Tournament.RecordGame | 1-v-1s.py:13-14 | A game adds exactly its two cells. Cell (name 2, name 1) holds player 2's score. Cell (name 1, name 2) holds player 1's score unless both names are equal. Every other cell keeps its value. |
| Tournament.Record | 1-v-1s.py:10-14 | Recording games never removes a cell. |
| Tournament.TournamentOf | 1-v-1s.py:7-14 | The tournament over a catalog writes the cell of every ordered pair of its entries' names. |
| Tournament.RecordCovers | 1-v-1s.py:10-14 | Recording the pairs of a catalog writes both cells of every pair of its entries, whatever the names and game scores. |
| Tournament.RecordAppend | 1-v-1s.py:10-14 | Recording xs + ys is recording xs and then ys. |
| Tournament.RecordUntouched | 1-v-1s.py:13-14 | A cell that no game writes keeps its presence and value. |
| Tournament.RecordDomain | 1-v-1s.py:13-14 | A cell is present afterwards exactly when it was present before or some game wrote it. |
| Tournament.PairsWithCells | 1-v-1s.py:13-14 | In the games of x against each entry of s, a cell of x and a differently named entry holds x's score under (x, y) and the other player's score under (y, x). |
| Tournament.PairsWithSelf | 1-v-1s.py:13-14 | In a self-game both writes hit the same cell, and player 2's score, written second, remains. |
| Tournament.CombinationsCells | 1-v-1s.py:10-14 | For entries i < j of a catalog with distinct names, the cell (i, j) ends with player 1's score of game (i, j), and (j, i) with player 2's. |
| Tournament.CombinationsSelfCell | 1-v-1s.py:10-14 | The self-cell of each entry ends with player 2's score of its self-game. |
| Tournament.OutcomesCells | 1-v-1s.py:10-14 | For the catalog: for i < j, the cell (name i, name j) holds player 1's score of the default game i against j, and (name j, name i) holds player 2's. For i == j, the cell holds player 2's score. |
| Tournament.OutcomesMatrix | 1-v-1s.py:10-14 | Every cell (a, b) holds a's score against b in a default game, whichever seat a had. For a self-pair, it does not matter which write won. |
| Tournament.OutcomesDomain | 1-v-1s.py:7-14 | The matrix has exactly the 25 cells of ordered pairs of catalog names, so none is left unwritten. |
| Tournament.RunTournament | 1-v-1s.py:9-14 | The loop creates one default game per pair, plays it and writes both cells. The resulting matrix is exactly the fold `TournamentOf`. |

## Left out

- The pandas and numpy representation:
  - The table is a function on `bool`, so a missing table entry cannot occur.
  - The score matrix is a map from name pairs to integers. A cell that was never written would be absent, which is where the source's data frame has a NaN; `Tournament.OutcomesDomain` proves no such cell remains.
  - numpy's 64-bit integers are modelled as unbounded integers. Scores stay within ±10 per turn, so no wrap-around arises.
- Printing: the `pretty_history` table, the result messages of `main` and `print(outcomes)`. Only the game that `main` plays is kept, as `Games.Demo`.
- The `payoff` constructor argument: every game in the source is built with the one `PAYOFF` table, so the model fixes that table.
- Building players with `payoff=None` only to read their names: the names are the constants of `Players.Name`.
- Module imports and the `__main__` entry point.
- The five player subclasses become one `Player` class with a `kind` constant. Every player carries the `betrayed` field, though only Grudge and Detective, which own it in the source, ever write it.
- Tournament.RunTournament: it takes the catalog as a parameter; the script's own list is `Tournament.Catalog`, so the script's matrix is `Outcomes() == TournamentOf(Catalog)`.
