/**
  The round-robin tournament: one default-length game for every unordered
  pair of strategies in the catalog, self-pairs included, each game writing
  player 1's score under (name 1, name 2) and then player 2's score under
  (name 2, name 1) of a matrix indexed by display names.
 */
module Tournament {
  import opened Players
  import opened Games

  /** The strategies in the order the tournament lists them. */
  const Catalog: seq<Kind> := [Good, Bad, Copycat, Grudge, Detective]

  /** The score matrix: the cell (a, b) holds a score; a cell never written is absent. */
  type Matrix = map<(string, string), int>

  /** No two entries of `s` share a display name. */
  predicate DistinctNames(name: Kind -> string, s: seq<Kind>) {
    forall i, j :: 0 <= i < j < |s| ==> name(s[i]) != name(s[j])
  }

  lemma DistinctTail(name: Kind -> string, s: seq<Kind>)
    requires s != [] && DistinctNames(name, s)
    ensures DistinctNames(name, s[1..])
  {
    forall i, j | 0 <= i < j < |s[1..]|
      ensures name(s[1..][i]) != name(s[1..][j])
    {
      assert s[1..][i] == s[i + 1] && s[1..][j] == s[j + 1];
    }
  }

  /** The pairs (x, s[j]) for every position j of `s`, in order. */
  function PairsWith(x: Kind, s: seq<Kind>): (ps: seq<(Kind, Kind)>)
    ensures |ps| == |s|
    ensures forall j {:trigger ps[j]} :: 0 <= j < |s| ==> ps[j] == (x, s[j])
  {
    if s == [] then [] else [(x, s[0])] + PairsWith(x, s[1..])
  }

  /** The pairs (s[i], s[j]) with i <= j, ordered by i and then by j. */
  function CombinationsWithReplacement(s: seq<Kind>): (ps: seq<(Kind, Kind)>)
  {
    if s == [] then [] else PairsWith(s[0], s) + CombinationsWithReplacement(s[1..])
  }

  /** A catalog of k entries yields k(k+1)/2 pairs. */
  lemma {:induction false} CombinationsCount(s: seq<Kind>)
    ensures 2 * |CombinationsWithReplacement(s)| == |s| * (|s| + 1)
  {
    if s != [] {
      CombinationsCount(s[1..]);
      assert |CombinationsWithReplacement(s)| == |s| + |CombinationsWithReplacement(s[1..])|;
    }
  }

  /** Exactly the pairs (s[i], s[j]) with i <= j occur. */
  lemma {:induction false} CombinationsMembers(s: seq<Kind>, p: (Kind, Kind))
    ensures p in CombinationsWithReplacement(s) <==> exists i, j :: 0 <= i <= j < |s| && p == (s[i], s[j])
  {
    if s != [] {
      var row, rest := PairsWith(s[0], s), CombinationsWithReplacement(s[1..]);
      assert CombinationsWithReplacement(s) == row + rest;
      CombinationsMembers(s[1..], p);
      if p in row {
        var j :| 0 <= j < |row| && row[j] == p;
        assert p == (s[0], s[j]);
      }
      if p in rest {
        var i, j :| 0 <= i <= j < |s[1..]| && p == (s[1..][i], s[1..][j]);
        assert p == (s[i + 1], s[j + 1]);
      }
      if exists i, j :: 0 <= i <= j < |s| && p == (s[i], s[j]) {
        var i, j :| 0 <= i <= j < |s| && p == (s[i], s[j]);
        if i == 0 {
          assert row[j] == p;
        } else {
          assert p == (s[1..][i - 1], s[1..][j - 1]);
        }
      }
    }
  }

  /** Every pair the tournament plays is drawn from the catalog, the first at or before the second. */
  lemma CombinationsAt(s: seq<Kind>, t: nat)
    requires t < |CombinationsWithReplacement(s)|
    ensures exists i, j :: 0 <= i <= j < |s| && CombinationsWithReplacement(s)[t] == (s[i], s[j])
  {
    CombinationsMembers(s, CombinationsWithReplacement(s)[t]);
  }

  /** The game of pair `p` writes the cell `key`. */
  predicate Writes(name: Kind -> string, p: (Kind, Kind), key: (string, string)) {
    key == (name(p.0), name(p.1)) || key == (name(p.1), name(p.0))
  }

  /** Both scores of a default-length game, player 1's first. */
  function Scores(k1: Kind, k2: Kind): (int, int) {
    Play(k1, k2, DefaultTurns).scores
  }

  /** Plays the game of `p` and writes its two cells, player 2's last. The lemmas below hold
      for any `game`; the tournament uses `Scores`. */
  function RecordGame(name: Kind -> string, game: (Kind, Kind) -> (int, int), m: Matrix, p: (Kind, Kind)): (r: Matrix)
    ensures r.Keys == m.Keys + {(name(p.0), name(p.1)), (name(p.1), name(p.0))}
    ensures r[(name(p.1), name(p.0))] == game(p.0, p.1).1
    ensures name(p.0) != name(p.1) ==> r[(name(p.0), name(p.1))] == game(p.0, p.1).0
    ensures forall key :: key in m && !Writes(name, p, key) ==> r[key] == m[key]
  {
    var scores := game(p.0, p.1);
    m[(name(p.0), name(p.1)) := scores.0][(name(p.1), name(p.0)) := scores.1]
  }

  /** Records the games of `pairs` in order. No cell is ever removed. */
  function Record(name: Kind -> string, game: (Kind, Kind) -> (int, int), m: Matrix, pairs: seq<(Kind, Kind)>): (r: Matrix)
    ensures m.Keys <= r.Keys
    decreases |pairs|
  {
    if pairs == [] then m else Record(name, game, RecordGame(name, game, m, pairs[0]), pairs[1..])
  }

  /** The matrix a tournament over `catalog` produces, starting from an empty matrix: both
      cells of every pair of entries are written. */
  function TournamentOf(catalog: seq<Kind>): (r: Matrix)
    ensures forall i, j :: 0 <= i < |catalog| && 0 <= j < |catalog| ==> (Name(catalog[i]), Name(catalog[j])) in r
  {
    RecordCovers(Name, Scores, map[], catalog);
    Record(Name, Scores, map[], CombinationsWithReplacement(catalog))
  }

  /** The matrix the tournament over the catalog produces. */
  function Outcomes(): Matrix {
    TournamentOf(Catalog)
  }

  lemma {:induction false} RecordAppend(name: Kind -> string, game: (Kind, Kind) -> (int, int), m: Matrix, xs: seq<(Kind, Kind)>, ys: seq<(Kind, Kind)>)
    ensures Record(name, game, m, xs + ys) == Record(name, game, Record(name, game, m, xs), ys)
    decreases |xs|
  {
    if xs != [] {
      assert (xs + ys)[1..] == xs[1..] + ys;
      RecordAppend(name, game, RecordGame(name, game, m, xs[0]), xs[1..], ys);
    } else {
      assert xs + ys == ys;
    }
  }

  /** A cell that no game of `pairs` writes keeps its state. */
  lemma {:induction false} RecordUntouched(name: Kind -> string, game: (Kind, Kind) -> (int, int), m: Matrix, pairs: seq<(Kind, Kind)>, key: (string, string))
    requires forall t :: 0 <= t < |pairs| ==> !Writes(name, pairs[t], key)
    ensures key in Record(name, game, m, pairs) <==> key in m
    ensures key in m ==> Record(name, game, m, pairs)[key] == m[key]
    decreases |pairs|
  {
    if pairs != [] {
      assert !Writes(name, pairs[0], key);
      RecordUntouched(name, game, RecordGame(name, game, m, pairs[0]), pairs[1..], key);
    }
  }

  /** A cell is present after recording iff it was present before or some game writes it. */
  lemma {:induction false} RecordDomain(name: Kind -> string, game: (Kind, Kind) -> (int, int), m: Matrix, pairs: seq<(Kind, Kind)>, key: (string, string))
    ensures key in Record(name, game, m, pairs) <==> key in m || exists t :: 0 <= t < |pairs| && Writes(name, pairs[t], key)
    decreases |pairs|
  {
    if pairs != [] {
      RecordDomain(name, game, RecordGame(name, game, m, pairs[0]), pairs[1..], key);
      if exists t :: 0 <= t < |pairs[1..]| && Writes(name, pairs[1..][t], key) {
        var t :| 0 <= t < |pairs[1..]| && Writes(name, pairs[1..][t], key);
        assert Writes(name, pairs[t + 1], key);
      }
      if exists t :: 0 <= t < |pairs| && Writes(name, pairs[t], key) {
        var t :| 0 <= t < |pairs| && Writes(name, pairs[t], key);
        if t > 0 {
          assert Writes(name, pairs[1..][t - 1], key);
        }
      }
    }
  }

  /** Recording the games of a catalog writes both cells of every pair of its entries. */
  lemma RecordCovers(name: Kind -> string, game: (Kind, Kind) -> (int, int), m: Matrix, cat: seq<Kind>)
    ensures forall i, j :: 0 <= i < |cat| && 0 <= j < |cat| ==>
              (name(cat[i]), name(cat[j])) in Record(name, game, m, CombinationsWithReplacement(cat))
  {
    var pairs := CombinationsWithReplacement(cat);
    forall i, j | 0 <= i < |cat| && 0 <= j < |cat|
      ensures (name(cat[i]), name(cat[j])) in Record(name, game, m, pairs)
    {
      var p := if i <= j then (cat[i], cat[j]) else (cat[j], cat[i]);
      CombinationsMembers(cat, p);
      var t :| 0 <= t < |pairs| && pairs[t] == p;
      assert Writes(name, pairs[t], (name(cat[i]), name(cat[j])));
      RecordDomain(name, game, m, pairs, (name(cat[i]), name(cat[j])));
    }
  }

  /** In the games of x against each entry of `s`, the cells of x and an entry named differently
      from x hold that game's scores: x's score under (x, y) and y's under (y, x). */
  lemma {:induction false} PairsWithCells(name: Kind -> string, game: (Kind, Kind) -> (int, int), m: Matrix, x: Kind, s: seq<Kind>, j: nat)
    requires DistinctNames(name, s) && j < |s| && name(s[j]) != name(x)
    ensures (name(x), name(s[j])) in Record(name, game, m, PairsWith(x, s))
    ensures Record(name, game, m, PairsWith(x, s))[(name(x), name(s[j]))] == game(x, s[j]).0
    ensures (name(s[j]), name(x)) in Record(name, game, m, PairsWith(x, s))
    ensures Record(name, game, m, PairsWith(x, s))[(name(s[j]), name(x))] == game(x, s[j]).1
    decreases |s|
  {
    var m1, rest := RecordGame(name, game, m, (x, s[0])), PairsWith(x, s[1..]);
    assert Record(name, game, m, PairsWith(x, s)) == Record(name, game, m1, rest);
    if j == 0 {
      var scores := game(x, s[0]);
      var k1, k2 := (name(x), name(s[0])), (name(s[0]), name(x));
      assert k1 in m1 && m1[k1] == scores.0 && k2 in m1 && m1[k2] == scores.1 by {
        assert k1 != k2;
      }
      forall t | 0 <= t < |rest|
        ensures !Writes(name, rest[t], k1) && !Writes(name, rest[t], k2)
      {
        assert rest[t] == (x, s[t + 1]);
      }
      RecordUntouched(name, game, m1, rest, k1);
      RecordUntouched(name, game, m1, rest, k2);
    } else {
      assert s[1..][j - 1] == s[j];
      DistinctTail(name, s);
      PairsWithCells(name, game, m1, x, s[1..], j - 1);
    }
  }

  /** In the games of x against `s` with x first in `s`, the self-cell of x holds player 2's
      score of x against itself: both writes of that game hit it and the second wins. */
  lemma PairsWithSelf(name: Kind -> string, game: (Kind, Kind) -> (int, int), m: Matrix, x: Kind, s: seq<Kind>)
    requires s != [] && s[0] == x && DistinctNames(name, s)
    ensures (name(x), name(x)) in Record(name, game, m, PairsWith(x, s))
    ensures Record(name, game, m, PairsWith(x, s))[(name(x), name(x))] == game(x, x).1
  {
    var m1 := RecordGame(name, game, m, (x, x));
    var rest := PairsWith(x, s[1..]);
    assert Record(name, game, m, PairsWith(x, s)) == Record(name, game, m1, rest);
    forall t | 0 <= t < |rest|
      ensures !Writes(name, rest[t], (name(x), name(x)))
    {
      assert rest[t] == (x, s[t + 1]);
    }
    RecordUntouched(name, game, m1, rest, (name(x), name(x)));
  }

  /** No game after those of the first entry writes a cell of the first entry. */
  lemma LaterGamesAvoid(name: Kind -> string, game: (Kind, Kind) -> (int, int), m: Matrix, cat: seq<Kind>, key: (string, string))
    requires cat != [] && DistinctNames(name, cat) && (key.0 == name(cat[0]) || key.1 == name(cat[0]))
    ensures key in Record(name, game, m, CombinationsWithReplacement(cat[1..])) <==> key in m
    ensures key in m ==> Record(name, game, m, CombinationsWithReplacement(cat[1..]))[key] == m[key]
  {
    var rest := CombinationsWithReplacement(cat[1..]);
    forall t | 0 <= t < |rest|
      ensures !Writes(name, rest[t], key)
    {
      CombinationsAt(cat[1..], t);
      var a, b :| 0 <= a <= b < |cat[1..]| && rest[t] == (cat[1..][a], cat[1..][b]);
      assert rest[t] == (cat[a + 1], cat[b + 1]);
    }
    RecordUntouched(name, game, m, rest, key);
  }

  /** The tournament over a catalog records the games of its first entry, then the
      tournament over the rest. */
  lemma RecordRows(name: Kind -> string, game: (Kind, Kind) -> (int, int), m: Matrix, cat: seq<Kind>)
    requires cat != []
    ensures Record(name, game, m, CombinationsWithReplacement(cat))
            == Record(name, game, Record(name, game, m, PairsWith(cat[0], cat)), CombinationsWithReplacement(cat[1..]))
  {
    RecordAppend(name, game, m, PairsWith(cat[0], cat), CombinationsWithReplacement(cat[1..]));
  }

  /** The cells of the first entry of a catalog with distinct names, after the whole tournament:
      the games of the first entry come first and no later game writes its cells. */
  lemma FirstRowCells(name: Kind -> string, game: (Kind, Kind) -> (int, int), m: Matrix, cat: seq<Kind>, j: nat)
    requires DistinctNames(name, cat) && j < |cat|
    ensures (name(cat[0]), name(cat[j])) in Record(name, game, m, CombinationsWithReplacement(cat))
    ensures (name(cat[j]), name(cat[0])) in Record(name, game, m, CombinationsWithReplacement(cat))
    ensures 0 < j ==> Record(name, game, m, CombinationsWithReplacement(cat))[(name(cat[0]), name(cat[j]))]
                      == game(cat[0], cat[j]).0
    ensures 0 < j ==> Record(name, game, m, CombinationsWithReplacement(cat))[(name(cat[j]), name(cat[0]))]
                      == game(cat[0], cat[j]).1
    ensures 0 == j ==> Record(name, game, m, CombinationsWithReplacement(cat))[(name(cat[0]), name(cat[0]))]
                       == game(cat[0], cat[0]).1
  {
    RecordRows(name, game, m, cat);
    var m1 := Record(name, game, m, PairsWith(cat[0], cat));
    if j == 0 {
      PairsWithSelf(name, game, m, cat[0], cat);
    } else {
      PairsWithCells(name, game, m, cat[0], cat, j);
    }
    LaterGamesAvoid(name, game, m1, cat, (name(cat[0]), name(cat[j])));
    LaterGamesAvoid(name, game, m1, cat, (name(cat[j]), name(cat[0])));
  }

  /** The cells of entries i < j of a catalog with distinct names, after the whole tournament:
      player 1's score of the game i against j under (i, j) and player 2's under (j, i). */
  lemma {:induction false} CombinationsCells(name: Kind -> string, game: (Kind, Kind) -> (int, int), m: Matrix, cat: seq<Kind>, i: nat, j: nat)
    requires DistinctNames(name, cat) && i < j < |cat|
    ensures (name(cat[i]), name(cat[j])) in Record(name, game, m, CombinationsWithReplacement(cat))
    ensures Record(name, game, m, CombinationsWithReplacement(cat))[(name(cat[i]), name(cat[j]))] == game(cat[i], cat[j]).0
    ensures (name(cat[j]), name(cat[i])) in Record(name, game, m, CombinationsWithReplacement(cat))
    ensures Record(name, game, m, CombinationsWithReplacement(cat))[(name(cat[j]), name(cat[i]))] == game(cat[i], cat[j]).1
    decreases |cat|
  {
    if i == 0 {
      FirstRowCells(name, game, m, cat, j);
    } else {
      var later := Record(name, game, Record(name, game, m, PairsWith(cat[0], cat)), CombinationsWithReplacement(cat[1..]));
      var a, b := cat[i], cat[j];
      assert (name(a), name(b)) in later && later[(name(a), name(b))] == game(a, b).0 &&
             (name(b), name(a)) in later && later[(name(b), name(a))] == game(a, b).1 by {
        assert cat[1..][i - 1] == a && cat[1..][j - 1] == b;
        DistinctTail(name, cat);
        CombinationsCells(name, game, Record(name, game, m, PairsWith(cat[0], cat)), cat[1..], i - 1, j - 1);
      }
      RecordRows(name, game, m, cat);
    }
  }

  /** The self-cell of entry i of a catalog with distinct names, after the whole tournament:
      player 2's score of the self-game. */
  lemma {:induction false} CombinationsSelfCell(name: Kind -> string, game: (Kind, Kind) -> (int, int), m: Matrix, cat: seq<Kind>, i: nat)
    requires DistinctNames(name, cat) && i < |cat|
    ensures (name(cat[i]), name(cat[i])) in Record(name, game, m, CombinationsWithReplacement(cat))
    ensures Record(name, game, m, CombinationsWithReplacement(cat))[(name(cat[i]), name(cat[i]))] == game(cat[i], cat[i]).1
    decreases |cat|
  {
    if i == 0 {
      FirstRowCells(name, game, m, cat, 0);
    } else {
      var later := Record(name, game, Record(name, game, m, PairsWith(cat[0], cat)), CombinationsWithReplacement(cat[1..]));
      var a := cat[i];
      assert (name(a), name(a)) in later && later[(name(a), name(a))] == game(a, a).1 by {
        assert cat[1..][i - 1] == a;
        DistinctTail(name, cat);
        CombinationsSelfCell(name, game, Record(name, game, m, PairsWith(cat[0], cat)), cat[1..], i - 1);
      }
      RecordRows(name, game, m, cat);
    }
  }

  /** The catalog's display names are pairwise distinct. */
  lemma CatalogDistinct()
    ensures DistinctNames(Name, Catalog)
  {
    forall k1, k2 | Name(k1) == Name(k2)
      ensures k1 == k2
    {
      NameInjective(k1, k2);
    }
    DistinctKinds(Name, Catalog);
  }

  /** Distinct entries under an injective naming have distinct names. */
  lemma DistinctKinds(name: Kind -> string, s: seq<Kind>)
    requires forall k1, k2 :: name(k1) == name(k2) ==> k1 == k2
    requires forall i, j :: 0 <= i < j < |s| ==> s[i] != s[j]
    ensures DistinctNames(name, s)
  {
  }

  /** The tournament plays 15 games: every pair i <= j of the catalog, in catalog order. */
  lemma TournamentGames()
    ensures |CombinationsWithReplacement(Catalog)| == 15
    ensures forall p :: p in CombinationsWithReplacement(Catalog) <==>
              exists i, j :: 0 <= i <= j < |Catalog| && p == (Catalog[i], Catalog[j])
  {
    CombinationsCount(Catalog);
    forall p
      ensures p in CombinationsWithReplacement(Catalog) <==>
              exists i, j :: 0 <= i <= j < |Catalog| && p == (Catalog[i], Catalog[j])
    {
      CombinationsMembers(Catalog, p);
    }
  }

  /** The cells as the tournament writes them: for i < j, player 1's score of the game
      i against j under (i, j) and player 2's under (j, i); for a self-pair, player 2's. */
  lemma OutcomesCells(i: nat, j: nat)
    requires i <= j < |Catalog|
    ensures (Name(Catalog[i]), Name(Catalog[j])) in Outcomes()
    ensures (Name(Catalog[j]), Name(Catalog[i])) in Outcomes()
    ensures i < j ==> Outcomes()[(Name(Catalog[i]), Name(Catalog[j]))] == Play(Catalog[i], Catalog[j], DefaultTurns).scores.0
    ensures i < j ==> Outcomes()[(Name(Catalog[j]), Name(Catalog[i]))] == Play(Catalog[i], Catalog[j], DefaultTurns).scores.1
    ensures i == j ==> Outcomes()[(Name(Catalog[i]), Name(Catalog[i]))] == Play(Catalog[i], Catalog[i], DefaultTurns).scores.1
  {
    CatalogDistinct();
    if i < j {
      CombinationsCells(Name, Scores, map[], Catalog, i, j);
    } else {
      CombinationsSelfCell(Name, Scores, map[], Catalog, i);
    }
  }

  /** Every cell (a, b) of the matrix holds the score of a against b, whichever seat a had in
      the game that was played; for a self-pair it does not matter which write won. */
  lemma OutcomesMatrix(i: nat, j: nat)
    requires i < |Catalog| && j < |Catalog|
    ensures (Name(Catalog[i]), Name(Catalog[j])) in Outcomes()
    ensures Outcomes()[(Name(Catalog[i]), Name(Catalog[j]))] == Play(Catalog[i], Catalog[j], DefaultTurns).scores.0
  {
    if i <= j {
      OutcomesCells(i, j);
      if i == j {
        PlaySelf(Catalog[i], DefaultTurns);
      }
    } else {
      OutcomesCells(j, i);
      PlaySwap(Catalog[j], Catalog[i], DefaultTurns);
    }
  }

  /** The matrix has exactly the 25 cells of ordered pairs of catalog names. */
  lemma OutcomesDomain(key: (string, string))
    ensures key in Outcomes() <==>
            exists i, j :: 0 <= i < |Catalog| && 0 <= j < |Catalog| && key == (Name(Catalog[i]), Name(Catalog[j]))
  {
    var pairs := CombinationsWithReplacement(Catalog);
    RecordDomain(Name, Scores, map[], pairs, key);
    if key in Outcomes() {
      var t :| 0 <= t < |pairs| && Writes(Name, pairs[t], key);
      CombinationsAt(Catalog, t);
      var a, b :| 0 <= a <= b < |Catalog| && pairs[t] == (Catalog[a], Catalog[b]);
      if key == (Name(Catalog[a]), Name(Catalog[b])) {
        assert key == (Name(Catalog[a]), Name(Catalog[b]));
      } else {
        assert key == (Name(Catalog[b]), Name(Catalog[a]));
      }
    }
    if exists i, j :: 0 <= i < |Catalog| && 0 <= j < |Catalog| && key == (Name(Catalog[i]), Name(Catalog[j])) {
      var i, j :| 0 <= i < |Catalog| && 0 <= j < |Catalog| && key == (Name(Catalog[i]), Name(Catalog[j]));
      OutcomesMatrix(i, j);
    }
  }

  /** Recording the games from position t on is recording game t and then the rest. */
  lemma RecordStep(name: Kind -> string, game: (Kind, Kind) -> (int, int), m: Matrix, pairs: seq<(Kind, Kind)>, t: nat)
    requires t < |pairs|
    ensures Record(name, game, m, pairs[t..]) == Record(name, game, RecordGame(name, game, m, pairs[t]), pairs[t + 1..])
  {
    assert pairs[t..][0] == pairs[t] && pairs[t..][1..] == pairs[t + 1..];
  }

  /** Runs the tournament over `catalog` (the script passes `Catalog`): one game per pair,
      writing both cells of each. */
  method RunTournament(catalog: seq<Kind>) returns (outcomes: Matrix)
    ensures outcomes == TournamentOf(catalog)
  {
    var pairs := CombinationsWithReplacement(catalog);
    outcomes := map[];
    var t := 0;
    while t < |pairs|
      invariant t <= |pairs|
      invariant Record(Name, Scores, outcomes, pairs[t..]) == Record(Name, Scores, map[], pairs)
    {
      ghost var before := outcomes;
      var game := new Game(pairs[t].0, pairs[t].1);
      var result := game.PlayGame();
      outcomes := outcomes[(Name(game.player1.kind), Name(game.player2.kind)) := result.scores.0];
      outcomes := outcomes[(Name(game.player2.kind), Name(game.player1.kind)) := result.scores.1];
      assert outcomes == RecordGame(Name, Scores, before, pairs[t]);
      RecordStep(Name, Scores, before, pairs, t);
      t := t + 1;
    }
    assert pairs[t..] == [];
  }
}
