/**
 * The rock-paper-scissors page (D1P4.js): the computer draws one of the three
 * options uniformly, `jugar` decides the round against the player's choice
 * and bumps one of three counters.
 */
module RockPaperScissors {

  /** `opciones`: rock, paper, scissors, in this order (D1P4.js:12). */
  const Options: seq<string> := ["piedra", "papel", "tijera"]

  datatype Outcome = Draw | Win | Loss

  /** The three winning pairs (player, computer) listed by jugar (D1P4.js:25-27). */
  predicate Beats(player: string, computer: string)
  {
    || (player == "piedra" && computer == "tijera")
    || (player == "papel" && computer == "piedra")
    || (player == "tijera" && computer == "papel")
  }

  /**
   * The decision of jugar (D1P4.js:20-36): equal choices draw, the three
   * listed pairs win, and everything else (including a choice that is not an
   * option at all) loses.
   */
  function Decide(player: string, computer: string): (o: Outcome)
    ensures o == Draw <==> player == computer
    ensures o == Win <==> player != computer && Beats(player, computer)
  {
    if player == computer then Draw
    else if Beats(player, computer) then Win
    else Loss
  }

  /**
   * Independent statement of the rule on indices into Options: each option
   * beats the one before it, cyclically.
   */
  lemma CyclicRule(i: nat, j: nat)
    requires i < 3 && j < 3
    ensures Decide(Options[i], Options[j]) ==
      if i == j then Draw else if (i - j) % 3 == 1 then Win else Loss
  {
    assert Options[0] != Options[1] && Options[0] != Options[2] && Options[1] != Options[2];
  }

  /** Between two real options, one player's win is the other's loss. */
  lemma Antisymmetric(i: nat, j: nat)
    requires i < 3 && j < 3
    ensures Decide(Options[i], Options[j]) == Win <==> Decide(Options[j], Options[i]) == Loss
    ensures Decide(Options[i], Options[j]) == Draw <==> Decide(Options[j], Options[i]) == Draw
  {
    CyclicRule(i, j);
    CyclicRule(j, i);
  }

  /** Each option beats exactly one option and loses to exactly one. */
  lemma EachBeatsExactlyOne(i: nat)
    requires i < 3
    ensures forall j :: 0 <= j < 3 ==> (Decide(Options[i], Options[j]) == Win <==> j == (i + 2) % 3)
    ensures forall j :: 0 <= j < 3 ==> (Decide(Options[i], Options[j]) == Loss <==> j == (i + 1) % 3)
  {
    forall j | 0 <= j < 3
      ensures Decide(Options[i], Options[j]) == Win <==> j == (i + 2) % 3
      ensures Decide(Options[i], Options[j]) == Loss <==> j == (i + 1) % 3
    {
      CyclicRule(i, j);
    }
  }

  /** A player choice that is not one of the options can never draw or win. */
  lemma UnknownChoiceLoses(player: string, j: nat)
    requires j < 3 && player !in Options
    ensures Decide(player, Options[j]) == Loss
  {
    assert Options[j] in Options;
  }

  /** `Math.floor(Math.random() * 3)` for a draw `rand` in [0, 1). */
  function ComputerIndex(rand: real): (k: nat)
    requires 0.0 <= rand < 1.0
    ensures k < 3
    ensures k as real <= rand * 3.0 < k as real + 1.0
  {
    (rand * 3.0).Floor
  }

  /** Each option is drawn on a third of [0, 1): the pick is uniform. */
  lemma ComputerPickBands(rand: real, k: nat)
    requires 0.0 <= rand < 1.0 && k < 3
    ensures ComputerIndex(rand) == k <==> k as real / 3.0 <= rand < (k as real + 1.0) / 3.0
  {
    var c := ComputerIndex(rand);
    if c != k {
      assert c < k || k < c;
    }
  }

  /** The three counters `wins`, `losses`, `draws`. */
  datatype Tally = Tally(wins: nat, losses: nat, draws: nat)

  function Rounds(t: Tally): nat
  {
    t.wins + t.losses + t.draws
  }

  /** One round of jugar: decide against the drawn option and bump the matching counter. */
  function Play(t: Tally, player: string, rand: real): (r: Tally)
    requires 0.0 <= rand < 1.0
    ensures Rounds(r) == Rounds(t) + 1
    ensures var o := Decide(player, Options[ComputerIndex(rand)]);
      && (r.wins == t.wins + 1 <==> o == Win)
      && (r.losses == t.losses + 1 <==> o == Loss)
      && (r.draws == t.draws + 1 <==> o == Draw)
    ensures r.wins >= t.wins && r.losses >= t.losses && r.draws >= t.draws
  {
    match Decide(player, Options[ComputerIndex(rand)])
    case Draw => t.(draws := t.draws + 1)
    case Win => t.(wins := t.wins + 1)
    case Loss => t.(losses := t.losses + 1)
  }

  predicate ValidDraws(rounds: seq<(string, real)>)
  {
    forall i :: 0 <= i < |rounds| ==> 0.0 <= rounds[i].1 < 1.0
  }

  /** A session of clicks: each round is the player's choice and the random draw behind the computer's. */
  function PlayAll(t: Tally, rounds: seq<(string, real)>): Tally
    requires ValidDraws(rounds)
    decreases |rounds|
  {
    if rounds == [] then t
    else PlayAll(Play(t, rounds[0].0, rounds[0].1), rounds[1..])
  }

  /** The counters always add up to the number of rounds played. */
  lemma {:induction false} PlayAllCounts(t: Tally, rounds: seq<(string, real)>)
    requires ValidDraws(rounds)
    ensures Rounds(PlayAll(t, rounds)) == Rounds(t) + |rounds|
    decreases |rounds|
  {
    if rounds != [] {
      PlayAllCounts(Play(t, rounds[0].0, rounds[0].1), rounds[1..]);
    }
  }

  /** A player who only ever picks something outside the options loses every round. */
  lemma {:induction false} UnknownChoicesAlwaysLose(t: Tally, rounds: seq<(string, real)>)
    requires ValidDraws(rounds)
    requires forall i :: 0 <= i < |rounds| ==> rounds[i].0 !in Options
    ensures PlayAll(t, rounds) == Tally(t.wins, t.losses + |rounds|, t.draws)
    decreases |rounds|
  {
    if rounds != [] {
      UnknownChoiceLoses(rounds[0].0, ComputerIndex(rounds[0].1));
      UnknownChoicesAlwaysLose(Play(t, rounds[0].0, rounds[0].1), rounds[1..]);
    }
  }
}
