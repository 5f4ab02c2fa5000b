/**
 * The game's "save score" button (D1P91.js:791-808): trim the typed name,
 * validate it together with the run's score and level, and only then hand the
 * record to saveScore. Also a few concrete runs of the score client.
 */
module SaveGate {
  import opened Wrappers
  import opened JsString
  import opened ScoreStore
  import opened Retry
  import opened ScoreApi
  import Runner
  import RunnerProps

  /** A rejected form (the errors shown to the player) or the result of saveScore. */
  datatype Submission<A> = Rejected(errors: seq<ValidationError>) | Submitted(result: SaveOutcome<A>)

  /** Requests the submission made; a rejected form makes none. */
  function AttemptsMade<A>(s: Submission<A>): nat
  {
    if s.Rejected? then 0 else s.result.attempts
  }

  /** The local slot after the submission; a rejected form leaves it alone. */
  function StorageAfter<A>(s: Submission<A>, st: Storage): Storage
  {
    if s.Rejected? then st else s.result.storage
  }

  /**
   * The handler: the name is trimmed here and again inside saveScore; the
   * record that is sent or stored carries the trimmed name and the run's
   * score and level.
   */
  function SaveRunScore<A>(g: Runner.Game, input: string, outcomes: seq<Attempt<A>>,
                           st: Storage, writeOk: bool): (r: Submission<A>)
    ensures r.Rejected? <==> !ValidateScoreData(input, g.score as real, g.level as real).isValid
    ensures r.Rejected? ==>
      && r.errors == ValidateScoreData(input, g.score as real, g.level as real).errors
      && r.errors != [] && AttemptsMade(r) == 0 && StorageAfter(r, st) == st
    ensures r.Submitted? ==> r.result == SaveScore(Trim(input), g.score, g.level, outcomes, st, writeOk)
    ensures r.Submitted? ==>
      && r.result.record == ScoreRecord(Trim(input), g.score, g.level, false)
      && 1 <= |r.result.record.playerName| <= MaxNameLength
      && 1 <= AttemptsMade(r) <= MaxRetries + 1
  {
    var name := Trim(input);
    ValidateTrimmed(input, g.score as real, g.level as real);
    TrimIdempotent(input);
    var v := ValidateScoreData(name, g.score as real, g.level as real);
    if !v.isValid then
      Rejected(v.errors)
    else
      ValidNameLength(input, g.score as real, g.level as real);
      Submitted(SaveScore(name, g.score, g.level, outcomes, st, writeOk))
  }

  /** Validation trims the name itself, so trimming it first changes nothing. */
  lemma ValidateTrimmed(input: string, score: real, level: real)
    ensures ValidateScoreData(Trim(input), score, level) == ValidateScoreData(input, score, level)
  {
    TrimIdempotent(input);
  }

  /** A run of the game always has a valid score and level, so only the name can be refused. */
  lemma RunNumbersAlwaysValid<A>(g: Runner.Game, input: string, outcomes: seq<Attempt<A>>,
                                 st: Storage, writeOk: bool)
    requires RunnerProps.Inv(g)
    ensures var r := SaveRunScore(g, input, outcomes, st, writeOk);
      r.Rejected? ==> forall e :: e in r.errors ==> e == NameRequired || e == NameTooLong || e == NameBadCharacters
  {
    assert g.level >= 1;
    WholeNumbersPass(input, g.score, g.level);
  }

  // ------------------------------------------------------------ concrete runs

  /** An empty name is refused before any request is made. */
  lemma BlankNameNeverReachesServer<A>(g: Runner.Game, outcomes: seq<Attempt<A>>, st: Storage)
    ensures var r := SaveRunScore(g, "   ", outcomes, st, true);
      r.Rejected? && NameRequired in r.errors && AttemptsMade(r) == 0 && StorageAfter(r, st) == st
  {
    assert AllWhitespace("   ");
    assert Violates("   ", g.score as real, g.level as real, NameRequired);
  }
}
