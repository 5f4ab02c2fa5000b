/**
 * The ScoreAPI operations that talk to the server, with the local store as
 * fallback (D1P92.js): saveScore, getLeaderboard, syncLocalScores and the
 * static validateScoreData. Every network call is a fetchWithRetry whose
 * attempt outcomes are parameters.
 */
module ScoreApi {
  import opened Wrappers
  import opened JsString
  import opened ScoreStore
  import opened Retry

  // ------------------------------------------------------------ validation

  /** Longest accepted (trimmed) name (D1P92.js:314). */
  const MaxNameLength: nat := 20

  /** The five rules of validateScoreData, in the order they are checked (D1P92.js:310-328). */
  datatype ValidationError = NameRequired | NameTooLong | NameBadCharacters | ScoreInvalid | LevelInvalid

  function Rank(e: ValidationError): nat
  {
    match e
    case NameRequired => 0
    case NameTooLong => 1
    case NameBadCharacters => 2
    case ScoreInvalid => 3
    case LevelInvalid => 4
  }

  /** A character of the class `[a-zA-Z0-9\s_-]`. */
  predicate IsNameChar(c: char)
  {
    ('a' <= c <= 'z') || ('A' <= c <= 'Z') || ('0' <= c <= '9') || IsWhitespace(c) || c == '_' || c == '-'
  }

  /** The whole string matches `^[a-zA-Z0-9\s_-]+$`. */
  predicate MatchesNamePattern(s: string)
  {
    |s| >= 1 && forall i :: 0 <= i < |s| ==> IsNameChar(s[i])
  }

  /** `Number.isInteger` on a finite number. */
  predicate IsInteger(x: real)
  {
    x.Floor as real == x
  }

  /** Whether the trimmed name `t` with `score` and `level` breaks rule `e`. */
  predicate Breaks(t: string, score: real, level: real, e: ValidationError)
  {
    match e
    case NameRequired => |t| == 0
    case NameTooLong => |t| > MaxNameLength
    case NameBadCharacters => !MatchesNamePattern(t)
    case ScoreInvalid => !IsInteger(score) || score < 0.0
    case LevelInvalid => !IsInteger(level) || level < 1.0
  }

  /** Whether `(name, score, level)` breaks rule `e`; every name rule looks at the trimmed name. */
  predicate Violates(name: string, score: real, level: real, e: ValidationError)
  {
    Breaks(Trim(name), score, level, e)
  }

  /** The rule checked in position `k`. */
  function RuleAt(k: nat): (e: ValidationError)
    requires k < 5
    ensures Rank(e) == k
  {
    [NameRequired, NameTooLong, NameBadCharacters, ScoreInvalid, LevelInvalid][k]
  }

  predicate RankOrdered(s: seq<ValidationError>)
  {
    forall i, j :: 0 <= i < j < |s| ==> Rank(s[i]) < Rank(s[j])
  }

  /** The rules in `broken` from position `k` on, in rule order. */
  function BrokenFrom(k: nat, broken: set<ValidationError>): (r: seq<ValidationError>)
    requires k <= 5
    ensures forall e :: e in r <==> e in broken && Rank(e) >= k
    ensures forall i :: 0 <= i < |r| ==> Rank(r[i]) >= k
    ensures RankOrdered(r)
    decreases 5 - k
  {
    if k == 5 then []
    else
      var rest := BrokenFrom(k + 1, broken);
      assert forall e: ValidationError :: Rank(e) == k ==> e == RuleAt(k);
      (if RuleAt(k) in broken then [RuleAt(k)] else []) + rest
  }

  datatype Validation = Validation(isValid: bool, errors: seq<ValidationError>)

  /**
   * validateScoreData (D1P92.js:307-334): reports every broken rule, each
   * once and in rule order, and is valid exactly when none is broken.
   */
  function ValidateScoreData(name: string, score: real, level: real): (r: Validation)
    ensures forall e :: e in r.errors <==> Violates(name, score, level, e)
    ensures forall i, j :: 0 <= i < j < |r.errors| ==> Rank(r.errors[i]) < Rank(r.errors[j])
    ensures r.isValid <==> r.errors == []
  {
    var t := Trim(name);
    var broken := set e: ValidationError | Breaks(t, score, level, e);
    var errors := BrokenFrom(0, broken);
    Validation(errors == [], errors)
  }

  /** The rules spelled out: valid exactly for a 1-20 character name of allowed characters and whole, in-range numbers. */
  lemma ValidIff(name: string, score: real, level: real)
    ensures ValidateScoreData(name, score, level).isValid <==>
      && 1 <= |Trim(name)| <= MaxNameLength
      && (forall i :: 0 <= i < |Trim(name)| ==> IsNameChar(Trim(name)[i]))
      && IsInteger(score) && score >= 0.0
      && IsInteger(level) && level >= 1.0
  {
    var v := ValidateScoreData(name, score, level);
    if !v.isValid {
      var e := v.errors[0];
      assert Violates(name, score, level, e);
    } else {
      assert !Violates(name, score, level, NameRequired);
      assert !Violates(name, score, level, NameTooLong);
      assert !Violates(name, score, level, NameBadCharacters);
      assert !Violates(name, score, level, ScoreInvalid);
      assert !Violates(name, score, level, LevelInvalid);
    }
  }

  /** A blank name breaks two rules at once: it is missing, and it does not match the pattern. */
  lemma BlankNameTwoErrors(name: string, score: real, level: real)
    requires AllWhitespace(name)
    ensures var v := ValidateScoreData(name, score, level);
      |v.errors| >= 2 && v.errors[0] == NameRequired && v.errors[1] == NameBadCharacters
  {
    var v := ValidateScoreData(name, score, level);
    assert Violates(name, score, level, NameRequired);
    assert Violates(name, score, level, NameBadCharacters);
    assert !Violates(name, score, level, NameTooLong);
    assert NameRequired in v.errors && NameBadCharacters in v.errors;
  }

  /** An accepted name is between 1 and 20 characters once trimmed. */
  lemma ValidNameLength(name: string, score: real, level: real)
    ensures ValidateScoreData(name, score, level).isValid ==> 1 <= |Trim(name)| <= MaxNameLength
  {
    if ValidateScoreData(name, score, level).isValid {
      assert !Violates(name, score, level, NameRequired);
      assert !Violates(name, score, level, NameTooLong);
    }
  }

  /** A whole score of at least 0 and a whole level of at least 1 never fail: only the name can. */
  lemma WholeNumbersPass(name: string, score: nat, level: nat)
    requires level >= 1
    ensures var errors := ValidateScoreData(name, score as real, level as real).errors;
      forall e :: e in errors ==> e == NameRequired || e == NameTooLong || e == NameBadCharacters
  {
    assert !Violates(name, score as real, level as real, ScoreInvalid);
    assert !Violates(name, score as real, level as real, LevelInvalid);
  }

  // ------------------------------------------------------------ saveScore

  /** Where a result came from: `'server'`, `'localStorage'` or `'none'`. */
  datatype Source = Server | LocalStorage | NoSource

  /**
   * Result of saveScore: `reply` is the server's body on the server path;
   * `record` is the score data that was sent (and, on the local path, stored);
   * `storage` is the local slot afterwards; `attempts` counts requests.
   */
  datatype SaveOutcome<A> = SaveOutcome(success: bool, source: Source, reply: Option<A>,
                                        record: ScoreRecord, storage: Storage, attempts: nat)

  /**
   * saveScore (D1P92.js:56-97): post the trimmed record with retries; if every
   * attempt fails, save it locally; if that write fails too, report failure.
   */
  function SaveScore<A>(name: string, score: int, level: int, outcomes: seq<Attempt<A>>,
                        st: Storage, writeOk: bool): (r: SaveOutcome<A>)
    ensures r.record == ScoreRecord(Trim(name), score, level, false)
    ensures 1 <= r.attempts <= MaxRetries + 1
    ensures r.source == Server <==> exists j :: 0 <= j <= MaxRetries && Succeeds(OutcomeAt(outcomes, j))
    ensures r.source == Server ==>
      && Succeeds(OutcomeAt(outcomes, r.attempts - 1))
      && r.reply == OutcomeAt(outcomes, r.attempts - 1).json && r.storage == st
    ensures r.source != Server ==> r.attempts == MaxRetries + 1 && r.reply.None?
    ensures r.source == LocalStorage <==> r.source != Server && writeOk
    ensures r.success <==> r.source != NoSource
    ensures r.source == LocalStorage ==> r.storage == SaveScoreLocally(st, r.record, writeOk).storage
    ensures r.source == NoSource ==> r.storage == st
  {
    var data := ScoreRecord(Trim(name), score, level, false);
    var f := FetchWithRetry(outcomes, MaxRetries);
    if f.value.Some? then SaveOutcome(true, Server, f.value, data, st, f.attempts)
    else
      var w := SaveScoreLocally(st, data, writeOk);
      if w.ok then SaveOutcome(true, LocalStorage, None, data, w.storage, f.attempts)
      else SaveOutcome(false, NoSource, None, data, st, f.attempts)
  }

  // ------------------------------------------------------------ getLeaderboard

  /**
   * The leaderboard body: an object with a `scores` list, the list itself, or
   * JSON `null` (a 2xx reply whose body is the literal `null`).
   */
  datatype LeaderboardReply = WithScores(scores: seq<ScoreRecord>) | Bare(list: seq<ScoreRecord>) | NullBody

  /** A request that got through with a `null` body: reading `result.scores` from it throws. */
  predicate IsNullReply(a: Attempt<LeaderboardReply>)
  {
    a.Response? && a.json == Some(NullBody)
  }

  /** `result.scores || result`, for a body that is not `null`. */
  function Unwrap(reply: LeaderboardReply): seq<ScoreRecord>
    requires !reply.NullBody?
  {
    match reply
    case WithScores(s) => s
    case Bare(l) => l
  }

  datatype Leaderboard = Leaderboard(success: bool, source: Source, data: seq<ScoreRecord>, attempts: nat)

  /**
   * getLeaderboard (D1P92.js:102-136): the server's list when a request gets
   * through with a usable body. Otherwise (every request failed, or the first
   * one that got through said `null`, so `result.scores` threw) it returns the
   * `limit` best local records. It always succeeds, because the local read
   * never fails.
   */
  function GetLeaderboard(limit: nat, outcomes: seq<Attempt<LeaderboardReply>>, st: Storage): (r: Leaderboard)
    ensures r.success && r.source != NoSource
    ensures 1 <= r.attempts <= MaxRetries + 1
    ensures forall j :: 0 <= j < r.attempts - 1 ==> !Succeeds(OutcomeAt(outcomes, j))
    ensures r.source == Server <==>
      (exists j :: 0 <= j <= MaxRetries && Succeeds(OutcomeAt(outcomes, j)))
      && !IsNullReply(OutcomeAt(outcomes, r.attempts - 1))
    ensures r.source == Server ==>
      && Succeeds(OutcomeAt(outcomes, r.attempts - 1))
      && !IsNullReply(OutcomeAt(outcomes, r.attempts - 1))
      && r.data == Unwrap(OutcomeAt(outcomes, r.attempts - 1).json.value)
    ensures r.source == LocalStorage ==>
      || (Succeeds(OutcomeAt(outcomes, r.attempts - 1)) && IsNullReply(OutcomeAt(outcomes, r.attempts - 1)))
      || (r.attempts == MaxRetries + 1 && forall j :: 0 <= j <= MaxRetries ==> !Succeeds(OutcomeAt(outcomes, j)))
    ensures r.source == LocalStorage ==>
      && r.data == GetLocalScores(st, limit)
      && |r.data| == MinInt(limit, |StoredRecords(st)|)
      && SortedDesc(r.data)
      && multiset(r.data) <= multiset(StoredRecords(st))
      && forall x, y :: x in r.data && y in multiset(StoredRecords(st)) - multiset(r.data) ==> x.score >= y.score
  {
    var f := FetchWithRetry(outcomes, MaxRetries);
    if f.value.Some? && !f.value.value.NullBody? then Leaderboard(true, Server, Unwrap(f.value.value), f.attempts)
    else Leaderboard(true, LocalStorage, GetLocalScores(st, limit), f.attempts)
  }

  // ------------------------------------------------------------ syncLocalScores

  /**
   * The records saved while the server was away (`filter(score => score.isLocal)`):
   * each local record as often as in `s`, no other record.
   */
  function LocalOnly(s: seq<ScoreRecord>): (r: seq<ScoreRecord>)
    ensures |r| <= |s|
    ensures forall x :: x in r <==> x in s && x.isLocal
    ensures forall x :: multiset(r)[x] == if x.isLocal then multiset(s)[x] else 0
    decreases |s|
  {
    if s == [] then []
    else
      assert s == [s[0]] + s[1..];
      (if s[0].isLocal then [s[0]] else []) + LocalOnly(s[1..])
  }

  /** The filter keeps order: it distributes over concatenation. */
  lemma {:induction false} LocalOnlyAppend(a: seq<ScoreRecord>, b: seq<ScoreRecord>)
    ensures LocalOnly(a + b) == LocalOnly(a) + LocalOnly(b)
    decreases |a|
  {
    if a == [] {
      assert a + b == b;
    } else {
      assert (a + b)[1..] == a[1..] + b;
      LocalOnlyAppend(a[1..], b);
    }
  }

  /** The attempt outcomes of the post for the `i`-th record (none beyond the sequence: unreachable). */
  function PostOutcomes<A>(outcomes: seq<seq<Attempt<A>>>, i: nat): seq<Attempt<A>>
  {
    if i < |outcomes| then outcomes[i] else []
  }

  /** Whether the post of the `i`-th record (a fetchWithRetry with the default budget) gets through. */
  predicate Delivered<A>(outcomes: seq<seq<Attempt<A>>>, i: nat)
  {
    FetchWithRetry(PostOutcomes(outcomes, i), MaxRetries).value.Some?
  }

  /** The records of `recs`, in order, whose post did not get through. */
  function Undelivered<A>(recs: seq<ScoreRecord>, outcomes: seq<seq<Attempt<A>>>): (r: seq<ScoreRecord>)
    ensures |r| <= |recs|
  {
    if recs == [] then []
    else
      var n := |recs| - 1;
      Undelivered(recs[..n], outcomes) + (if Delivered(outcomes, n) then [] else [recs[n]])
  }

  /** How many records of `recs` were delivered. */
  function CountDelivered<A>(recs: seq<ScoreRecord>, outcomes: seq<seq<Attempt<A>>>): nat
  {
    if recs == [] then 0
    else
      var n := |recs| - 1;
      CountDelivered(recs[..n], outcomes) + (if Delivered(outcomes, n) then 1 else 0)
  }

  /** Every record is either delivered or reported, and only records of the list are reported. */
  lemma {:induction false} UndeliveredPartition<A>(recs: seq<ScoreRecord>, outcomes: seq<seq<Attempt<A>>>)
    ensures CountDelivered(recs, outcomes) + |Undelivered(recs, outcomes)| == |recs|
    ensures forall x :: x in Undelivered(recs, outcomes) ==> x in recs
    decreases |recs|
  {
    if recs != [] {
      var n := |recs| - 1;
      UndeliveredPartition(recs[..n], outcomes);
      forall x | x in Undelivered(recs[..n], outcomes) ensures x in recs {
        assert x in recs[..n];
      }
    }
  }

  /** The records syncLocalScores posts: the locally saved ones among the best 100. */
  function PendingSync(st: Storage): (r: seq<ScoreRecord>)
    ensures |r| <= MaxLocalScores
    ensures forall x :: x in r <==> x in GetLocalScores(st, MaxLocalScores) && x.isLocal
    ensures forall x :: multiset(r)[x] == if x.isLocal then multiset(GetLocalScores(st, MaxLocalScores))[x] else 0
  {
    LocalOnly(GetLocalScores(st, MaxLocalScores))
  }

  datatype SyncResult = SyncResult(success: bool, synced: nat, errors: seq<ScoreRecord>)

  /** The loop of syncLocalScores: post each record in turn, counting deliveries and collecting failures. */
  method PostAll<A>(pending: seq<ScoreRecord>, outcomes: seq<seq<Attempt<A>>>) returns (synced: nat, errors: seq<ScoreRecord>)
    ensures errors == Undelivered(pending, outcomes)
    ensures synced == CountDelivered(pending, outcomes)
  {
    synced := 0;
    errors := [];
    var i := 0;
    while i < |pending|
      invariant 0 <= i <= |pending|
      invariant errors == Undelivered(pending[..i], outcomes)
      invariant synced == CountDelivered(pending[..i], outcomes)
    {
      if Delivered(outcomes, i) {
        synced := synced + 1;
      } else {
        errors := errors + [pending[i]];
      }
      assert pending[..i + 1][..i] == pending[..i];
      i := i + 1;
    }
    assert pending[..i] == pending;
  }

  /**
   * syncLocalScores (D1P92.js:196-234): post every locally saved record of the
   * best 100, one at a time with retries; count the ones that get through and
   * report the others. The local slot is only read.
   */
  method SyncLocalScores<A>(st: Storage, outcomes: seq<seq<Attempt<A>>>) returns (r: SyncResult)
    ensures var pending := PendingSync(st);
      && r.errors == Undelivered(pending, outcomes)
      && r.synced == CountDelivered(pending, outcomes)
      && r.synced + |r.errors| == |pending|
      && (r.success <==> r.errors == [])
      && (pending == [] ==> r == SyncResult(true, 0, []))
    ensures forall x :: x in r.errors ==> x.isLocal
  {
    var pending := PendingSync(st);
    UndeliveredPartition(pending, outcomes);
    if |pending| == 0 {
      return SyncResult(true, 0, []);
    }
    var synced, errors := PostAll(pending, outcomes);
    r := SyncResult(|errors| == 0, synced, errors);
  }
}
