/**
 * The local fallback store of ScoreAPI (D1P92.js:141-191, 251-275): one list of
 * score records kept in browser storage, read back sorted by score (highest
 * first) and capped at 100 records on every write.
 */
module ScoreStore {
  import opened Wrappers

  const MaxLocalScores: nat := 100
  const StatsReadLimit: nat := 1000
  const RecentGamesShown: nat := 5

  /** A stored score; `isLocal` marks records that never reached the server. */
  datatype ScoreRecord = ScoreRecord(playerName: string, score: int, level: int, isLocal: bool)

  /**
   * The storage slot: nothing stored yet, a list, or a slot that cannot be
   * used (storage disabled, or text that does not parse as a list).
   */
  datatype Storage = Absent | Stored(records: seq<ScoreRecord>) | Unreadable

  function StoredRecords(st: Storage): seq<ScoreRecord>
  {
    if st.Stored? then st.records else []
  }

  predicate SortedDesc(s: seq<ScoreRecord>)
  {
    forall i, j :: 0 <= i < j < |s| ==> s[i].score >= s[j].score
  }

  /** Number of records in `s` whose score is at least `score`. */
  function CountAtLeast(s: seq<ScoreRecord>, score: int): (n: nat)
    ensures n <= |s|
    decreases |s|
  {
    if s == [] then 0 else (if s[0].score >= score then 1 else 0) + CountAtLeast(s[1..], score)
  }

  // ---------------------------------------------------------------- sorting

  /**
   * Insert `x` after every leading record whose score is at least its own:
   * the step of a stable sort by descending score.
   */
  function InsertDesc(x: ScoreRecord, s: seq<ScoreRecord>): (r: seq<ScoreRecord>)
    ensures |r| == |s| + 1
    ensures multiset(r) == multiset(s) + multiset{x}
    decreases |s|
  {
    if s == [] || s[0].score < x.score then [x] + s
    else
      assert s == [s[0]] + s[1..];
      [s[0]] + InsertDesc(x, s[1..])
  }

  /** Every record of `s` scores at most `b`. */
  predicate AllAtMost(s: seq<ScoreRecord>, b: int)
  {
    forall i :: 0 <= i < |s| ==> s[i].score <= b
  }

  /** Inserting keeps a bound that both the list and the new record respect. */
  lemma {:induction false} InsertDescBounded(x: ScoreRecord, s: seq<ScoreRecord>, b: int)
    requires AllAtMost(s, b) && x.score <= b
    ensures AllAtMost(InsertDesc(x, s), b)
  {
    var r := InsertDesc(x, s);
    forall i | 0 <= i < |r| ensures r[i].score <= b {
      assert r[i] in multiset(s) + multiset{x};
      assert r[i] == x || r[i] in s;
    }
  }

  /** Inserting into a sorted list keeps it sorted. */
  lemma {:induction false} InsertDescSorted(x: ScoreRecord, s: seq<ScoreRecord>)
    requires SortedDesc(s)
    ensures SortedDesc(InsertDesc(x, s))
    decreases |s|
  {
    if s != [] && s[0].score >= x.score {
      var tail := s[1..];
      assert SortedDesc(tail);
      InsertDescSorted(x, tail);
      var rest := InsertDesc(x, tail);
      assert AllAtMost(tail, s[0].score) by {
        forall i | 0 <= i < |tail| ensures tail[i].score <= s[0].score {
          assert tail[i] == s[i + 1];
        }
      }
      InsertDescBounded(x, tail, s[0].score);
      var r := [s[0]] + rest;
      assert InsertDesc(x, s) == r;
      forall i, j | 0 <= i < j < |r| ensures r[i].score >= r[j].score {
        if i == 0 {
          assert r[j] == rest[j - 1];
        } else {
          assert r[i] == rest[i - 1] && r[j] == rest[j - 1];
        }
      }
    } else if s != [] {
      var r := [x] + s;
      assert InsertDesc(x, s) == r;
      forall i, j | 0 <= i < j < |r| ensures r[i].score >= r[j].score {
        if i == 0 {
          assert r[j] == s[j - 1];
          assert s[0].score >= s[j - 1].score;
        } else {
          assert r[i] == s[i - 1] && r[j] == s[j - 1];
        }
      }
    }
  }

  /**
   * `Array.prototype.sort` with comparator `(a, b) => b.score - a.score`: a
   * stable sort by descending score, here as insertion of each element in turn.
   */
  function SortDesc(s: seq<ScoreRecord>): (r: seq<ScoreRecord>)
    ensures |r| == |s|
    ensures SortedDesc(r)
    ensures multiset(r) == multiset(s)
    decreases |s|
  {
    if s == [] then []
    else
      var n := |s| - 1;
      assert s == s[..n] + [s[n]];
      InsertDescSorted(s[n], SortDesc(s[..n]));
      InsertDesc(s[n], SortDesc(s[..n]))
  }

  /** A record no higher than everything in a list goes to its end. */
  lemma {:induction false} InsertDescAtEnd(x: ScoreRecord, s: seq<ScoreRecord>)
    requires forall i :: 0 <= i < |s| ==> s[i].score >= x.score
    ensures InsertDesc(x, s) == s + [x]
    decreases |s|
  {
    if s != [] {
      InsertDescAtEnd(x, s[1..]);
      assert s == [s[0]] + s[1..];
    }
  }

  /** Sorting a list that is already sorted leaves it as it is (stability). */
  lemma {:induction false} SortDescOfSorted(s: seq<ScoreRecord>)
    requires SortedDesc(s)
    ensures SortDesc(s) == s
    decreases |s|
  {
    if s != [] {
      var n := |s| - 1;
      assert SortedDesc(s[..n]);
      SortDescOfSorted(s[..n]);
      InsertDescAtEnd(s[n], s[..n]);
      assert s[..n] + [s[n]] == s;
    }
  }

  /**
   * In a sorted list, a new record lands right after all records that score at
   * least as much as it does: ties keep the older records first.
   */
  lemma {:induction false} InsertDescPosition(x: ScoreRecord, s: seq<ScoreRecord>)
    requires SortedDesc(s)
    ensures var p := CountAtLeast(s, x.score);
      InsertDesc(x, s) == s[..p] + [x] + s[p..]
    decreases |s|
  {
    if s != [] {
      if s[0].score < x.score {
        CountAtLeastZero(s, x.score);
      } else {
        InsertDescPosition(x, s[1..]);
        var p := CountAtLeast(s[1..], x.score);
        assert s[..p + 1] == [s[0]] + s[1..][..p];
        assert s[p + 1..] == s[1..][p..];
      }
    }
  }

  lemma {:induction false} CountAtLeastZero(s: seq<ScoreRecord>, score: int)
    requires SortedDesc(s)
    requires s != [] ==> s[0].score < score
    ensures CountAtLeast(s, score) == 0
    decreases |s|
  {
    if s != [] {
      assert SortedDesc(s[1..]);
      if s[1..] != [] { assert s[1..][0] == s[1]; }
      CountAtLeastZero(s[1..], score);
    }
  }

  // -------------------------------------------------------------- stability

  /** The records of `s` that score exactly `v`, in their order in `s`. */
  function WithScore(s: seq<ScoreRecord>, v: int): (r: seq<ScoreRecord>)
    ensures |r| <= |s|
    decreases |s|
  {
    if s == [] then []
    else (if s[0].score == v then [s[0]] else []) + WithScore(s[1..], v)
  }

  lemma {:induction false} WithScoreAppend(a: seq<ScoreRecord>, b: seq<ScoreRecord>, v: int)
    ensures WithScore(a + b, v) == WithScore(a, v) + WithScore(b, v)
    decreases |a|
  {
    if a == [] {
      assert a + b == b;
    } else {
      var ab := a + b;
      assert ab[0] == a[0];
      assert ab[1..] == a[1..] + b;
      WithScoreAppend(a[1..], b, v);
      var h := if a[0].score == v then [a[0]] else [];
      assert WithScore(ab, v) == h + WithScore(a[1..] + b, v);
      assert WithScore(a, v) == h + WithScore(a[1..], v);
      assert h + (WithScore(a[1..], v) + WithScore(b, v)) == (h + WithScore(a[1..], v)) + WithScore(b, v);
    }
  }

  /** A list scoring below `v` throughout has no record scoring `v`. */
  lemma {:induction false} WithScoreNone(s: seq<ScoreRecord>, v: int)
    requires forall i :: 0 <= i < |s| ==> s[i].score < v
    ensures WithScore(s, v) == []
    decreases |s|
  {
    if s != [] {
      assert forall i :: 0 <= i < |s| - 1 ==> s[1..][i] == s[i + 1];
      WithScoreNone(s[1..], v);
    }
  }

  /** Picking the records of one score from a list, split at its first record. */
  lemma WithScoreCons(h: ScoreRecord, t: seq<ScoreRecord>, v: int)
    ensures WithScore([h] + t, v) == (if h.score == v then [h] else []) + WithScore(t, v)
  {
    assert ([h] + t)[1..] == t;
  }

  /** Inserting into a sorted list puts the new record after every record with its score. */
  lemma {:induction false} InsertDescWithScore(x: ScoreRecord, t: seq<ScoreRecord>, v: int)
    requires SortedDesc(t)
    ensures WithScore(InsertDesc(x, t), v) == WithScore(t, v) + (if x.score == v then [x] else [])
    decreases |t|
  {
    if t == [] || t[0].score < x.score {
      InsertDescFront(x, t, v);
    } else {
      var tail := t[1..];
      SortedTail(t);
      InsertDescWithScore(x, tail, v);
      InsertDescSkip(x, t);
      WithScoreCons(t[0], InsertDesc(x, tail), v);
      assert t == [t[0]] + tail;
      WithScoreCons(t[0], tail, v);
    }
  }

  lemma SortedTail(t: seq<ScoreRecord>)
    requires SortedDesc(t) && t != []
    ensures SortedDesc(t[1..])
  {
    forall i, j | 0 <= i < j < |t| - 1 ensures t[1..][i].score >= t[1..][j].score {
      assert t[1..][i] == t[i + 1] && t[1..][j] == t[j + 1];
    }
  }

  /** A record scoring no more than the head is inserted into the tail. */
  lemma InsertDescSkip(x: ScoreRecord, t: seq<ScoreRecord>)
    requires t != [] && t[0].score >= x.score
    ensures InsertDesc(x, t) == [t[0]] + InsertDesc(x, t[1..])
  {
  }

  /** The base case: the new record goes in front of a sorted list scoring below it. */
  lemma InsertDescFront(x: ScoreRecord, t: seq<ScoreRecord>, v: int)
    requires SortedDesc(t) && (t == [] || t[0].score < x.score)
    ensures WithScore(InsertDesc(x, t), v) == WithScore(t, v) + (if x.score == v then [x] else [])
  {
    assert InsertDesc(x, t) == [x] + t;
    WithScoreCons(x, t, v);
    if x.score == v {
      WithScoreNone(t, v);
    }
  }

  /**
   * The sort is stable: among records with the same score, the sorted list
   * keeps the order of the input (as `Array.prototype.sort` does).
   */
  lemma {:induction false} SortDescStable(s: seq<ScoreRecord>, v: int)
    ensures WithScore(SortDesc(s), v) == WithScore(s, v)
    decreases |s|
  {
    if s != [] {
      var n := |s| - 1;
      var init := s[..n];
      SortDescStable(init, v);
      InsertDescWithScore(s[n], SortDesc(init), v);
      assert SortDesc(s) == InsertDesc(s[n], SortDesc(init));
      WithScoreLast(s, v);
    }
  }

  /** Picking the records of one score from a list, split at its last record. */
  lemma WithScoreLast(s: seq<ScoreRecord>, v: int)
    requires s != []
    ensures var n := |s| - 1;
      WithScore(s, v) == WithScore(s[..n], v) + (if s[n].score == v then [s[n]] else [])
  {
    var n := |s| - 1;
    assert s == s[..n] + [s[n]];
    WithScoreAppend(s[..n], [s[n]], v);
    assert [s[n]][1..] == [];
  }

  /** Removing a prefix from the whole leaves the suffix. */
  lemma MultisetSuffix(s: seq<ScoreRecord>, m: nat)
    requires m <= |s|
    ensures multiset(s) - multiset(s[..m]) == multiset(s[m..])
  {
    assert s == s[..m] + s[m..];
  }

  /** In a sorted list every record of a prefix scores at least every record after it. */
  lemma PrefixBeatsRest(s: seq<ScoreRecord>, m: nat)
    requires SortedDesc(s) && m <= |s|
    ensures forall x, y :: x in s[..m] && y in multiset(s) - multiset(s[..m]) ==> x.score >= y.score
  {
    MultisetSuffix(s, m);
    forall x, y | x in s[..m] && y in s[m..] ensures x.score >= y.score {
      var i :| 0 <= i < m && s[..m][i] == x;
      var j :| 0 <= j < |s| - m && s[m..][j] == y;
      assert s[i] == x && s[m + j] == y;
    }
  }

  /** A prefix of a sorted list is sorted. */
  lemma SortedPrefix(s: seq<ScoreRecord>, m: nat)
    requires SortedDesc(s) && m <= |s|
    ensures SortedDesc(s[..m])
  {
  }

  /** A prefix takes no record more often than the whole list has it. */
  lemma PrefixSubMultiset(s: seq<ScoreRecord>, m: nat)
    requires m <= |s|
    ensures multiset(s[..m]) <= multiset(s)
  {
    assert s == s[..m] + s[m..];
  }

  /** The first m records of the sorted list are m records of the list, none beaten by the others. */
  lemma TopOfSorted(s: seq<ScoreRecord>, m: nat)
    requires m <= |s|
    ensures var top := SortDesc(s)[..m];
      && SortedDesc(top)
      && multiset(top) <= multiset(s)
      && forall x, y :: x in top && y in multiset(s) - multiset(top) ==> x.score >= y.score
  {
    var sorted := SortDesc(s);
    SortedPrefix(sorted, m);
    PrefixSubMultiset(sorted, m);
    PrefixBeatsRest(sorted, m);
  }

  // ------------------------------------------------------------ operations

  /**
   * getLocalScores (D1P92.js:163-177): the `limit` highest-scoring stored
   * records, highest first. A missing or unusable slot reads as empty; the
   * read never fails.
   */
  function GetLocalScores(st: Storage, limit: nat): (r: seq<ScoreRecord>)
    ensures |r| == MinInt(limit, |StoredRecords(st)|)
    ensures SortedDesc(r)
    ensures multiset(r) <= multiset(StoredRecords(st))
    ensures forall x, y :: x in r && y in multiset(StoredRecords(st)) - multiset(r) ==> x.score >= y.score
    ensures !st.Stored? ==> r == []
  {
    var sorted := SortDesc(StoredRecords(st));
    var m := MinInt(limit, |sorted|);
    TopOfSorted(StoredRecords(st), m);
    sorted[..m]
  }

  /**
   * Ties at the cut: for every score, the records of that score that a read
   * returns are the earliest stored ones of that score, in stored order.
   */
  lemma GetLocalScoresKeepsEarliestTies(st: Storage, limit: nat, v: int)
    ensures var w := WithScore(GetLocalScores(st, limit), v);
      |w| <= |WithScore(StoredRecords(st), v)| && w == WithScore(StoredRecords(st), v)[..|w|]
  {
    var sorted := SortDesc(StoredRecords(st));
    var m := MinInt(limit, |sorted|);
    assert sorted == sorted[..m] + sorted[m..];
    WithScoreAppend(sorted[..m], sorted[m..], v);
    SortDescStable(StoredRecords(st), v);
  }

  /** Outcome of a write to the storage slot: whether it went through, and the slot afterwards. */
  datatype LocalWrite = LocalWrite(ok: bool, storage: Storage)

  /** The record as saveScoreLocally stores it: tagged as local (D1P92.js:144-148). */
  function TagLocal(data: ScoreRecord): ScoreRecord { data.(isLocal := true) }

  /**
   * saveScoreLocally (D1P92.js:141-158): read the best 100, add the new record
   * tagged as local, sort by score, keep the best 100 and write the list back.
   * `writeOk` says whether the storage accepts the write; when it does not,
   * the call fails and the slot is unchanged.
   */
  function SaveScoreLocally(st: Storage, data: ScoreRecord, writeOk: bool): (r: LocalWrite)
    ensures !writeOk ==> r == LocalWrite(false, st)
    ensures writeOk ==> r.ok && r.storage.Stored?
    ensures writeOk ==> InsertedCapped(GetLocalScores(st, MaxLocalScores), TagLocal(data), r.storage.records)
    ensures writeOk ==> |r.storage.records| == MinInt(MinInt(|StoredRecords(st)|, MaxLocalScores) + 1, MaxLocalScores)
  {
    if !writeOk then LocalWrite(false, st)
    else
      var top := GetLocalScores(st, MaxLocalScores);
      var sorted := SortDesc(top + [TagLocal(data)]);
      var kept := sorted[..MinInt(|sorted|, MaxLocalScores)];
      CappedInsert(top, TagLocal(data));
      LocalWrite(true, Stored(kept))
  }

  /**
   * `rs` is the sorted list `top` with `x` added and cut to 100 records: `x`
   * lands right after every record scoring at least as much (older records
   * first on ties), or is dropped when that position is past 100.
   */
  predicate InsertedCapped(top: seq<ScoreRecord>, x: ScoreRecord, rs: seq<ScoreRecord>)
  {
    var p := CountAtLeast(top, x.score);
    && SortedDesc(rs)
    && |rs| == MinInt(|top| + 1, MaxLocalScores)
    && multiset(rs) <= multiset(top) + multiset{x}
    && (p < MaxLocalScores ==> rs[p] == x && rs[..p] == top[..p])
    && (p >= MaxLocalScores ==> rs == top)
    && rs == (top[..p] + [x] + top[p..])[..MinInt(|top| + 1, MaxLocalScores)]
  }

  /** What append, sort and keep-100 do to a sorted list of at most 100 records. */
  lemma CappedInsert(top: seq<ScoreRecord>, x: ScoreRecord)
    requires SortedDesc(top) && |top| <= MaxLocalScores
    ensures var sorted := SortDesc(top + [x]);
      InsertedCapped(top, x, sorted[..MinInt(|sorted|, MaxLocalScores)])
  {
    var sorted := SortDesc(top + [x]);
    var p := CountAtLeast(top, x.score);
    SortedAppendShape(top, x);
    CapFacts(top, x, sorted, p);
  }

  lemma SortedAppendShape(top: seq<ScoreRecord>, x: ScoreRecord)
    requires SortedDesc(top)
    ensures var p := CountAtLeast(top, x.score);
      SortDesc(top + [x]) == top[..p] + [x] + top[p..]
  {
    var all := top + [x];
    assert all[..|top|] == top;
    assert all[|top|] == x;
    SortDescOfSorted(top);
    InsertDescPosition(x, top);
  }

  lemma CapFacts(top: seq<ScoreRecord>, x: ScoreRecord, sorted: seq<ScoreRecord>, p: nat)
    requires p <= |top| <= MaxLocalScores
    requires sorted == top[..p] + [x] + top[p..]
    requires SortedDesc(sorted) && multiset(sorted) == multiset(top) + multiset{x}
    ensures var rs := sorted[..MinInt(|sorted|, MaxLocalScores)];
      && SortedDesc(rs)
      && |rs| == MinInt(|top| + 1, MaxLocalScores)
      && multiset(rs) <= multiset(top) + multiset{x}
      && (p < MaxLocalScores ==> rs[p] == x && rs[..p] == top[..p])
      && (p >= MaxLocalScores ==> rs == top)
  {
    var m := MinInt(|sorted|, MaxLocalScores);
    var rs := sorted[..m];
    assert sorted == rs + sorted[m..];
    assert multiset(sorted) == multiset(rs) + multiset(sorted[m..]);
    if p < MaxLocalScores {
      assert rs[p] == sorted[p];
      assert rs[..p] == sorted[..p];
    } else {
      assert rs == sorted[..|top|];
    }
  }

  /**
   * clearLocalScores (D1P92.js:182-191): `removeOk` says whether the storage
   * allows the removal. On success nothing is stored any more.
   */
  function ClearLocalScores(st: Storage, removeOk: bool): (r: LocalWrite)
    ensures r.ok == removeOk
    ensures r.ok ==> forall limit: nat :: GetLocalScores(r.storage, limit) == []
    ensures !r.ok ==> r.storage == st
  {
    if removeOk then LocalWrite(true, Absent) else LocalWrite(false, st)
  }

  // ---------------------------------------------------------------- stats

  datatype PlayerStats = PlayerStats(
    totalGames: nat,
    bestScore: int,
    bestLevel: int,
    averageScore: int,
    recentGames: seq<ScoreRecord>)

  function SumScores(s: seq<ScoreRecord>): int
    decreases |s|
  {
    if s == [] then 0 else s[0].score + SumScores(s[1..])
  }

  /** The highest score in a non-empty list. */
  function MaxScore(s: seq<ScoreRecord>): (m: int)
    requires s != []
    ensures forall i :: 0 <= i < |s| ==> s[i].score <= m
    ensures exists i :: 0 <= i < |s| && s[i].score == m
    decreases |s|
  {
    if |s| == 1 then s[0].score
    else
      var rest := MaxScore(s[1..]);
      assert forall i :: 1 <= i < |s| ==> s[i] == s[1..][i - 1];
      if s[0].score >= rest then s[0].score else rest
  }

  /** The highest level in a non-empty list. */
  function MaxLevel(s: seq<ScoreRecord>): (m: int)
    requires s != []
    ensures forall i :: 0 <= i < |s| ==> s[i].level <= m
    ensures exists i :: 0 <= i < |s| && s[i].level == m
    decreases |s|
  {
    if |s| == 1 then s[0].level
    else
      var rest := MaxLevel(s[1..]);
      assert forall i :: 1 <= i < |s| ==> s[i] == s[1..][i - 1];
      if s[0].level >= rest then s[0].level else rest
  }

  /**
   * Math.round(sum / n) for n > 0: the integer nearest to the mean, halves
   * rounded up.
   */
  function RoundedMean(sum: int, n: nat): (r: int)
    requires n > 0
    ensures 2 * n * r <= 2 * sum + n < 2 * n * (r + 1)
  {
    var q := (2 * sum + n) / (2 * n);
    DivBounds(2 * sum + n, 2 * n, q);
    q
  }

  lemma DivBounds(a: int, d: int, q: int)
    requires d > 0 && q == a / d
    ensures d * q <= a < d * (q + 1)
  {
    assert a == d * q + a % d;
  }

  lemma {:induction false} SumAtMostCountTimesMax(s: seq<ScoreRecord>, m: int)
    requires forall i :: 0 <= i < |s| ==> s[i].score <= m
    ensures SumScores(s) <= |s| * m
    decreases |s|
  {
    if s != [] {
      assert forall i :: 1 <= i < |s| ==> s[i] == s[1..][i - 1];
      SumAtMostCountTimesMax(s[1..], m);
      assert |s| * m == m + (|s| - 1) * m;
    }
  }

  /** A rounded mean of values no larger than `m` is no larger than `m`. */
  lemma RoundedMeanAtMost(sum: int, n: nat, m: int)
    requires n > 0 && sum <= n * m
    ensures RoundedMean(sum, n) <= m
  {
    var r := RoundedMean(sum, n);
    var k := 2 * n;
    assert k * r <= 2 * sum + n;
    assert 2 * sum <= k * m;
    assert k * (m + 1) == k * m + k;
    MulStrictCancel(k, r, m + 1);
  }

  lemma {:induction false} MulLeft(k: nat, a: int, b: int)
    requires a <= b
    ensures k * a <= k * b
    decreases k
  {
    if k > 0 {
      MulLeft(k - 1, a, b);
      assert k * a == (k - 1) * a + a;
      assert k * b == (k - 1) * b + b;
    }
  }

  lemma MulStrictCancel(k: nat, a: int, b: int)
    requires k > 0 && k * a < k * b
    ensures a < b
  {
    if a >= b { MulLeft(k, b, a); }
  }

  /** The statistics of a list of records, as getPlayerStats computes them. */
  predicate StatsOf(s: seq<ScoreRecord>, r: PlayerStats)
  {
    && (s == [] ==> r == PlayerStats(0, 0, 0, 0, []))
    && (s != [] ==>
      && r.totalGames == |s|
      && (forall x :: x in s ==> x.score <= r.bestScore && x.level <= r.bestLevel)
      && (exists x :: x in s && x.score == r.bestScore)
      && (exists x :: x in s && x.level == r.bestLevel)
      && 2 * |s| * r.averageScore <= 2 * SumScores(s) + |s| < 2 * |s| * (r.averageScore + 1)
      && r.averageScore <= r.bestScore
      && r.recentGames == s[..MinInt(RecentGamesShown, |s|)])
  }

  function ComputeStats(s: seq<ScoreRecord>): (r: PlayerStats)
    ensures StatsOf(s, r)
  {
    if s == [] then PlayerStats(0, 0, 0, 0, [])
    else
      var best := MaxScore(s);
      SumAtMostCountTimesMax(s, best);
      RoundedMeanAtMost(SumScores(s), |s|, best);
      PlayerStats(|s|, best, MaxLevel(s), RoundedMean(SumScores(s), |s|), s[..MinInt(RecentGamesShown, |s|)])
  }

  /**
   * getPlayerStats (D1P92.js:251-275) over the best 1000 stored records: all
   * zero when nothing is stored; otherwise the count, the best score and level,
   * the rounded mean score (never above the best) and the first five of the
   * list, which being sorted by score are the five best rather than the most
   * recent.
   */
  function GetPlayerStats(st: Storage): (r: PlayerStats)
    ensures StatsOf(GetLocalScores(st, StatsReadLimit), r)
    ensures r.totalGames == MinInt(StatsReadLimit, |StoredRecords(st)|)
  {
    ComputeStats(GetLocalScores(st, StatsReadLimit))
  }
}
