/**
 * A worked run of the score client with the server unreachable: what a save
 * does to an empty store.
 */
module ScoreExamples {
  import opened JsString
  import opened ScoreStore
  import opened Retry
  import opened ScoreApi

  /** The first save into an empty store writes a one-record list. */
  lemma FirstLocalSave(data: ScoreRecord)
    ensures SaveScoreLocally(Absent, data, true).storage == Stored([TagLocal(data)])
  {
    var x := TagLocal(data);
    assert GetLocalScores(Absent, MaxLocalScores) == [];
    SortDescOfSorted([x]);
    assert ([] + [x])[..1] == [x];
  }

  /** A one-record store reads back as that record. */
  lemma SingleReadBack(x: ScoreRecord, limit: nat)
    requires limit >= 1
    ensures GetLocalScores(Stored([x]), limit) == [x]
  {
    SortDescOfSorted([x]);
    assert [x][..1] == [x];
  }

  /**
   * With the server down and an empty store, a save of an already trimmed
   * name costs four requests, is kept locally and reads back tagged as local.
   */
  lemma OfflineSaveIsKeptLocally(name: string, score: int, level: int)
    requires Trimmed(name)
    ensures var down: seq<Attempt<bool>> := [];
      var r := SaveScore(name, score, level, down, Absent, true);
      && r.success && r.source == LocalStorage && r.attempts == 4
      && GetLocalScores(r.storage, 10) == [ScoreRecord(name, score, level, true)]
  {
    TrimOfTrimmed(name);
    var data := ScoreRecord(name, score, level, false);
    FirstLocalSave(data);
    SingleReadBack(TagLocal(data), 10);
  }
}
