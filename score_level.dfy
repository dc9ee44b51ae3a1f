/** The score_level derivation in its three variants: the loader's
    (`pl.when` chain), convert_to_hdf's (`np.select`), and the DuckDB
    dashboard's CASE with inclusive, capitalised bounds. */
module ScoreLevel {

  datatype Level = Low | Mid | High

  /** The label the loader and convert_to_hdf store. */
  function Label(l: Level): string {
    match l
    case Low => "low"
    case Mid => "mid"
    case High => "high"
  }

  /** The label the DuckDB dashboard's CASE produces. */
  function DashboardLabel(l: Level): string {
    match l
    case Low => "Low"
    case Mid => "Mid"
    case High => "High"
  }

  function Rank(l: Level): nat {
    match l
    case Low => 0
    case Mid => 1
    case High => 2
  }

  /** Score thresholds as the loader holds them after `sorted([a, b])`. */
  datatype Thresholds = Thresholds(t1: int, t2: int)

  /** `sorted(score_thresholds)` for the two thresholds the command line passes. */
  function SortThresholds(a: int, b: int): (r: Thresholds)
    ensures r.t1 <= r.t2
    ensures (r.t1 == a && r.t2 == b) || (r.t1 == b && r.t2 == a)
  {
    if a <= b then Thresholds(a, b) else Thresholds(b, a)
  }

  /** The loader's chain: below t1 is low, else below t2 is mid, else high. */
  function LevelOf(score: int, t: Thresholds): (r: Level)
    ensures r == Low <==> score < t.t1
    ensures r == Mid <==> t.t1 <= score < t.t2
    ensures r == High <==> t.t1 <= score && t.t2 <= score
  {
    if score < t.t1 then Low else if score < t.t2 then Mid else High
  }

  /** `np.select([SCORE < t1, (SCORE >= t1) & (SCORE < t2)], ["low", "mid"], "high")`. */
  function SelectLevel(score: int, t: Thresholds): Level {
    if score < t.t1 then Low
    else if score >= t.t1 && score < t.t2 then Mid
    else High
  }

  /** With sorted thresholds the three levels partition the scores: low exactly
      below t1, mid exactly on [t1, t2), high exactly from t2 up. */
  lemma LevelOfPartition(score: int, t: Thresholds)
    requires t.t1 <= t.t2
    ensures LevelOf(score, t) == Low <==> score < t.t1
    ensures LevelOf(score, t) == Mid <==> t.t1 <= score < t.t2
    ensures LevelOf(score, t) == High <==> t.t2 <= score
  {
  }

  /** The level never goes down as the score goes up. */
  lemma LevelOfMonotone(s1: int, s2: int, t: Thresholds)
    requires s1 <= s2
    ensures Rank(LevelOf(s1, t)) <= Rank(LevelOf(s2, t))
  {
  }

  /** convert_to_hdf's np.select gives the loader's level for every score. */
  lemma SelectAgreesWithLoader(score: int, t: Thresholds)
    ensures SelectLevel(score, t) == LevelOf(score, t)
  {
  }

  /** The dashboard's CASE: `SCORE <= low` is Low, `SCORE <= mid` is Mid, else High. */
  function DashboardLevel(score: int, low: int, mid: int): Level {
    if score <= low then Low else if score <= mid then Mid else High
  }

  /** The dashboard rejects `threshold_low >= threshold_mid` before building
      any query. */
  predicate DashboardThresholdsAccepted(low: int, mid: int) {
    low < mid
  }

  /** Inclusive integer bounds are the loader's exclusive bounds moved up by
      one; so the dashboard and the loader disagree exactly on scores that
      sit on a threshold. */
  lemma DashboardVersusLoader(score: int, low: int, mid: int)
    requires DashboardThresholdsAccepted(low, mid)
    ensures DashboardLevel(score, low, mid) == LevelOf(score, Thresholds(low + 1, mid + 1))
    ensures DashboardLevel(score, low, mid) != LevelOf(score, Thresholds(low, mid))
      <==> score == low || score == mid
  {
  }
}
