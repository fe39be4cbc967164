// calculateFocusIndex and getFocusLevelConfig of utils.ts. The index is
// computed over exact rationals; `Math.round(x)` is `floor(x + 1/2)`.
module Focus {

  /** Math.round for JavaScript numbers: halves round up. */
  function Round(x: real): int
  {
    (x + 0.5).Floor
  }

  lemma RoundShift(x: real, k: int)
    ensures Round(x - k as real) == Round(x) - k
  {
  }

  lemma RoundMonotone(x: real, y: real)
    requires x <= y
    ensures Round(x) <= Round(y)
  {
  }

  /**
   * The ratio term: the work share measured against the ideal share
   * 52 / (52 + 17), scaled so that the ideal scores 80, and capped at 100.
   */
  function RatioScore(workMs: int, breakMs: int): (r: real)
    requires workMs + breakMs != 0
    ensures r <= 100.0
  {
    var totalMs := workMs + breakMs;
    var idealRatio := 52.0 / (52.0 + 17.0);
    var currentRatio := workMs as real / totalMs as real;
    var score := currentRatio / idealRatio * 80.0;
    if score < 100.0 then score else 100.0
  }

  /** 1 + floor(workMinutes / 55): floor of a real quotient by a positive divisor is `/` on int. */
  function AllowedBreaks(workMs: int): int
  {
    1 + workMs / (60000 * 55)
  }

  function ExcessBreaks(workMs: int, breakCount: int): (r: int)
    ensures r >= 0
  {
    var e := breakCount - AllowedBreaks(workMs);
    if e > 0 then e else 0
  }

  /** The score before rounding: the ratio term less 5 per excess break. */
  function RawScore(workMs: int, breakMs: int, breakCount: int): real
    requires workMs + breakMs != 0
  {
    RatioScore(workMs, breakMs) - (ExcessBreaks(workMs, breakCount) * 5) as real
  }

  /** calculateFocusIndex. */
  function FocusIndex(workMs: int, breakMs: int, breakCount: int): (r: int)
    ensures 0 <= r <= 100
    ensures workMs + breakMs == 0 ==> r == 0
  {
    if workMs + breakMs == 0 then 0
    else
      var rounded := Round(RawScore(workMs, breakMs, breakCount));
      if rounded > 0 then rounded else 0
  }

  /** With work and break time fixed, more breaks never raise the index. */
  lemma FocusIndexAntitoneInBreaks(workMs: int, breakMs: int, c1: int, c2: int)
    requires c1 <= c2
    ensures FocusIndex(workMs, breakMs, c2) <= FocusIndex(workMs, breakMs, c1)
  {
    if workMs + breakMs != 0 {
      RoundMonotone(RawScore(workMs, breakMs, c2), RawScore(workMs, breakMs, c1));
    }
  }

  /**
   * Once the allowance is used up, each further break subtracts exactly 5
   * points (before the clamp at 0).
   */
  lemma FocusIndexExcessBreakCostsFive(workMs: int, breakMs: int, breakCount: int)
    requires workMs + breakMs != 0
    requires breakCount >= AllowedBreaks(workMs)
    ensures RawScore(workMs, breakMs, breakCount + 1) == RawScore(workMs, breakMs, breakCount) - 5.0
    ensures FocusIndex(workMs, breakMs, breakCount + 1)
      == (var r := Round(RawScore(workMs, breakMs, breakCount)) - 5; if r > 0 then r else 0)
  {
    RoundShift(RawScore(workMs, breakMs, breakCount), 5);
  }

  /** Breaks within the allowance cost nothing: 52 minutes of work and 17 of break score exactly 80. */
  lemma FocusIndexGoldenRatio()
    ensures FocusIndex(52 * 60000, 17 * 60000, 1) == 80
  {
    var r := RatioScore(52 * 60000, 17 * 60000);
    assert r == 80.0;
  }

  /** An over-ideal work share is capped at 100, not at 80. */
  lemma FocusIndexCappedAtHundred(workMs: int)
    requires workMs > 0
    ensures FocusIndex(workMs, 0, 1) == 100
  {
    var w := (workMs + 0) as real;
    assert w > 0.0;
    assert w / w == 1.0;
    assert RatioScore(workMs, 0) == 100.0;
  }

  // --- getFocusLevelConfig -------------------------------------------------

  datatype LevelConfig = LevelConfig(
    level: string,
    labelText: string,
    color: string,
    textClass: string,
    bgClass: string,
    barClass: string,
    gradientFrom: string,
    gradientTo: string,
    darkGradientFrom: string,
    darkGradientTo: string,
    subtleGradient: string)

  /** The ten background gradients, one per ten points, lowest first. */
  const SubtleGradients: seq<string> := [
    "from-pink-300 via-rose-200 to-red-300",
    "from-fuchsia-300 via-pink-200 to-rose-300",
    "from-purple-300 via-fuchsia-200 to-pink-300",
    "from-violet-300 via-purple-200 to-fuchsia-300",
    "from-indigo-300 via-violet-200 to-purple-300",
    "from-blue-300 via-indigo-200 to-violet-300",
    "from-sky-300 via-blue-200 to-indigo-300",
    "from-cyan-300 via-sky-200 to-blue-300",
    "from-teal-300 via-cyan-200 to-sky-300",
    "from-emerald-300 via-teal-200 to-cyan-300"
  ]

  /** The cascade of thresholds that picks the subtle gradient. */
  function SubtleGradient(score: int): string
  {
    if score >= 90 then "from-emerald-300 via-teal-200 to-cyan-300"
    else if score >= 80 then "from-teal-300 via-cyan-200 to-sky-300"
    else if score >= 70 then "from-cyan-300 via-sky-200 to-blue-300"
    else if score >= 60 then "from-sky-300 via-blue-200 to-indigo-300"
    else if score >= 50 then "from-blue-300 via-indigo-200 to-violet-300"
    else if score >= 40 then "from-indigo-300 via-violet-200 to-purple-300"
    else if score >= 30 then "from-violet-300 via-purple-200 to-fuchsia-300"
    else if score >= 20 then "from-purple-300 via-fuchsia-200 to-pink-300"
    else if score >= 10 then "from-fuchsia-300 via-pink-200 to-rose-300"
    else "from-pink-300 via-rose-200 to-red-300"
  }

  /** The cascade agrees with indexing the table by the tens digit, clamped to 0..9. */
  lemma SubtleGradientByTens(score: int)
    ensures SubtleGradient(score)
      == SubtleGradients[if score < 0 then 0 else if score >= 90 then 9 else score / 10]
  {
  }

  function Band(level: string, labelText: string, color: string, bar: string, gradient: string): LevelConfig
  {
    LevelConfig(level, labelText, color,
      "text-" + color + "-600 dark:text-" + color + "-400",
      "bg-" + color + "-50 dark:bg-" + color + "-900/20",
      bar,
      "from-" + color + "-50",
      "to-" + color + "-100/50",
      "dark:from-" + color + "-950/30",
      "dark:to-" + color + "-900/10",
      gradient)
  }

  /** getFocusLevelConfig: S from 90, A from 80, B from 60, C from 40, else D. */
  function FocusLevelConfig(score: int): LevelConfig
  {
    var g := SubtleGradient(score);
    if score >= 90 then Band("S", "최고의 몰입", "emerald", "bg-emerald-500", g)
    else if score >= 80 then Band("A", "훌륭한 집중", "cyan", "bg-cyan-500", g)
    else if score >= 60 then Band("B", "양호한 흐름", "blue", "bg-blue-500", g)
    else if score >= 40 then Band("C", "주의 분산", "violet", "bg-violet-400", g)
    else Band("D", "휴식 필요", "rose", "bg-rose-400", g)
  }

  /** Position of a level letter, D lowest. */
  function LevelRank(level: string): int
  {
    if level == "S" then 4 else if level == "A" then 3 else if level == "B" then 2
    else if level == "C" then 1 else 0
  }

  /** Each letter is given exactly on its band of scores. */
  lemma FocusLevelBands(score: int)
    ensures FocusLevelConfig(score).level == "S" <==> score >= 90
    ensures FocusLevelConfig(score).level == "A" <==> 80 <= score < 90
    ensures FocusLevelConfig(score).level == "B" <==> 60 <= score < 80
    ensures FocusLevelConfig(score).level == "C" <==> 40 <= score < 60
    ensures FocusLevelConfig(score).level == "D" <==> score < 40
  {
  }

  /** A higher score never gets a lower level. */
  lemma FocusLevelMonotone(s1: int, s2: int)
    requires s1 <= s2
    ensures LevelRank(FocusLevelConfig(s1).level) <= LevelRank(FocusLevelConfig(s2).level)
  {
  }
}
