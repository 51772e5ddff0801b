/** `score_and_message`: a 0..100 attractiveness score from RSI, P/E and the daily change,
    and the tier (colour, status label, advisory message) that the score falls into. */
module Scoring {
  import opened Wrappers

  /** Python's `int(x)` on a float: truncation toward zero. */
  function Trunc(x: real): (n: int)
    ensures x >= 0.0 ==> 0 <= n && n as real <= x < n as real + 1.0
    ensures x < 0.0 ==> n <= 0 && n as real - 1.0 < x <= n as real
  {
    if x >= 0.0 then x.Floor else -((-x).Floor)
  }

  function Abs(x: real): (a: real)
    ensures a >= 0.0 && (a == x || a == -x)
  {
    if x < 0.0 then -x else x
  }

  /** The band in which the RSI counts as neutral (both ends included). */
  predicate InNeutralBand(rsi: real) {
    30.0 <= rsi <= 70.0
  }

  /** The neutral-band reward `int(10 - |rsi - 50| / 2)`. */
  function NeutralBandPoints(rsi: real): int {
    Trunc(10.0 - Abs(rsi - 50.0) / 2.0)
  }

  /** RSI rule: oversold (+20), overbought (-20), else the neutral-band reward; nothing when
      the RSI is unavailable. */
  function RsiPoints(rsi: Option<real>): (p: int)
    ensures -20 <= p <= 20
  {
    match rsi
    case None => 0
    case Some(v) =>
      if v < 30.0 then 20
      else if v > 70.0 then -20
      else NeutralBandReward(v); NeutralBandPoints(v)
  }

  /** P/E rule: cheap (+10), moderate (+5), expensive (-5), very expensive (-10); nothing
      between 30 and 40 or when the P/E is unknown. */
  function PePoints(pe: Option<real>): (p: int)
    ensures -10 <= p <= 10
  {
    match pe
    case None => 0
    case Some(v) =>
      if v < 15.0 then 10
      else if v < 30.0 then 5
      else if v > 60.0 then -10
      else if v > 40.0 then -5
      else 0
  }

  /** Change rule: a rise above 5% costs 5, a fall below -5% earns 3. */
  function ChangePoints(changePct: Option<real>): (p: int)
    ensures -5 <= p <= 3
  {
    match changePct
    case None => 0
    case Some(v) =>
      if v > 5.0 then -5
      else if v < -5.0 then 3
      else 0
  }

  /** `max(0, min(100, x))`. */
  function Clamp(x: int): (c: int)
    ensures 0 <= c <= 100
    ensures 0 <= x <= 100 ==> c == x
  {
    if x > 100 then 100 else if x < 0 then 0 else x
  }

  /** The score `score_and_message` computes: 50 plus the three rule contributions, clamped. */
  function Score(rsi: Option<real>, pe: Option<real>, changePct: Option<real>): (s: int)
    ensures 0 <= s <= 100
  {
    Clamp(50 + RsiPoints(rsi) + PePoints(pe) + ChangePoints(changePct))
  }

  /** The three bands of the score: 75 and above, 55 to 74, below 55. */
  datatype Tier = Favourable | Selective | Defensive

  function TierOf(score: int): (t: Tier)
    ensures t == Favourable <==> score >= 75
    ensures t == Selective <==> 55 <= score < 75
    ensures t == Defensive <==> score < 55
  {
    if score >= 75 then Favourable
    else if score >= 55 then Selective
    else Defensive
  }

  const FavourableColor: string := "#2ecc71"
  const SelectiveColor: string := "#f1c40f"
  const DefensiveColor: string := "#e74c3c"

  const FavourableStatus: string := "긍정(우호적)"
  const SelectiveStatus: string := "중립(관망/선별)"
  const DefensiveStatus: string := "주의(방어적)"

  const FavourableMessage: string := "지표상 우호 구간일 수 있으나, 변동성/이벤트 리스크를 함께 점검하세요."
  const SelectiveMessage: string := "핵심 지표가 혼재합니다. 분할 접근·리스크 관리가 유리합니다."
  const DefensiveMessage: string := "단기 과열 또는 펀더멘털 부담 신호일 수 있습니다. 포지션 크기/손실 제한을 우선하세요."

  /** The colour, status label and advisory message shown for each band. */
  function TierColor(t: Tier): string {
    match t
    case Favourable => FavourableColor
    case Selective => SelectiveColor
    case Defensive => DefensiveColor
  }

  function TierStatus(t: Tier): string {
    match t
    case Favourable => FavourableStatus
    case Selective => SelectiveStatus
    case Defensive => DefensiveStatus
  }

  function TierMessage(t: Tier): string {
    match t
    case Favourable => FavourableMessage
    case Selective => SelectiveMessage
    case Defensive => DefensiveMessage
  }

  /** The dictionary `{"score", "color", "status", "msg"}` that `score_and_message` returns. */
  datatype ScoreResult = ScoreResult(score: int, color: string, status: string, msg: string)

  /** `score_and_message(rsi, pe, change_pct)`, accumulating the score rule by rule.
      A P/E of NaN is passed as `None`, as the source skips both alike. */
  method ScoreAndMessage(rsi: Option<real>, pe: Option<real>, changePct: Option<real>)
    returns (r: ScoreResult)
    ensures r.score == Score(rsi, pe, changePct)
    ensures 0 <= r.score <= 100
    ensures r.score >= 75 <==> r.color == FavourableColor
    ensures 55 <= r.score < 75 <==> r.color == SelectiveColor
    ensures r.score < 55 <==> r.color == DefensiveColor
    ensures r.color == FavourableColor ==> r.status == FavourableStatus && r.msg == FavourableMessage
    ensures r.color == SelectiveColor ==> r.status == SelectiveStatus && r.msg == SelectiveMessage
    ensures r.color == DefensiveColor ==> r.status == DefensiveStatus && r.msg == DefensiveMessage
    ensures r.color == TierColor(TierOf(r.score)) && r.status == TierStatus(TierOf(r.score))
            && r.msg == TierMessage(TierOf(r.score))
  {
    var score := 50;

    if rsi.Some? {
      if rsi.value < 30.0 {
        score := score + 20;
      } else if rsi.value > 70.0 {
        score := score - 20;
      } else {
        score := score + Trunc(10.0 - Abs(rsi.value - 50.0) / 2.0);
      }
    }

    if pe.Some? {
      if pe.value < 15.0 {
        score := score + 10;
      } else if pe.value < 30.0 {
        score := score + 5;
      } else if pe.value > 60.0 {
        score := score - 10;
      } else if pe.value > 40.0 {
        score := score - 5;
      }
    }

    if changePct.Some? {
      if changePct.value > 5.0 {
        score := score - 5;
      } else if changePct.value < -5.0 {
        score := score + 3;
      }
    }

    score := if score < 0 then 0 else if score > 100 then 100 else score;

    if score >= 75 {
      r := ScoreResult(score, FavourableColor, FavourableStatus, FavourableMessage);
    } else if score >= 55 {
      r := ScoreResult(score, SelectiveColor, SelectiveStatus, SelectiveMessage);
    } else {
      r := ScoreResult(score, DefensiveColor, DefensiveStatus, DefensiveMessage);
    }
  }

  /** Inside the neutral band (30 and 70 included) the reward lies in [0, 10]; it is 10
      exactly at RSI 50 and 0 at both edges. */
  lemma NeutralBandReward(rsi: real)
    requires InNeutralBand(rsi)
    ensures 0 <= NeutralBandPoints(rsi) <= 10
    ensures NeutralBandPoints(rsi) == 10 <==> rsi == 50.0
    ensures rsi == 30.0 || rsi == 70.0 ==> NeutralBandPoints(rsi) == 0
  {
    var x := 10.0 - Abs(rsi - 50.0) / 2.0;
    assert 0.0 <= x <= 10.0;
    if rsi != 50.0 {
      assert x < 10.0;
    }
  }

  lemma FloorMonotone(x: real, y: real)
    requires x <= y
    ensures x.Floor <= y.Floor
  {
  }

  /** Within the neutral band, an RSI closer to 50 never earns less. */
  lemma NeutralBandMonotone(a: real, b: real)
    requires InNeutralBand(a) && InNeutralBand(b)
    requires Abs(a - 50.0) <= Abs(b - 50.0)
    ensures NeutralBandPoints(a) >= NeutralBandPoints(b)
    ensures RsiPoints(Some(a)) >= RsiPoints(Some(b))
  {
    FloorMonotone(10.0 - Abs(b - 50.0) / 2.0, 10.0 - Abs(a - 50.0) / 2.0);
  }

  /** The RSI rule at and around the band edges: below 30 is +20, above 70 is -20, and
      30 and 70 themselves belong to the neutral band, where they earn nothing. */
  lemma RsiBandEdges(v: real)
    ensures v < 30.0 ==> RsiPoints(Some(v)) == 20
    ensures v > 70.0 ==> RsiPoints(Some(v)) == -20
    ensures v == 30.0 || v == 70.0 ==> RsiPoints(Some(v)) == 0
  {
    if InNeutralBand(v) {
      NeutralBandReward(v);
    }
  }

  /** A higher P/E never scores better, and a larger rise never scores better. */
  lemma PeAndChangeAntitone(a: real, b: real)
    requires a <= b
    ensures PePoints(Some(a)) >= PePoints(Some(b))
    ensures ChangePoints(Some(a)) >= ChangePoints(Some(b))
  {
  }

  /** The unclamped sum already lies in [15, 83]: the clamp never changes the score, which
      is therefore 50 plus the three contributions; an absent input contributes nothing, so
      dropping it leaves the sum of the other two. */
  lemma ScoreIsUnclampedSum(rsi: Option<real>, pe: Option<real>, changePct: Option<real>)
    ensures 15 <= Score(rsi, pe, changePct) <= 83
    ensures Score(rsi, pe, changePct) == 50 + RsiPoints(rsi) + PePoints(pe) + ChangePoints(changePct)
    ensures Score(None, pe, changePct) == 50 + PePoints(pe) + ChangePoints(changePct)
    ensures Score(rsi, None, changePct) == 50 + RsiPoints(rsi) + ChangePoints(changePct)
    ensures Score(rsi, pe, None) == 50 + RsiPoints(rsi) + PePoints(pe)
  {
  }

  /** With every input absent the score is 50, in the defensive tier. */
  lemma AllAbsentIsDefensive()
    ensures Score(None, None, None) == 50 && TierOf(50) == Defensive
  {
  }

  /** An RSI of 62, a P/E of 28.5 and a +1.35% change: 50 + int(10 - 6) + 5 + 0 = 59,
      the selective tier. */
  lemma Example62()
    ensures Score(Some(62.0), Some(28.5), Some(1.35)) == 59
    ensures TierOf(59) == Selective
  {
    assert NeutralBandPoints(62.0) == Trunc(4.0) == 4;
  }

  /** Every tier is reachable. */
  lemma TiersReachable()
    ensures TierOf(Score(Some(10.0), Some(10.0), None)) == Favourable
    ensures TierOf(Score(Some(50.0), None, None)) == Selective
    ensures TierOf(Score(Some(80.0), None, None)) == Defensive
  {
    assert NeutralBandPoints(50.0) == Trunc(10.0) == 10;
  }
}
