/** The VIX-based sentiment rules of `VIXSentiment`: a five-bucket label, a
    numeric score on -2..2 and the interpretation attached to the latest
    close. All three are strict-threshold classifiers over one VIX value; a
    missing close (NaN) is `None`. */
module VixSentiment {
  import opened Wrappers

  /** The cut points named in `VIX_THRESHOLDS`. */
  datatype VixThresholds = VixThresholds(extremeFear: real, fear: real, neutral: real, complacency: real)

  const Thresholds: VixThresholds := VixThresholds(30.0, 20.0, 15.0, 12.0)

  datatype Sentiment = Unknown | ExtremeFear | Fear | Neutral | Complacent | ExtremeComplacency {

    function Name(): string {
      match this
      case Unknown => "Unknown"
      case ExtremeFear => "Extreme Fear"
      case Fear => "Fear"
      case Neutral => "Neutral"
      case Complacent => "Complacent"
      case ExtremeComplacency => "Extreme Complacency"
    }
  }

  /** `_vix_to_sentiment`: compares against the named thresholds. */
  function SentimentOf(vix: Option<real>): (s: Sentiment)
    ensures vix.None? <==> s == Unknown
    ensures vix.Some? ==> (s == ExtremeFear <==> vix.value > 30.0)
    ensures vix.Some? ==> (s == Fear <==> 20.0 < vix.value <= 30.0)
    ensures vix.Some? ==> (s == Neutral <==> 15.0 < vix.value <= 20.0)
    ensures vix.Some? ==> (s == Complacent <==> 12.0 < vix.value <= 15.0)
    ensures vix.Some? ==> (s == ExtremeComplacency <==> vix.value <= 12.0)
  {
    match vix
    case None => Unknown
    case Some(v) =>
      if v > Thresholds.extremeFear then ExtremeFear
      else if v > Thresholds.fear then Fear
      else if v > Thresholds.neutral then Neutral
      else if v > Thresholds.complacency then Complacent
      else ExtremeComplacency
  }

  /** `_vix_to_score`: compares against literal cut points; a higher VIX
      gives a more negative score. */
  function ScoreOf(vix: Option<real>): (score: int)
    ensures -2 <= score <= 2
    ensures vix.None? ==> score == 0
  {
    match vix
    case None => 0
    case Some(v) =>
      if v > 30.0 then -2
      else if v > 20.0 then -1
      else if v > 15.0 then 0
      else if v > 12.0 then 1
      else 2
  }

  /** The score each label stands for. */
  function LabelScore(s: Sentiment): int {
    match s
    case ExtremeFear => -2
    case Fear => -1
    case Neutral => 0
    case Complacent => 1
    case ExtremeComplacency => 2
    case Unknown => 0
  }

  /** The label a score stands for. */
  function ScoreLabel(score: int): Sentiment
    requires -2 <= score <= 2
  {
    if score == -2 then ExtremeFear
    else if score == -1 then Fear
    else if score == 0 then Neutral
    else if score == 1 then Complacent
    else ExtremeComplacency
  }

  /** Label and score of a present value determine each other, because the
      named thresholds equal the literal cut points of the score. */
  lemma SentimentMatchesScore(v: real)
    ensures ScoreOf(Some(v)) == LabelScore(SentimentOf(Some(v)))
    ensures SentimentOf(Some(v)) == ScoreLabel(ScoreOf(Some(v)))
  {
  }

  /** The score is non-increasing in the VIX value. */
  lemma ScoreNonIncreasing(v1: real, v2: real)
    requires v1 <= v2
    ensures ScoreOf(Some(v2)) <= ScoreOf(Some(v1))
  {
  }

  /** Every cut point belongs to the calmer bucket below it. */
  lemma CutPointsAreStrict()
    ensures SentimentOf(Some(30.0)) == Fear
    ensures SentimentOf(Some(20.0)) == Neutral
    ensures SentimentOf(Some(15.0)) == Complacent
    ensures SentimentOf(Some(12.0)) == ExtremeComplacency
    ensures ScoreOf(Some(30.0)) == -1 && ScoreOf(Some(12.0)) == 2
  {
  }

  /** The interpretation sentence of `get_current_sentiment`, by its lead. */
  datatype Interpretation = ExtremeFearNote | ElevatedFearNote | NeutralNote | ComplacencyNote {

    function Lead(): string {
      match this
      case ExtremeFearNote => "Extreme fear"
      case ElevatedFearNote => "Elevated fear"
      case NeutralNote => "Neutral"
      case ComplacencyNote => "Complacency"
    }
  }

  /** Cut points > 30, > 20, > 15; every other value, including a missing
      one (all comparisons with NaN are false), reads as complacency. */
  function InterpretationOf(vix: Option<real>): (n: Interpretation)
    ensures n == ExtremeFearNote <==> vix.Some? && vix.value > 30.0
    ensures n == ElevatedFearNote <==> vix.Some? && 20.0 < vix.value <= 30.0
    ensures n == NeutralNote <==> vix.Some? && 15.0 < vix.value <= 20.0
    ensures n == ComplacencyNote <==> vix.None? || vix.value <= 15.0
  {
    if vix.Some? && vix.value > 30.0 then ExtremeFearNote
    else if vix.Some? && vix.value > 20.0 then ElevatedFearNote
    else if vix.Some? && vix.value > 15.0 then NeutralNote
    else ComplacencyNote
  }

  /** For a present value the interpretation follows the label, with both
      complacency labels sharing one sentence. */
  lemma InterpretationMatchesSentiment(v: real)
    ensures InterpretationOf(Some(v)) == ExtremeFearNote <==> SentimentOf(Some(v)) == ExtremeFear
    ensures InterpretationOf(Some(v)) == ElevatedFearNote <==> SentimentOf(Some(v)) == Fear
    ensures InterpretationOf(Some(v)) == NeutralNote <==> SentimentOf(Some(v)) == Neutral
    ensures InterpretationOf(Some(v)) == ComplacencyNote
            <==> SentimentOf(Some(v)) in {Complacent, ExtremeComplacency}
  {
  }

  /** A missing latest close is labelled Unknown with score 0, yet its
      interpretation is the complacency sentence. */
  lemma MissingCloseReadsAsComplacency()
    ensures SentimentOf(None) == Unknown && ScoreOf(None) == 0
    ensures InterpretationOf(None) == ComplacencyNote
  {
  }

  /** One row of `calculate_sentiment`. */
  datatype Row = Row(vix: Option<real>, sentiment: Sentiment, score: int)

  function CalculateSentiment(closes: seq<Option<real>>): (rows: seq<Row>)
    ensures |rows| == |closes|
    ensures forall i :: 0 <= i < |closes| ==>
              && rows[i].vix == closes[i]
              && rows[i].sentiment == SentimentOf(closes[i])
              && (rows[i].sentiment == Unknown <==> closes[i].None?)
              && rows[i].score == LabelScore(rows[i].sentiment)
  {
    seq(|closes|, i requires 0 <= i < |closes| =>
      SentimentMatchesScoreOpt(closes[i]);
      Row(closes[i], SentimentOf(closes[i]), ScoreOf(closes[i])))
  }

  lemma SentimentMatchesScoreOpt(vix: Option<real>)
    ensures ScoreOf(vix) == LabelScore(SentimentOf(vix))
  {
  }

  /** The reading returned by `get_current_sentiment`. */
  datatype Reading = Reading(vix: Option<real>, sentiment: Sentiment, score: int, interpretation: Interpretation)

  /** `get_current_sentiment` on the fetched closes: an error when there are
      none, otherwise the reading of the last close. */
  function CurrentSentiment(closes: seq<Option<real>>): (r: Result<Reading, string>)
    ensures r.Failure? <==> |closes| == 0
    ensures r.Failure? ==> r.error == "No VIX data available"
    ensures r.Success? ==>
      && r.value.vix == closes[|closes| - 1]
      && r.value.sentiment == SentimentOf(r.value.vix)
      && r.value.interpretation == InterpretationOf(r.value.vix)
      && r.value.score == LabelScore(r.value.sentiment)
      && (r.value.vix.Some? ==>
            (r.value.interpretation == ComplacencyNote
             <==> r.value.sentiment in {Complacent, ExtremeComplacency}))
  {
    if |closes| == 0 then Failure("No VIX data available")
    else
      var v := closes[|closes| - 1];
      SentimentMatchesScoreOpt(v);
      Success(Reading(v, SentimentOf(v), ScoreOf(v), InterpretationOf(v)))
  }
}
