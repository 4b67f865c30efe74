/**
  The decisions inside the `useChainGPT` React hook (src/hooks/useChainGPT.ts):
  the fixed-value parse used when the AI answer is not JSON, the fusion of a
  technical and a sentiment analysis into one, and the mapping of an
  analysis to a trade recommendation. Numbers of an analysis are finite
  JavaScript numbers, modelled as exact reals.
 */
module UseChainGPT {
  import opened Text
  import opened Numbers

  /** The `AIAnalysis` interface. */
  datatype Analysis = Analysis(outcome: bool, confidence: real, reasoning: string, probability: real)

  // ---------------------------------------------------------------------
  // Fallback parse of a non-JSON answer
  // ---------------------------------------------------------------------

  /** The object `callChainGPT` builds when `JSON.parse(content)` throws. */
  function FallbackAnalysis(content: string): (r: Analysis)
    ensures r.outcome <==> (exists k :: OccursAt(Lower(content), "yes", k))
                           || (exists k :: OccursAt(Lower(content), "true", k))
    ensures r.confidence == 75.0 && r.probability == 50.0
    ensures |r.reasoning| == (if |content| < 200 then |content| else 200) && r.reasoning <= content
  {
    Analysis(Contains(Lower(content), "yes") || Contains(Lower(content), "true"),
             75.0, Prefix(content, 200), 50.0)
  }

  /**
    The fallback never looks for a negative word: a text that mentions both
    `yes` and `no` is read as a `true` outcome.
   */
  lemma FallbackIgnoresNegation(content: string)
    requires Contains(Lower(content), "yes")
    ensures FallbackAnalysis(content + " no").outcome
  {
    var k :| OccursAt(Lower(content), "yes", k);
    assert Lower(content + " no")[k..k + 3] == Lower(content)[k..k + 3];
    assert OccursAt(Lower(content + " no"), "yes", k);
  }

  // ---------------------------------------------------------------------
  // getMultiAgentAnalysis
  // ---------------------------------------------------------------------

  const TechnicalLabel: string := "Technical Analysis: "
  const SentimentLabel: string := "... Sentiment Analysis: "

  /**
    The `aggregated` analysis built from the `technical` and `sentiment`
    results: the outcome says whether the mean probability is above 50, and
    confidence and probability are the means rounded to the nearest integer.
   */
  function MultiAgent(technical: Analysis, sentiment: Analysis): (r: Analysis)
    ensures r.outcome <==> technical.probability + sentiment.probability > 100.0
    ensures Integral(r.confidence) && Integral(r.probability)
    ensures r.confidence - 0.5 <= (technical.confidence + sentiment.confidence) / 2.0 < r.confidence + 0.5
    ensures r.probability - 0.5 <= (technical.probability + sentiment.probability) / 2.0 < r.probability + 0.5
  {
    var avgConfidence := (technical.confidence + sentiment.confidence) / 2.0;
    var avgProbability := (technical.probability + sentiment.probability) / 2.0;
    Analysis(avgProbability > 50.0,
             Round(avgConfidence) as real,
             TechnicalLabel + Prefix(technical.reasoning, 100) + SentimentLabel
               + Prefix(sentiment.reasoning, 100) + Ellipsis,
             Round(avgProbability) as real)
  }

  /** The agents' own outcomes play no part in the fused analysis. */
  lemma MultiAgentIgnoresOutcomes(technical: Analysis, sentiment: Analysis, t: bool, s: bool)
    ensures MultiAgent(technical.(outcome := t), sentiment.(outcome := s)) == MultiAgent(technical, sentiment)
  {
  }

  /** Swapping the two agents leaves outcome, confidence and probability unchanged. */
  lemma MultiAgentSymmetric(technical: Analysis, sentiment: Analysis)
    ensures MultiAgent(sentiment, technical).outcome == MultiAgent(technical, sentiment).outcome
    ensures MultiAgent(sentiment, technical).confidence == MultiAgent(technical, sentiment).confidence
    ensures MultiAgent(sentiment, technical).probability == MultiAgent(technical, sentiment).probability
  {
    assert sentiment.confidence + technical.confidence == technical.confidence + sentiment.confidence;
    assert sentiment.probability + technical.probability == technical.probability + sentiment.probability;
  }

  function Min(a: real, b: real): real { if a <= b then a else b }

  function Max(a: real, b: real): real { if a <= b then b else a }

  /** The mean of two integers `m`, `n` is `h` or `h + 0.5`, where `h` is `(m + n)` halved. */
  lemma MeanOfIntegers(m: int, n: int)
    ensures var h := (m + n) / 2;
            ((m + n) % 2 == 0 ==> (m as real + n as real) / 2.0 == h as real)
            && ((m + n) % 2 == 1 ==> (m as real + n as real) / 2.0 == h as real + 0.5)
  {
    var h, e := (m + n) / 2, (m + n) % 2;
    assert m + n == 2 * h + e;
    assert m as real + n as real == 2.0 * h as real + e as real;
  }

  /** The rounded mean of two integers lies between them. */
  lemma RoundedMeanBetween(a: real, b: real)
    requires Integral(a) && Integral(b)
    ensures Min(a, b) <= Round((a + b) / 2.0) as real <= Max(a, b)
  {
    var m, n := a.Floor, b.Floor;
    assert a == m as real && b == n as real;
    MeanOfIntegers(m, n);
    var h := (m + n) / 2;
    var r := if (m + n) % 2 == 0 then h else h + 1;
    if (m + n) % 2 == 0 {
      RoundIntegral(h);
    } else {
      assert Round(h as real + 0.5) == h + 1;
    }
    assert (if m <= n then m else n) <= r <= (if m <= n then n else m);
  }

  /**
    For integer inputs, the fused confidence and probability are integers
    between the two agents' values.
   */
  lemma MultiAgentBetween(technical: Analysis, sentiment: Analysis)
    requires Integral(technical.confidence) && Integral(sentiment.confidence)
    requires Integral(technical.probability) && Integral(sentiment.probability)
    ensures var r := MultiAgent(technical, sentiment);
            Min(technical.confidence, sentiment.confidence) <= r.confidence
            <= Max(technical.confidence, sentiment.confidence)
            && Min(technical.probability, sentiment.probability) <= r.probability
            <= Max(technical.probability, sentiment.probability)
  {
    RoundedMeanBetween(technical.confidence, sentiment.confidence);
    RoundedMeanBetween(technical.probability, sentiment.probability);
  }

  /**
    For integer probabilities, the fused outcome agrees with the rounded
    probability: `true` exactly when it is above 50. (For fractional inputs
    it need not: a mean of 50.4 gives `true` and a probability of 50.)
   */
  lemma MultiAgentOutcomeMatchesProbability(technical: Analysis, sentiment: Analysis)
    requires Integral(technical.probability) && Integral(sentiment.probability)
    ensures MultiAgent(technical, sentiment).outcome <==> MultiAgent(technical, sentiment).probability > 50.0
  {
    var m, n := technical.probability.Floor, sentiment.probability.Floor;
    MeanOfIntegers(m, n);
    var h := (m + n) / 2;
    if (m + n) % 2 == 0 {
      RoundIntegral(h);
    } else {
      assert Round(h as real + 0.5) == h + 1;
    }
  }

  /**
    The fused reasoning is the technical label, the first (at most) 100
    characters of the technical reasoning, the sentiment label, the first (at
    most) 100 characters of the sentiment reasoning, and an ellipsis.
   */
  lemma MultiAgentReasoning(technical: Analysis, sentiment: Analysis)
    ensures var r := MultiAgent(technical, sentiment).reasoning;
            var k1 := if |technical.reasoning| < 100 then |technical.reasoning| else 100;
            var k2 := if |sentiment.reasoning| < 100 then |sentiment.reasoning| else 100;
            && |r| == |TechnicalLabel| + k1 + |SentimentLabel| + k2 + |Ellipsis|
            && r[..|TechnicalLabel|] == TechnicalLabel
            && r[|TechnicalLabel|..|TechnicalLabel| + k1] == technical.reasoning[..k1]
            && r[|TechnicalLabel| + k1..|TechnicalLabel| + k1 + |SentimentLabel|] == SentimentLabel
            && r[|TechnicalLabel| + k1 + |SentimentLabel|..|r| - |Ellipsis|] == sentiment.reasoning[..k2]
            && r[|r| - |Ellipsis|..] == Ellipsis
  {
    var q1, q2 := Prefix(technical.reasoning, 100), Prefix(sentiment.reasoning, 100);
    assert q1 == technical.reasoning[..|q1|] && q2 == sentiment.reasoning[..|q2|];
    Layout(TechnicalLabel, q1, SentimentLabel, q2, Ellipsis);
  }

  /** Where each of five concatenated parts sits in the whole. */
  lemma Layout(a: string, b: string, c: string, d: string, e: string)
    ensures var r := a + b + c + d + e;
            && |r| == |a| + |b| + |c| + |d| + |e|
            && r[..|a|] == a
            && r[|a|..|a| + |b|] == b
            && r[|a| + |b|..|a| + |b| + |c|] == c
            && r[|a| + |b| + |c|..|r| - |e|] == d
            && r[|r| - |e|..] == e
  {
    var ab := a + b;
    var abc := ab + c;
    var abcd := abc + d;
    var r := abcd + e;
    assert r[..|abcd|] == abcd && abcd[..|abc|] == abc && abc[..|ab|] == ab && ab[..|a|] == a;
    assert r[|a|..|ab|] == ab[|a|..] == b;
    assert r[|ab|..|abc|] == abc[|ab|..] == c;
    assert r[|abc|..|abcd|] == abcd[|abc|..] == d;
  }

  // ---------------------------------------------------------------------
  // getTradeRecommendation
  // ---------------------------------------------------------------------

  datatype Recommendation = Buy | Hold | Avoid

  /** The recommendation object, without its random `risk` field. */
  datatype Advice = Advice(recommendation: Recommendation, expectedReturn: real, reasoning: string)

  /** The mapping of the AI analysis to a trade recommendation. */
  function TradeRecommendation(response: Analysis): (r: Advice)
    ensures r.recommendation == Buy <==> response.outcome
    ensures r.recommendation != Hold
    ensures r.expectedReturn == response.probability && r.reasoning == response.reasoning
  {
    Advice(if response.outcome then Buy else Avoid, response.probability, response.reasoning)
  }
}
