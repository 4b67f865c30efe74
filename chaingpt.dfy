/**
  The decision-making utilities of the ChainGPT service (src/hooks/chaingpt.ts):
  confidence-weighted aggregation of several agents' predictions, and the
  fallback parsing of a free-text AI answer (a confidence scanner and a
  yes/no classifier). The HTTP calls around them are not modelled; only what
  they compute from the values those calls return.
 */
module ChainGPTService {
  import opened Wrappers
  import opened Text
  import opened Numbers

  // ---------------------------------------------------------------------
  // Predictions and their filtering
  // ---------------------------------------------------------------------

  /**
    One element of the array handed to the aggregation: either a falsy value
    (`null`, `undefined`) or an object whose `confidence` is an integer
    JavaScript number (`Some`) or something else (`None`: a string, a missing
    field).
   */
  datatype Entry =
    | Missing
    | Reply(outcome: bool, confidence: Option<int>, reasoning: string)

  /** An entry that survives the filter, with its numeric confidence. */
  datatype Prediction = Prediction(outcome: bool, confidence: int, reasoning: string)

  /** `p && typeof p.confidence === 'number'`, together with the narrowed value. */
  function Narrow(e: Entry): (r: Option<Prediction>)
    ensures r.Some? <==> e.Reply? && e.confidence.Some?
    ensures r.Some? ==> r.value.outcome == e.outcome && r.value.confidence == e.confidence.value
                        && r.value.reasoning == e.reasoning
  {
    match e
    case Missing => None
    case Reply(outcome, confidence, reasoning) =>
      match confidence
      case Some(c) => Some(Prediction(outcome, c, reasoning))
      case None => None
  }

  /** `predictions.filter(p => p && typeof p.confidence === 'number')`, narrowed. */
  function Kept(ps: seq<Entry>): seq<Prediction>
  {
    if ps == [] then []
    else
      match Narrow(ps[0])
      case Some(p) => [p] + Kept(ps[1..])
      case None => Kept(ps[1..])
  }

  /** The filter test applied to every entry, in place. */
  function Narrowed(ps: seq<Entry>): (r: seq<Option<Prediction>>)
    ensures |r| == |ps| && forall i :: 0 <= i < |ps| ==> r[i] == Narrow(ps[i])
  {
    seq(|ps|, i requires 0 <= i < |ps| => Narrow(ps[i]))
  }

  /**
    Every kept prediction is the narrowed value of some entry, every entry
    that passes the filter is kept, and no more are kept than there are entries.
   */
  lemma {:induction false} KeptMembers(ps: seq<Entry>)
    ensures forall p :: p in Kept(ps) <==> Some(p) in Narrowed(ps)
    ensures |Kept(ps)| <= |ps|
  {
    if ps != [] {
      KeptMembers(ps[1..]);
      assert Narrowed(ps) == [Narrow(ps[0])] + Narrowed(ps[1..]);
    }
  }

  /** The filter keeps order: filtering a concatenation concatenates the filtered parts. */
  lemma {:induction false} KeptAppend(a: seq<Entry>, b: seq<Entry>)
    ensures Kept(a + b) == Kept(a) + Kept(b)
  {
    if a != [] {
      assert (a + b)[1..] == a[1..] + b;
      KeptAppend(a[1..], b);
    } else {
      assert a + b == b;
    }
  }

  /** Entries that all pass the filter are all kept, one for one and in order. */
  lemma {:induction false} KeptAll(ps: seq<Entry>)
    requires forall i :: 0 <= i < |ps| ==> Narrow(ps[i]).Some?
    ensures |Kept(ps)| == |ps|
    ensures forall i :: 0 <= i < |ps| ==> Some(Kept(ps)[i]) == Narrow(ps[i])
  {
    if ps != [] {
      KeptAll(ps[1..]);
      assert forall i :: 1 <= i < |ps| ==> ps[1..][i - 1] == ps[i];
    }
  }

  /** An entry that fails the filter contributes nothing. */
  lemma DroppedEntry(a: seq<Entry>, e: Entry, b: seq<Entry>)
    requires Narrow(e).None?
    ensures Kept(a + [e] + b) == Kept(a) + Kept(b)
  {
    KeptAppend(a + [e], b);
    KeptAppend(a, [e]);
    assert Kept([e]) == [] by {
      assert [e][1..] == [];
    }
  }

  // ---------------------------------------------------------------------
  // The weighted sums the loop accumulates
  // ---------------------------------------------------------------------

  /** `pred.confidence / 100`. */
  function Weight(p: Prediction): real
  {
    p.confidence as real / 100.0
  }

  /** `totalWeight` after the loop: the sum of all weights. */
  function TotalWeight(ks: seq<Prediction>): real
  {
    if ks == [] then 0.0 else TotalWeight(ks[..|ks| - 1]) + Weight(ks[|ks| - 1])
  }

  /** `weightedSum` after the loop: the sum of the weights of the `true` predictions. */
  function YesWeight(ks: seq<Prediction>): real
  {
    if ks == [] then 0.0
    else YesWeight(ks[..|ks| - 1]) + (if ks[|ks| - 1].outcome then 1.0 else 0.0) * Weight(ks[|ks| - 1])
  }

  /** Confidences are never negative. */
  predicate NonNegative(ks: seq<Prediction>)
  {
    forall i :: 0 <= i < |ks| ==> ks[i].confidence >= 0
  }

  /** With non-negative confidences, the yes-weight lies between 0 and the total weight. */
  lemma {:induction false} YesWeightBounded(ks: seq<Prediction>)
    requires NonNegative(ks)
    ensures 0.0 <= YesWeight(ks) <= TotalWeight(ks)
  {
    if ks != [] {
      YesWeightBounded(ks[..|ks| - 1]);
    }
  }

  /** With non-negative confidences, one positive confidence makes the total weight positive. */
  lemma {:induction false} TotalWeightPositive(ks: seq<Prediction>, k: nat)
    requires NonNegative(ks)
    requires k < |ks| && ks[k].confidence > 0
    ensures TotalWeight(ks) > 0.0
  {
    var n := |ks| - 1;
    if k == n {
      TotalWeightNonNegative(ks[..n]);
    } else {
      TotalWeightPositive(ks[..n], k);
    }
  }

  lemma {:induction false} TotalWeightNonNegative(ks: seq<Prediction>)
    requires NonNegative(ks)
    ensures TotalWeight(ks) >= 0.0
  {
    if ks != [] {
      TotalWeightNonNegative(ks[..|ks| - 1]);
    }
  }

  /** All confidences zero: both sums are zero. */
  lemma {:induction false} ZeroConfidenceSums(ks: seq<Prediction>)
    requires forall i :: 0 <= i < |ks| ==> ks[i].confidence == 0
    ensures TotalWeight(ks) == 0.0 && YesWeight(ks) == 0.0
  {
    if ks != [] {
      ZeroConfidenceSums(ks[..|ks| - 1]);
    }
  }

  /** Every prediction with its outcome negated. */
  function Flip(ks: seq<Prediction>): (r: seq<Prediction>)
    ensures |r| == |ks|
    ensures forall i :: 0 <= i < |ks| ==> r[i] == ks[i].(outcome := !ks[i].outcome)
  {
    seq(|ks|, i requires 0 <= i < |ks| => ks[i].(outcome := !ks[i].outcome))
  }

  /** Negating every outcome keeps the total and turns the yes-weight into the no-weight. */
  lemma {:induction false} FlipSums(ks: seq<Prediction>)
    ensures TotalWeight(Flip(ks)) == TotalWeight(ks)
    ensures YesWeight(Flip(ks)) == TotalWeight(ks) - YesWeight(ks)
  {
    if ks != [] {
      var n := |ks| - 1;
      assert Flip(ks)[..n] == Flip(ks[..n]);
      FlipSums(ks[..n]);
    }
  }

  // ---------------------------------------------------------------------
  // The reasoning list
  // ---------------------------------------------------------------------

  /** `${pred.reasoning} (Confidence: ${pred.confidence}%)`. */
  function Item(p: Prediction): string
  {
    p.reasoning + " (Confidence: " + IntToString(p.confidence) + "%)"
  }

  /** The `reasoning` array after the loop: one item per kept prediction, in order. */
  function Items(ks: seq<Prediction>): (r: seq<string>)
    ensures |r| == |ks|
    ensures forall i :: 0 <= i < |ks| ==> r[i] == Item(ks[i])
  {
    if ks == [] then [] else Items(ks[..|ks| - 1]) + [Item(ks[|ks| - 1])]
  }

  /** The separator of `reasoning.join('\n\n')`. */
  const Paragraph: string := "\n\n"

  // ---------------------------------------------------------------------
  // The aggregate
  // ---------------------------------------------------------------------

  const NoValidReasoning: string := "No valid predictions"

  /**
    The object `aggregatePredictions` returns: the early-exit object
    `{ outcome: false, confidence: 0, reasoning: 'No valid predictions' }`,
    or the full aggregate.
   */
  datatype Consensus =
    | NoValidPredictions
    | Aggregated(outcome: bool, confidence: Number, probability: Number, reasoning: string, agentCount: nat)
  {
    /** The `outcome` field, present in both shapes. */
    function Outcome(): bool
    {
      if NoValidPredictions? then false else outcome
    }

    /** The `confidence` field, present in both shapes. */
    function Confidence(): Number
    {
      if NoValidPredictions? then Num(0.0) else confidence
    }

    /** The `reasoning` field, present in both shapes. */
    function Reasoning(): string
    {
      if NoValidPredictions? then NoValidReasoning else reasoning
    }
  }

  /** `Math.round(Math.abs(avgProbability - 0.5) * 200)`. */
  function ConfidenceScore(p: Number): Number
  {
    match p
    case Num(v) => Num(Round(Abs(v - 0.5) * 200.0) as real)
    case NaN => NaN
    case Infinity(_) => Infinity(true)
  }

  /** `Math.round(avgProbability * 100)`. */
  function ProbabilityScore(p: Number): Number
  {
    match p
    case Num(v) => Num(Round(v * 100.0) as real)
    case NaN => NaN
    case Infinity(positive) => Infinity(positive)
  }

  /** `weightedSum / totalWeight`. */
  function AvgProbability(ks: seq<Prediction>): Number
  {
    Divide(YesWeight(ks), TotalWeight(ks))
  }

  /** The aggregate of a non-empty list of kept predictions. */
  function Summarize(ks: seq<Prediction>): (r: Consensus)
    requires ks != []
    ensures r.Aggregated? && r.agentCount == |ks|
  {
    var avgProbability := AvgProbability(ks);
    Aggregated(Exceeds(avgProbability, 0.5), ConfidenceScore(avgProbability),
               ProbabilityScore(avgProbability), Join(Items(ks), Paragraph), |ks|)
  }

  /** What `aggregatePredictions(predictions)` returns. */
  function Aggregate(ps: seq<Entry>): (r: Consensus)
    ensures r.NoValidPredictions? <==> Kept(ps) == []
    ensures r.Aggregated? ==> r.agentCount == |Kept(ps)| >= 1
  {
    var kept := Kept(ps);
    if kept == [] then NoValidPredictions else Summarize(kept)
  }

  /**
    `aggregatePredictions`: filter, then one pass that accumulates the total
    weight, the yes-weight and the reasoning items.
   */
  method AggregatePredictions(predictions: seq<Entry>) returns (r: Consensus)
    ensures r == Aggregate(predictions)
  {
    var validPredictions := Kept(predictions);
    if |validPredictions| == 0 {
      return NoValidPredictions;
    }
    var totalWeight := 0.0;
    var weightedSum := 0.0;
    var reasoning: seq<string> := [];
    var i := 0;
    while i < |validPredictions|
      invariant 0 <= i <= |validPredictions|
      invariant totalWeight == TotalWeight(validPredictions[..i])
      invariant weightedSum == YesWeight(validPredictions[..i])
      invariant reasoning == Items(validPredictions[..i])
    {
      var pred := validPredictions[i];
      var weight := pred.confidence as real / 100.0;
      totalWeight := totalWeight + weight;
      weightedSum := weightedSum + (if pred.outcome then 1.0 else 0.0) * weight;
      reasoning := reasoning + [Item(pred)];
      assert validPredictions[..i + 1][..i] == validPredictions[..i];
      i := i + 1;
    }
    assert validPredictions[..i] == validPredictions;
    var avgProbability := Divide(weightedSum, totalWeight);
    r := Aggregated(Exceeds(avgProbability, 0.5), ConfidenceScore(avgProbability),
                    ProbabilityScore(avgProbability), Join(reasoning, Paragraph), |validPredictions|);
  }

  /** Without a kept entry the result is the fixed `'No valid predictions'` object. */
  lemma AggregateEmpty(ps: seq<Entry>)
    requires forall i :: 0 <= i < |ps| ==> Narrow(ps[i]).None?
    ensures Aggregate(ps).Outcome() == false
    ensures Aggregate(ps).Confidence() == Num(0.0)
    ensures Aggregate(ps).Reasoning() == NoValidReasoning
  {
    NothingKept(ps);
  }

  lemma {:induction false} NothingKept(ps: seq<Entry>)
    requires forall i :: 0 <= i < |ps| ==> Narrow(ps[i]).None?
    ensures Kept(ps) == []
  {
    if ps != [] {
      NothingKept(ps[1..]);
    }
  }

  /** For a positive total, a ratio exceeds one half exactly when twice the part exceeds the total. */
  lemma RatioAboveHalf(y: real, t: real)
    requires t > 0.0
    ensures y / t > 0.5 <==> 2.0 * y > t
  {
    var q := y / t;
    assert q * t == y;
    if q > 0.5 {
      assert q * t > 0.5 * t;
    } else {
      assert q * t <= 0.5 * t;
    }
  }

  /** With a positive total weight the outcome is a strict weighted majority for `true`. */
  lemma AggregateOutcome(ps: seq<Entry>)
    requires TotalWeight(Kept(ps)) > 0.0
    ensures Aggregate(ps).Aggregated?
    ensures Aggregate(ps).outcome <==> 2.0 * YesWeight(Kept(ps)) > TotalWeight(Kept(ps))
  {
    var ks := Kept(ps);
    RatioAboveHalf(YesWeight(ks), TotalWeight(ks));
  }

  lemma HalfRatio(y: real, t: real)
    requires t > 0.0 && 2.0 * y == t
    ensures y / t == 0.5
  {
    assert y == 0.5 * t;
  }

  /** An exact tie yields `false` with confidence 0 and probability 50. */
  lemma AggregateTie(ps: seq<Entry>)
    requires TotalWeight(Kept(ps)) > 0.0
    requires 2.0 * YesWeight(Kept(ps)) == TotalWeight(Kept(ps))
    ensures Aggregate(ps).Aggregated?
    ensures !Aggregate(ps).outcome
    ensures Aggregate(ps).confidence == Num(0.0)
    ensures Aggregate(ps).probability == Num(50.0)
  {
    var ks := Kept(ps);
    HalfRatio(YesWeight(ks), TotalWeight(ks));
    assert AvgProbability(ks) == Num(0.5);
    assert Round(0.0) == 0 && Round(50.0) == 50;
  }

  /** A ratio of a part to a positive whole lies in [0, 1], and its scores lie in 0..100. */
  lemma ScoresOfRatio(y: real, t: real)
    requires t > 0.0 && 0.0 <= y <= t
    ensures IntegerIn(ConfidenceScore(Num(y / t)), 0, 100)
    ensures IntegerIn(ProbabilityScore(Num(y / t)), 0, 100)
  {
    var p := y / t;
    assert p * t == y;
    assert 0.0 <= p <= 1.0;
    assert 0.0 <= Abs(p - 0.5) * 200.0 <= 100.0;
    assert 0.0 <= p * 100.0 <= 100.0;
  }

  /**
    With non-negative confidences, one of them positive, confidence and
    probability are integers between 0 and 100.
   */
  lemma AggregateInRange(ps: seq<Entry>, k: nat)
    requires NonNegative(Kept(ps))
    requires k < |Kept(ps)| && Kept(ps)[k].confidence > 0
    ensures Aggregate(ps).Aggregated?
    ensures IntegerIn(Aggregate(ps).confidence, 0, 100)
    ensures IntegerIn(Aggregate(ps).probability, 0, 100)
  {
    var ks := Kept(ps);
    TotalWeightPositive(ks, k);
    YesWeightBounded(ks);
    ScoresOfRatio(YesWeight(ks), TotalWeight(ks));
  }

  /** Kept entries whose confidences are all 0 give `0 / 0`: a `NaN` confidence and probability. */
  lemma AggregateZeroWeight(ps: seq<Entry>)
    requires Kept(ps) != []
    requires forall i :: 0 <= i < |Kept(ps)| ==> Kept(ps)[i].confidence == 0
    ensures Aggregate(ps).Aggregated?
    ensures !Aggregate(ps).outcome
    ensures Aggregate(ps).confidence == NaN && Aggregate(ps).probability == NaN
  {
    ZeroConfidenceSums(Kept(ps));
  }

  /** The score of `(t - y) / t` equals that of `y / t`: the distance from one half is the same. */
  lemma ComplementScore(y: real, t: real)
    ensures ConfidenceScore(Divide(t - y, t)) == ConfidenceScore(Divide(y, t))
  {
    if t != 0.0 {
      ComplementRatio(y, t);
      var q := y / t;
      assert Abs((1.0 - q) - 0.5) == Abs(q - 0.5);
    }
  }

  lemma ComplementRatio(y: real, t: real)
    requires t != 0.0
    ensures (t - y) / t == 1.0 - y / t
  {
    var q, r := y / t, (t - y) / t;
    assert q * t == y;
    assert r * t == t - y;
    var x := r + q - 1.0;
    assert x * t == 0.0;
    // a product of reals is zero only when a factor is
    if x > 0.0 || x < 0.0 {
      assert false;
    }
  }

  /**
    Negating every prediction's outcome leaves the confidence unchanged and,
    with a positive total weight, turns the outcome into a strict majority
    for `false`.
   */
  lemma SummarizeFlip(ks: seq<Prediction>)
    requires ks != []
    ensures Summarize(Flip(ks)).confidence == Summarize(ks).confidence
    ensures TotalWeight(ks) > 0.0 ==>
              (Summarize(Flip(ks)).outcome <==> 2.0 * YesWeight(ks) < TotalWeight(ks))
  {
    var t, y := TotalWeight(ks), YesWeight(ks);
    assert Summarize(Flip(ks)).confidence == Summarize(ks).confidence by {
      FlipSums(ks);
      assert AvgProbability(Flip(ks)) == Divide(t - y, t);
      ComplementScore(y, t);
    }
    if t > 0.0 {
      assert Summarize(Flip(ks)).outcome <==> 2.0 * y < t by {
        FlipSums(ks);
        assert AvgProbability(Flip(ks)) == Divide(t - y, t);
        FlipOutcome(y, t);
      }
    }
  }

  /** The complement of a part of a positive total exceeds one half exactly when the part is a strict minority. */
  lemma FlipOutcome(y: real, t: real)
    requires t > 0.0
    ensures Exceeds(Divide(t - y, t), 0.5) <==> 2.0 * y < t
  {
    assert Divide(t - y, t) == Num((t - y) / t);
    RatioAboveHalf(t - y, t);
  }

  /**
    A single prediction with a positive confidence decides alone: its
    outcome, with confidence 100, probability 100 or 0, and its own item as
    the reasoning.
   */
  lemma SummarizeSingle(p: Prediction)
    requires p.confidence > 0
    ensures var r := Summarize([p]);
            r.outcome == p.outcome && r.confidence == Num(100.0)
            && r.probability == Num(if p.outcome then 100.0 else 0.0)
            && r.reasoning == Item(p) && r.agentCount == 1
  {
    var ks := [p];
    assert ks[..0] == [];
    var w := Weight(p);
    assert TotalWeight(ks) == w > 0.0;
    assert YesWeight(ks) == if p.outcome then w else 0.0;
    var q := if p.outcome then 1.0 else 0.0;
    assert AvgProbability(ks) == Num(q) by {
      assert (if p.outcome then w else 0.0) / w == q;
    }
    assert ConfidenceScore(Num(q)) == Num(100.0) by {
      assert Abs(q - 0.5) * 200.0 == 100.0;
      RoundIntegral(100);
    }
    assert ProbabilityScore(Num(q)) == Num(q * 100.0) by {
      RoundIntegral(if p.outcome then 100 else 0);
    }
    assert Items(ks) == [Item(p)];
  }

  /**
    Three agents, `true` at 90, `true` at 60, `false` at 80: the weighted
    probability is 1.5 / 2.3, so the outcome is `true`, the probability 65
    and the confidence 30.
   */
  lemma ThreeAgentScenario(a: string, b: string, c: string)
    ensures var r := Summarize([Prediction(true, 90, a), Prediction(true, 60, b), Prediction(false, 80, c)]);
            r.outcome && r.probability == Num(65.0) && r.confidence == Num(30.0) && r.agentCount == 3
  {
    var ks := [Prediction(true, 90, a), Prediction(true, 60, b), Prediction(false, 80, c)];
    assert ks[..2][..1] == ks[..1] == [ks[0]];
    assert ks[..1][..0] == [];
    assert TotalWeight(ks[..1]) == 0.9 && YesWeight(ks[..1]) == 0.9;
    assert TotalWeight(ks[..2]) == 1.5 && YesWeight(ks[..2]) == 1.5;
    assert TotalWeight(ks) == 2.3 && YesWeight(ks) == 1.5;
    var p := 1.5 / 2.3;
    assert p == 15.0 / 23.0;
    assert AvgProbability(ks) == Num(p);
    assert Round(p * 100.0) == 65;
    assert Abs(p - 0.5) * 200.0 == 700.0 / 23.0;
    assert Round(700.0 / 23.0) == 30;
  }

  // ---------------------------------------------------------------------
  // extractConfidence: /confidence[:\s]*(\d+)%/i
  // ---------------------------------------------------------------------

  /** A character of the class `\s`: JavaScript's white space and line terminators. */
  predicate IsSpace(c: char)
  {
    var n := c as int;
    n == 0x09 || n == 0x0A || n == 0x0B || n == 0x0C || n == 0x0D || n == 0x20
    || n == 0xA0 || n == 0x1680 || (0x2000 <= n <= 0x200A) || n == 0x2028 || n == 0x2029
    || n == 0x202F || n == 0x205F || n == 0x3000 || n == 0xFEFF
  }

  /** A character of the class `[:\s]`. */
  predicate IsSeparator(c: char)
  {
    c == ':' || IsSpace(c)
  }

  /** What is left after `[:\s]*` consumes its longest run. */
  function SkipSeparators(s: string): (r: string)
    ensures |r| <= |s| && r == s[|s| - |r|..]
    ensures r == [] || !IsSeparator(r[0])
    ensures forall i :: 0 <= i < |s| - |r| ==> IsSeparator(s[i])
  {
    if s != [] && IsSeparator(s[0]) then SkipSeparators(s[1..]) else s
  }

  const Keyword: string := "confidence"

  /**
    The match of the pattern starting exactly at the front of `t`, as the
    value of its digit group. The two classes `[:\s]` and `\d` and the
    literal `%` are pairwise disjoint, so the only way to match is to take
    the longest separator run and then the longest digit run; backtracking
    never finds another.
   */
  function MatchHere(t: string): Option<nat>
  {
    if |t| >= |Keyword| && Lower(t[..|Keyword|]) == Keyword then
      var rest := SkipSeparators(t[|Keyword|..]);
      var digits := DigitRun(rest);
      if |digits| > 0 && |digits| < |rest| && rest[|digits|] == '%' then Some(DigitsValue(digits))
      else None
    else None
  }

  /**
    `t` opens with a match of the pattern: the keyword in any ASCII case,
    the separators `sep`, the digit group `digits`, then `%`.
   */
  predicate PatternAt(t: string, sep: string, digits: string, tail: string)
  {
    && |t| >= |Keyword| && Lower(t[..|Keyword|]) == Keyword
    && t[|Keyword|..] == sep + (digits + ("%" + tail))
    && (forall i :: 0 <= i < |sep| ==> IsSeparator(sep[i]))
    && |digits| > 0 && AllDigits(digits)
  }

  /** Separators followed by a non-separator are skipped exactly. */
  lemma {:induction false} SkipSeparatorsOf(sep: string, rest: string)
    requires forall i :: 0 <= i < |sep| ==> IsSeparator(sep[i])
    requires rest == [] || !IsSeparator(rest[0])
    ensures SkipSeparators(sep + rest) == rest
  {
    if sep == [] {
      assert sep + rest == rest;
    } else {
      assert (sep + rest)[1..] == sep[1..] + rest;
      SkipSeparatorsOf(sep[1..], rest);
    }
  }

  /** Whatever `MatchHere` reports is a match of the pattern, with the value of its digit group. */
  lemma MatchHereSound(t: string)
    requires MatchHere(t).Some?
    ensures exists sep, digits, tail :: PatternAt(t, sep, digits, tail) && MatchHere(t).value == DigitsValue(digits)
  {
    var u := t[|Keyword|..];
    var rest := SkipSeparators(u);
    var digits := DigitRun(rest);
    assert |digits| > 0 && |digits| < |rest| && rest[|digits|] == '%';
    PatternOfParts(t, rest, digits);
    assert MatchHere(t).value == DigitsValue(digits);
  }

  /** The pieces `MatchHere` takes apart form a match of the pattern. */
  lemma PatternOfParts(t: string, rest: string, digits: string)
    requires |t| >= |Keyword| && Lower(t[..|Keyword|]) == Keyword
    requires |rest| <= |t| - |Keyword| && rest == t[|t| - |rest|..]
    requires forall i :: |Keyword| <= i < |t| - |rest| ==> IsSeparator(t[i])
    requires |digits| > 0 && AllDigits(digits) && digits <= rest
    requires |digits| < |rest| && rest[|digits|] == '%'
    ensures PatternAt(t, t[|Keyword|..|t| - |rest|], digits, rest[|digits| + 1..])
  {
    var sep := t[|Keyword|..|t| - |rest|];
    var tail := rest[|digits| + 1..];
    assert rest == digits + ("%" + tail) by {
      SplitAround(rest, |digits|);
    }
    assert t[|Keyword|..] == sep + rest;
    assert forall i :: 0 <= i < |sep| ==> IsSeparator(sep[i]);
  }

  /** A sequence is its part before index `n`, followed by the rest. */
  lemma SplitAround(s: string, n: nat)
    requires n <= |s|
    ensures s == s[..n] + s[n..]
    ensures n < |s| ==> s[n..] == [s[n]] + s[n + 1..]
  {
  }

  /**
    Every match of the pattern at the front of `t` is the one `MatchHere`
    reports: the classes `[:\s]` and `\d` and the `%` are disjoint, so no
    other split of the text matches.
   */
  lemma MatchHereComplete(t: string, sep: string, digits: string, tail: string)
    requires PatternAt(t, sep, digits, tail)
    ensures MatchHere(t) == Some(DigitsValue(digits))
  {
    var rest := digits + ("%" + tail);
    SkipSeparatorsOf(sep, rest);
    DigitRunOfDigits(digits, "%" + tail);
    assert rest[|digits|] == '%';
  }

  /** The match `String.prototype.match` reports: the one at the first position where the pattern matches. */
  function FirstMatch(text: string): Option<nat>
    decreases |text|
  {
    if text == [] then None
    else if MatchHere(text).Some? then MatchHere(text)
    else FirstMatch(text[1..])
  }

  /**
    The scan finds the leftmost match: a reported value is the match at some
    position before which nothing matches, and no report means no position
    matches.
   */
  lemma {:induction false} FirstMatchLeftmost(text: string)
    ensures FirstMatch(text).Some? ==>
              exists k :: 0 <= k < |text| && MatchHere(text[k..]) == FirstMatch(text)
                          && forall j :: 0 <= j < k ==> MatchHere(text[j..]).None?
    ensures FirstMatch(text).None? ==> forall k :: 0 <= k < |text| ==> MatchHere(text[k..]).None?
    decreases |text|
  {
    if text == [] {
    } else if MatchHere(text).Some? {
      assert text[0..] == text;
    } else {
      FirstMatchLeftmost(text[1..]);
      var r := FirstMatch(text[1..]);
      if r.Some? {
        var m :| 0 <= m < |text| - 1 && MatchHere(text[1..][m..]) == r
                 && forall j :: 0 <= j < m ==> MatchHere(text[1..][j..]).None?;
        assert text[1..][m..] == text[m + 1..];
        forall j | 0 <= j < m + 1
          ensures MatchHere(text[j..]).None?
        {
          if j == 0 {
            assert text[0..] == text;
          } else {
            assert text[1..][j - 1..] == text[j..];
          }
        }
      } else {
        forall k | 0 <= k < |text|
          ensures MatchHere(text[k..]).None?
        {
          if k == 0 {
            assert text[0..] == text;
          } else {
            assert text[1..][k - 1..] == text[k..];
          }
        }
      }
    }
  }

  /** `extractConfidence(text)`: the first match's digits as a number, else 50. */
  function ExtractConfidence(text: string): (r: nat)
    ensures FirstMatch(text).None? ==> r == 50
    ensures FirstMatch(text).Some? ==> r == FirstMatch(text).value
  {
    match FirstMatch(text)
    case Some(v) => v
    case None => 50
  }

  /** A text without a `%` sign never matches, so its confidence is the default 50. */
  lemma {:induction false} NoPercentDefault(text: string)
    requires forall i :: 0 <= i < |text| ==> text[i] != '%'
    ensures ExtractConfidence(text) == 50
  {
    forall k | 0 <= k < |text|
      ensures MatchHere(text[k..]).None?
    {
      var t := text[k..];
      if |t| >= |Keyword| && Lower(t[..|Keyword|]) == Keyword {
        var rest := SkipSeparators(t[|Keyword|..]);
        var digits := DigitRun(rest);
        if |digits| < |rest| {
          assert rest[|digits|] in text;
        }
      }
    }
    FirstMatchLeftmost(text);
  }

  /** No match starts at a character that does not lower-case to `c`. */
  lemma NoMatchAt(t: string)
    requires t != [] && LowerChar(t[0]) != 'c'
    ensures MatchHere(t).None?
  {
    if |t| >= |Keyword| {
      assert Lower(t[..|Keyword|])[0] != Keyword[0];
    }
  }

  /** The keyword never starts inside `r` in `r + tail` when `r` lacks it and `tail` opens with a space. */
  lemma NoMatchInside(r: string, tail: string)
    requires r != [] && tail != [] && tail[0] == ' '
    requires !Contains(Lower(r), Keyword)
    ensures MatchHere(r + tail).None?
  {
    var t := r + tail;
    if |t| >= |Keyword| {
      if |r| >= |Keyword| {
        assert t[..|Keyword|] == r[..|Keyword|];
        assert Lower(r)[..|Keyword|] == Lower(r[..|Keyword|]);
        assert !OccursAt(Lower(r), Keyword, 0);
      } else {
        assert t[|r|] == ' ';
        assert Lower(t[..|Keyword|])[|r|] == ' ';
        assert Keyword[|r|] != ' ';
      }
    }
  }

  /** Dropping the first character keeps a keyword-free text keyword-free. */
  lemma KeywordFreeTail(r: string)
    requires r != []
    requires !Contains(Lower(r), Keyword)
    ensures !Contains(Lower(r[1..]), Keyword)
  {
    assert Lower(r[1..]) == Lower(r)[1..];
  }

  /** A keyword-free prefix before a space does not change the first match. */
  lemma {:induction false} SkipKeywordFree(r: string, tail: string)
    requires tail != [] && tail[0] == ' '
    requires !Contains(Lower(r), Keyword)
    ensures FirstMatch(r + tail) == FirstMatch(tail)
  {
    if r != [] {
      NoMatchInside(r, tail);
      assert (r + tail)[1..] == r[1..] + tail;
      KeywordFreeTail(r);
      SkipKeywordFree(r[1..], tail);
    } else {
      assert r + tail == tail;
    }
  }

  lemma LowerLabel()
    ensures Lower("Confidence") == Keyword
  {
  }

  /** After the keyword, `: <digits>%` completes a match with the value of the digits. */
  lemma MatchAfterKeyword(t: string, d: string, rest: string)
    requires d != [] && AllDigits(d)
    requires |t| >= |Keyword| && Lower(t[..|Keyword|]) == Keyword
    requires t[|Keyword|..] == ": " + d + "%" + rest
    ensures MatchHere(t) == Some(DigitsValue(d))
  {
    var after := ": " + d + "%" + rest;
    assert after[1..][1..] == d + ("%" + rest);
    assert !IsSeparator(d[0]);
    assert SkipSeparators(after[1..][1..]) == after[1..][1..];
    assert SkipSeparators(after[1..]) == SkipSeparators(after[1..][1..]);
    assert SkipSeparators(after) == d + ("%" + rest);
    DigitRunOfDigits(d, "%" + rest);
    assert (d + ("%" + rest))[|d|] == '%';
  }

  /** `Confidence: <digits>%` matches with the value of the digits. */
  lemma MatchLabelled(d: string, rest: string)
    requires d != [] && AllDigits(d)
    ensures MatchHere("Confidence: " + d + "%" + rest) == Some(DigitsValue(d))
  {
    var t := "Confidence: " + d + "%" + rest;
    assert t[..|Keyword|] == "Confidence";
    LowerLabel();
    assert t[|Keyword|..] == ": " + d + "%" + rest;
    MatchAfterKeyword(t, d, rest);
  }

  /** The text an item appends after the reasoning: its first match is the confidence. */
  lemma LabelMatch(n: nat)
    ensures FirstMatch(" (Confidence: " + Digits(n) + "%)") == Some(n)
  {
    var d := Digits(n);
    var tail := " (Confidence: " + d + "%)";
    var labelled := "Confidence: " + d + "%" + ")";
    assert tail[1..][1..] == labelled;
    NoMatchAt(tail);
    NoMatchAt(tail[1..]);
    MatchLabelled(d, ")");
    DigitsRoundTrip(n);
    assert FirstMatch(labelled) == Some(n);
    assert FirstMatch(tail[1..]) == FirstMatch(labelled);
  }

  /**
    The item the aggregation writes for a prediction reads back, through
    `extractConfidence`, as that prediction's confidence, provided the
    reasoning text does not itself mention the keyword.
   */
  lemma ItemConfidenceRoundTrip(p: Prediction)
    requires p.confidence >= 0
    requires !Contains(Lower(p.reasoning), Keyword)
    ensures ExtractConfidence(Item(p)) == p.confidence
  {
    var tail := " (Confidence: " + Digits(p.confidence) + "%)";
    assert Item(p) == p.reasoning + tail;
    SkipKeywordFree(p.reasoning, tail);
    LabelMatch(p.confidence);
  }

  // ---------------------------------------------------------------------
  // extractPrediction and fallbackParsing
  // ---------------------------------------------------------------------

  /** The lower-cased text mentions `yes` or `true`. */
  predicate SaysYes(text: string)
  {
    Contains(Lower(text), "yes") || Contains(Lower(text), "true")
  }

  /** The lower-cased text mentions `no` or `false`. */
  predicate SaysNo(text: string)
  {
    Contains(Lower(text), "no") || Contains(Lower(text), "false")
  }

  /** `extractPrediction(text)`: `true`, `false`, or `null` when both or neither side is mentioned. */
  function ExtractPrediction(text: string): (r: Option<bool>)
    ensures r == Some(true) <==> SaysYes(text) && !SaysNo(text)
    ensures r == Some(false) <==> SaysNo(text) && !SaysYes(text)
    ensures r == None <==> (SaysYes(text) <==> SaysNo(text))
  {
    var yesMatch := SaysYes(text);
    var noMatch := SaysNo(text);
    if yesMatch && !noMatch then Some(true)
    else if noMatch && !yesMatch then Some(false)
    else None
  }

  /** The classification ignores ASCII case. */
  lemma ExtractPredictionIgnoresCase(text: string)
    ensures ExtractPrediction(Lower(text)) == ExtractPrediction(text)
  {
    LowerIdempotent(text);
  }

  /**
    Substring tests, not words: `know` contains `no`, so "Yes, I know" is
    uncertain and "I know" is a `false`.
   */
  lemma ExtractPredictionSubstrings()
    ensures ExtractPrediction("I know") == Some(false)
    ensures ExtractPrediction("Yes, I know") == None
    ensures ExtractPrediction("YES") == Some(true)
  {
    KnowReadsNo();
    YesKnowUncertain();
    UpperYesReadsYes();
  }

  /** "I know" holds the word "no" inside "know" and no positive word. */
  lemma KnowReadsNo()
    ensures ExtractPrediction("I know") == Some(false)
  {
    assert OccursAt(Lower("I know"), "no", 3);
    Absent(Lower("I know"), "yes");
    Absent(Lower("I know"), "true");
  }

  /** "Yes, I know" holds both a positive and a negative word. */
  lemma YesKnowUncertain()
    ensures ExtractPrediction("Yes, I know") == None
  {
    assert OccursAt(Lower("Yes, I know"), "yes", 0);
    assert OccursAt(Lower("Yes, I know"), "no", 8);
  }

  /** "YES" lower-cases to "yes" and holds no negative word. */
  lemma UpperYesReadsYes()
    ensures ExtractPrediction("YES") == Some(true)
  {
    assert OccursAt(Lower("YES"), "yes", 0);
    Absent(Lower("YES"), "no");
    Absent(Lower("YES"), "false");
  }

  /** What `fallbackParsing(content)` returns. */
  datatype Parsed = Parsed(outcome: bool, confidence: nat, probability: nat, reasoning: string)

  /** `fallbackParsing(content)` for a string `content`. */
  function FallbackParsing(content: string): (r: Parsed)
    ensures r.outcome <==> ExtractPrediction(content) == Some(true)
    ensures r.confidence == ExtractConfidence(content) && r.probability == r.confidence
    ensures r.reasoning == Prefix(content, 200) + Ellipsis
    ensures |r.reasoning| <= 203 && r.reasoning[..|r.reasoning| - 3] <= content
  {
    var confidence := ExtractConfidence(content);
    var outcome := ExtractPrediction(content);
    Parsed(if outcome != None then outcome.value else false, confidence, confidence,
           Prefix(content, 200) + Ellipsis)
  }
}
