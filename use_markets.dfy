/**
  The computations in src/hooks/useMarkets.ts: the countdown label of a
  market, the refresh that rewrites that label on every market, the mock
  market list, and the argument list `useCreateMarket` hands to the
  contract's `createMarket`. The clock is a parameter (`now`, in
  milliseconds) instead of a call to `Date.now()`.
 */
module UseMarkets {
  import opened Wrappers
  import opened Text

  const MsPerHour: int := 1000 * 60 * 60
  const MsPerDay: int := 1000 * 60 * 60 * 24
  const Expired: string := "Expired"

  // ---------------------------------------------------------------------
  // calculateTimeLeft
  // ---------------------------------------------------------------------

  /** Whole days and leftover whole hours in a positive span of milliseconds. */
  datatype Countdown = Countdown(days: nat, hours: nat)

  /** `Math.floor(diff / day)` and `Math.floor((diff % day) / hour)` for a positive `diff`. */
  function Split(diff: int): (c: Countdown)
    requires diff > 0
    ensures c.hours <= 23
    ensures c.days * MsPerDay + c.hours * MsPerHour <= diff < c.days * MsPerDay + (c.hours + 1) * MsPerHour
  {
    Countdown(diff / MsPerDay, (diff % MsPerDay) / MsPerHour)
  }

  /** Multiplying by a non-negative number keeps order. */
  lemma MulMonotone(a: int, b: int, d: int)
    requires a <= b && d >= 0
    ensures a * d <= b * d
  {
    assert b * d - a * d == (b - a) * d;
  }

  /** Two whole multiples of `d` whose `d`-long brackets both hold `x` are the same. */
  lemma BracketUnique(a: int, b: int, x: int, d: int)
    requires d > 0
    requires a * d <= x < (a + 1) * d && b * d <= x < (b + 1) * d
    ensures a == b
  {
    if a < b {
      MulMonotone(a + 1, b, d);
      assert false;
    } else if b < a {
      MulMonotone(b + 1, a, d);
      assert false;
    }
  }

  /** The split is the only days/hours pair with at most 23 hours that brackets `diff`. */
  lemma SplitUnique(diff: int, c: Countdown)
    requires diff > 0 && c.hours <= 23
    requires c.days * MsPerDay + c.hours * MsPerHour <= diff < c.days * MsPerDay + (c.hours + 1) * MsPerHour
    ensures c == Split(diff)
  {
    var s := Split(diff);
    MulMonotone(c.hours + 1, 24, MsPerHour);
    MulMonotone(s.hours + 1, 24, MsPerHour);
    BracketUnique(c.days, s.days, diff, MsPerDay);
    BracketUnique(c.hours, s.hours, diff - c.days * MsPerDay, MsPerHour);
  }

  /** `${days}d ${hours}h`. */
  function Label(c: Countdown): string
  {
    Digits(c.days) + ("d " + (Digits(c.hours) + "h"))
  }

  /** `calculateTimeLeft(resolutionTime)` read at time `now`. */
  function CalculateTimeLeft(resolutionTime: int, now: int): (r: string)
    ensures r == Expired <==> resolutionTime - now <= 0
  {
    var diff := resolutionTime - now;
    if diff <= 0 then Expired
    else
      var r := Label(Split(diff));
      assert IsDigit(r[0]);
      r
  }

  /** Reads the `<digits>h` end of a label back into its number. */
  function ParseHours(s: string): Option<nat>
  {
    var h := DigitRun(s);
    if |h| == 0 || s[|h|..] != "h" then None else Some(DigitsValue(h))
  }

  /** Reads a label `<digits>d <digits>h` back into its numbers. */
  function ParseLabel(s: string): Option<Countdown>
  {
    var d := DigitRun(s);
    if |d| == 0 || |s| < |d| + 2 || s[|d|..|d| + 2] != "d " then None
    else
      match ParseHours(s[|d| + 2..])
      case None => None
      case Some(hours) => Some(Countdown(DigitsValue(d), hours))
  }

  /** A digit run followed by `h` reads back as its value. */
  lemma ParseHoursFramed(h: string)
    requires |h| > 0 && AllDigits(h)
    ensures ParseHours(h + "h") == Some(DigitsValue(h))
  {
    DigitRunOfDigits(h, "h");
    assert (h + "h")[|h|..] == "h";
  }

  /** Two digit runs framed as `<d>d <h>h` read back as their values. */
  lemma ParseFramed(d: string, h: string)
    requires |d| > 0 && |h| > 0 && AllDigits(d) && AllDigits(h)
    ensures ParseLabel(d + ("d " + (h + "h"))) == Some(Countdown(DigitsValue(d), DigitsValue(h)))
  {
    var hours := h + "h";
    var tail := "d " + hours;
    var s := d + tail;
    assert DigitRun(s) == d by {
      DigitRunOfDigits(d, tail);
    }
    assert s[|d|..|d| + 2] == "d " && s[|d| + 2..] == hours by {
      assert s[|d|..] == tail;
    }
    assert ParseHours(hours) == Some(DigitsValue(h)) by {
      ParseHoursFramed(h);
    }
  }

  /** A label reads back as the numbers it was printed from. */
  lemma LabelRoundTrip(c: Countdown)
    ensures ParseLabel(Label(c)) == Some(c)
  {
    ParseFramed(Digits(c.days), Digits(c.hours));
    DigitsRoundTrip(c.days);
    DigitsRoundTrip(c.hours);
  }

  /**
    The countdown label reads back as nothing once the deadline has passed,
    and otherwise as the days and leftover hours of the remaining span.
   */
  lemma TimeLeftRoundTrip(resolutionTime: int, now: int)
    ensures ParseLabel(CalculateTimeLeft(resolutionTime, now))
            == if resolutionTime - now <= 0 then None else Some(Split(resolutionTime - now))
  {
    if resolutionTime - now > 0 {
      LabelRoundTrip(Split(resolutionTime - now));
    } else {
      assert DigitRun(Expired) == [];
    }
  }

  /** A later clock never shows more days left. */
  lemma DaysNonIncreasing(resolutionTime: int, now1: int, now2: int)
    requires now1 <= now2 < resolutionTime
    ensures Split(resolutionTime - now2).days <= Split(resolutionTime - now1).days
  {
    var d1, d2 := resolutionTime - now1, resolutionTime - now2;
    assert Split(d2).days * MsPerDay <= d2 <= d1 < (Split(d1).days + 1) * MsPerDay;
    if Split(d2).days > Split(d1).days {
      assert false;
    }
  }

  // ---------------------------------------------------------------------
  // Markets and the refresh
  // ---------------------------------------------------------------------

  datatype Status = Active | Resolving | Resolved

  /** The `Market` interface; `resolutionTime` in milliseconds. */
  datatype Market = Market(
    id: int,
    question: string,
    yesPrice: real,
    noPrice: real,
    timeLeft: string,
    totalVolume: real,
    status: Status,
    outcome: Option<bool>,
    resolutionTime: int,
    totalYesShares: real,
    totalNoShares: real)

  /** `markets.map(market => ({ ...market, timeLeft: calculateTimeLeft(market.resolutionTime) }))`. */
  function RefreshTimeLeft(markets: seq<Market>, now: int): (r: seq<Market>)
    ensures |r| == |markets|
    ensures forall i :: 0 <= i < |markets| ==>
              r[i].(timeLeft := markets[i].timeLeft) == markets[i]
              && r[i].timeLeft == CalculateTimeLeft(markets[i].resolutionTime, now)
  {
    seq(|markets|, i requires 0 <= i < |markets| =>
      markets[i].(timeLeft := CalculateTimeLeft(markets[i].resolutionTime, now)))
  }

  /** Refreshing again replaces the earlier labels: only the latest clock matters. */
  lemma RefreshLatestWins(markets: seq<Market>, now1: int, now2: int)
    ensures RefreshTimeLeft(RefreshTimeLeft(markets, now1), now2) == RefreshTimeLeft(markets, now2)
  {
  }

  /** A refreshed list keeps its ids in order. */
  lemma RefreshKeepsIds(markets: seq<Market>, now: int)
    ensures forall i :: 0 <= i < |markets| ==> RefreshTimeLeft(markets, now)[i].id == markets[i].id
  {
  }

  /**
    The mock markets, built when the hook renders at `created`: their
    deadlines lie 15, 2.5 and 45 days ahead, and their literal `timeLeft`
    strings are placeholders the first refresh replaces.
   */
  function MockMarkets(created: int): (r: seq<Market>)
    ensures |r| == 3
    ensures r[0].resolutionTime == created + 15 * MsPerDay
    ensures r[1].resolutionTime == created + 5 * MsPerDay / 2
    ensures r[2].resolutionTime == created + 45 * MsPerDay
  {
    [ Market(1, "Will BTC hit $100K by end of month?", 0.55, 0.45, "15d 8h", 50000.0, Active, None,
             created + 15 * MsPerDay, 27500.0, 22500.0),
      Market(2, "Will ETH reach $5,000 by year-end?", 0.83, 0.17, "2d 12h", 25000.0, Active, None,
             created + 5 * MsPerDay / 2, 20750.0, 4250.0),
      Market(3, "Will DUCK token reach $10 by Q1 2025?", 0.72, 0.28, "45d 6h", 15000.0, Active, None,
             created + 45 * MsPerDay, 10800.0, 4200.0) ]
  }

  /** The list the effect installs: the mock markets refreshed at the effect's clock `now`. */
  function InitialMarkets(created: int, now: int): seq<Market>
  {
    RefreshTimeLeft(MockMarkets(created), now)
  }

  /** Read on the same millisecond as the render, the labels are 15d 0h, 2d 12h and 45d 0h. */
  lemma InitialLabelsSameInstant(created: int)
    ensures |InitialMarkets(created, created)| == 3
    ensures InitialMarkets(created, created)[0].timeLeft == "15d 0h"
    ensures InitialMarkets(created, created)[1].timeLeft == "2d 12h"
    ensures InitialMarkets(created, created)[2].timeLeft == "45d 0h"
  {
    var ms := MockMarkets(created);
    RenderLabelTexts();
    assert ms[0].resolutionTime - created == 15 * MsPerDay;
    assert ms[1].resolutionTime - created == 2 * MsPerDay + 12 * MsPerHour;
    assert ms[2].resolutionTime - created == 45 * MsPerDay;
    RefreshedLabel(ms, created, 0, Countdown(15, 0));
    RefreshedLabel(ms, created, 1, Countdown(2, 12));
    RefreshedLabel(ms, created, 2, Countdown(45, 0));
  }

  /**
    Read up to an hour after the render (the effect runs after it), every
    label loses an hour: 14d 23h, 2d 11h and 44d 23h.
   */
  lemma InitialLabelsLater(created: int, now: int)
    requires created < now <= created + MsPerHour
    ensures |InitialMarkets(created, now)| == 3
    ensures InitialMarkets(created, now)[0].timeLeft == "14d 23h"
    ensures InitialMarkets(created, now)[1].timeLeft == "2d 11h"
    ensures InitialMarkets(created, now)[2].timeLeft == "44d 23h"
  {
    var ms := MockMarkets(created);
    LaterLabelTexts();
    RefreshedLabel(ms, now, 0, Countdown(14, 23));
    RefreshedLabel(ms, now, 1, Countdown(2, 11));
    RefreshedLabel(ms, now, 2, Countdown(44, 23));
  }

  /** After a refresh at `now`, a market whose time left `c` brackets shows the label of `c`. */
  lemma RefreshedLabel(ms: seq<Market>, now: int, i: nat, c: Countdown)
    requires i < |ms| && c.hours <= 23 && ms[i].resolutionTime - now > 0
    requires c.days * MsPerDay + c.hours * MsPerHour <= ms[i].resolutionTime - now
             < c.days * MsPerDay + (c.hours + 1) * MsPerHour
    ensures RefreshTimeLeft(ms, now)[i].timeLeft == Label(c)
  {
    LabelWithin(ms[i].resolutionTime, now, c);
  }

  /** The printed labels of the countdowns the mock markets show at render time. */
  lemma RenderLabelTexts()
    ensures Label(Countdown(15, 0)) == "15d 0h" && Label(Countdown(2, 12)) == "2d 12h"
    ensures Label(Countdown(45, 0)) == "45d 0h"
  {
    assert Digits(0) == "0" && Digits(2) == "2" && Digits(12) == "12";
    assert Digits(15) == "15" && Digits(45) == "45";
  }

  /** The printed labels of the countdowns the mock markets show an hour or less later. */
  lemma LaterLabelTexts()
    ensures Label(Countdown(14, 23)) == "14d 23h" && Label(Countdown(2, 11)) == "2d 11h"
    ensures Label(Countdown(44, 23)) == "44d 23h"
  {
    assert Digits(2) == "2" && Digits(11) == "11";
    assert Digits(14) == "14" && Digits(23) == "23" && Digits(44) == "44";
  }

  /** A countdown that brackets the time left is the one the label shows. */
  lemma LabelWithin(resolutionTime: int, now: int, c: Countdown)
    requires c.hours <= 23 && resolutionTime - now > 0
    requires c.days * MsPerDay + c.hours * MsPerHour <= resolutionTime - now
             < c.days * MsPerDay + (c.hours + 1) * MsPerHour
    ensures CalculateTimeLeft(resolutionTime, now) == Label(c)
  {
    SplitUnique(resolutionTime - now, c);
  }

  // ---------------------------------------------------------------------
  // useCreateMarket
  // ---------------------------------------------------------------------

  /** Thirty days in seconds. */
  const ResolutionWindow: int := 30 * 24 * 60 * 60

  /** `dataSource === 'onchain' ? 0 : 1`. */
  function DataSourceCode(dataSource: string): (code: nat)
    ensures code <= 1
    ensures code == 0 <==> dataSource == "onchain"
  {
    if dataSource == "onchain" then 0 else 1
  }

  /**
    The arguments of the `createMarket` contract call; `stake` is the
    decimal text that `parseEther` converts to the initial liquidity.
   */
  datatype CreateMarketCall = CreateMarketCall(
    question: string, criteria: string, dataSource: nat, resolutionTime: int, stake: string)

  /**
    What `createMarket` sends at time `now` (milliseconds): nothing when no
    oracle address is configured, otherwise the call arguments with a
    deadline in seconds 30 days after the current second.
   */
  function CreateMarketArgs(configured: bool, question: string, criteria: string, dataSource: string,
                            stake: string, now: int): (r: Option<CreateMarketCall>)
    ensures r.None? <==> !configured
    ensures r.Some? ==> r.value.question == question && r.value.criteria == criteria && r.value.stake == stake
    ensures r.Some? ==> r.value.dataSource == DataSourceCode(dataSource)
    ensures r.Some? ==> (r.value.resolutionTime - ResolutionWindow) * 1000 <= now
                        < (r.value.resolutionTime - ResolutionWindow + 1) * 1000
  {
    if !configured then None
    else
      var resolutionTime := now / 1000 + ResolutionWindow;
      Some(CreateMarketCall(question, criteria, DataSourceCode(dataSource), resolutionTime, stake))
  }
}
