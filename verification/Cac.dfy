// Centralized Authentication Control (sections 9.4.2.202 and 11.3.9.2 of IEEE 802.11REVme): an access
// point counts authentication requests and moves a threshold that admits or holds back stations.
module Cac {
  import opened Bytes

  const THRESHOLD_MAX := 1023
  const RULE_MAX := 8
  const CHECK_INTERVAL_MS := 100
  const CHECK_PERIOD_MS := 1000

  // A rule compares the frame count with arfs; a negative change lowers the threshold.
  datatype Rule = Rule(arfs: u16, change: s16)

  const DEFAULT_RULES: seq<Rule> :=
    [Rule(16, -255), Rule(12, -122), Rule(10, -61), Rule(4, 255), Rule(6, 122), Rule(8, 61)]

  datatype State = State(enabled: bool, rules: seq<Rule>, threshold: u16, arfs: u16, periodUsed: nat)

  predicate Valid(s: State) {
    && |s.rules| <= RULE_MAX
    && s.threshold <= THRESHOLD_MAX
    && s.periodUsed < CHECK_PERIOD_MS && s.periodUsed % CHECK_INTERVAL_MS == 0
  }

  // ----- the rule search

  // A rule that settles the search: a decrease whose limit is exceeded, or any increase that finds
  // the threshold at its maximum, the period unfinished, or its limit not reached.
  predicate Decides(r: Rule, threshold: u16, arfs: u16, endOfPeriod: bool) {
    if r.change < 0 then arfs > r.arfs
    else threshold == THRESHOLD_MAX || !endOfPeriod || arfs < r.arfs
  }

  // The change the first deciding rule asks for; 0 when none decides or an increase is held back.
  function Change(rules: seq<Rule>, threshold: u16, arfs: u16, endOfPeriod: bool): int
    decreases |rules|
  {
    if |rules| == 0 then 0
    else if !Decides(rules[0], threshold, arfs, endOfPeriod) then
      Change(rules[1..], threshold, arfs, endOfPeriod)
    else if rules[0].change < 0 then rules[0].change
    else if threshold == THRESHOLD_MAX || !endOfPeriod then 0
    else rules[0].change
  }

  function Clamp(threshold: int): u16 {
    if threshold < 0 then 0 else if threshold > THRESHOLD_MAX then THRESHOLD_MAX else threshold
  }

  // ----- one timer tick, and everything else that touches the controller

  function Tick(s: State): State {
    if !s.enabled then s else
    var used := s.periodUsed + CHECK_INTERVAL_MS;
    var ended := used >= CHECK_PERIOD_MS;
    var change := if s.arfs != 0 || s.threshold != THRESHOLD_MAX
                  then Change(s.rules, s.threshold, s.arfs, ended) else 0;
    var s1 := s.(threshold := if change != 0 then Clamp(s.threshold + change) else s.threshold);
    if ended || change != 0 then s1.(periodUsed := 0, arfs := 0) else s1.(periodUsed := used)
  }

  datatype Event =
    | Enable(ap: bool)
    | Disable
    | Auth(transaction: u16)
    | TimerTick
    | SetRules(rules: seq<Rule>)

  function Next(s: State, e: Event): State {
    match e
    case Enable(ap) =>
      if s.enabled then s
      else if !ap then s.(enabled := true)
      else s.(enabled := true, threshold := THRESHOLD_MAX, rules := DEFAULT_RULES)
    case Disable => s.(enabled := false)
    case Auth(transaction) => if transaction != 1 then s else s.(arfs := (s.arfs + 1) % 0x10000)
    case TimerTick => Tick(s)
    case SetRules(rules) => s.(rules := rules)
  }

  // A freshly allocated, zeroed controller.
  const FRESH: State := State(false, [], 0, 0, 0)

  function Run(s: State, events: seq<Event>): State
    decreases |events|
  {
    if |events| == 0 then s else Run(Next(s, events[0]), events[1..])
  }

  // Rule lists only reach the controller with at most eight rules (see CfgSet).
  predicate LegalEvent(e: Event) {
    e.SetRules? ==> |e.rules| <= RULE_MAX
  }

  // The threshold stays in 0..1023 and the period counter below 1000, in every run.
  lemma {:induction false} RunsStayValid(s: State, events: seq<Event>)
    requires Valid(s) && forall e :: e in events ==> LegalEvent(e)
    ensures Valid(Run(s, events))
    decreases |events|
  {
    if |events| > 0 {
      assert LegalEvent(events[0]);
      RunsStayValid(Next(s, events[0]), events[1..]);
    }
  }

  // ----- recovery: sixty quiet ticks reopen the threshold completely

  function Ticks(s: State, n: nat): State
    decreases n
  {
    if n == 0 then s else Ticks(Tick(s), n - 1)
  }

  // Increases of 255 still needed.
  function Rounds(threshold: u16): nat {
    if threshold >= THRESHOLD_MAX then 0 else (THRESHOLD_MAX - threshold + 254) / 255
  }

  // Ticks still needed under the default rules if no authentication frame is counted.
  function Lag(s: State): int {
    if s.arfs != 0 then 60 - s.periodUsed / 100
    else if s.threshold >= THRESHOLD_MAX then 0
    else 10 * Rounds(s.threshold) - s.periodUsed / 100
  }

  // Every tick brings the recovery at least one tick nearer.
  lemma {:induction false} LagFalls(s: State)
    requires Valid(s) && s.enabled && s.rules == DEFAULT_RULES
    ensures var t := Tick(s);
            Valid(t) && t.enabled && t.rules == s.rules && (Lag(t) < Lag(s) || Lag(t) <= 0 == Lag(s))
  {
    DefaultRulesMean(s.threshold, s.arfs, s.periodUsed + CHECK_INTERVAL_MS >= CHECK_PERIOD_MS);
    assert Rounds(Tick(s).threshold) <= 5;
  }

  lemma {:induction false} LagRunsOut(s: State, n: nat)
    requires Valid(s) && s.enabled && s.rules == DEFAULT_RULES
    requires Lag(s) <= n
    ensures Ticks(s, n).threshold == THRESHOLD_MAX
    decreases n
  {
    if n > 0 {
      LagFalls(s);
      LagRunsOut(Tick(s), n - 1);
    }
  }

  // Ticks, and frames that are not the first of an authentication and so are not counted.
  predicate QuietEvent(e: Event) {
    e.TimerTick? || (e.Auth? && e.transaction != 1)
  }

  function CountTicks(events: seq<Event>): nat
    decreases |events|
  {
    if |events| == 0 then 0 else (if events[0].TimerTick? then 1 else 0) + CountTicks(events[1..])
  }

  lemma {:induction false} QuietRunIsTicks(s: State, events: seq<Event>)
    requires forall e :: e in events ==> QuietEvent(e)
    ensures Run(s, events) == Ticks(s, CountTicks(events))
    decreases |events|
  {
    if |events| > 0 {
      assert QuietEvent(events[0]);
      QuietRunIsTicks(Next(s, events[0]), events[1..]);
    }
  }

  // From any reachable state under the default rules, sixty ticks with no counted frame among them
  // end with the threshold at its maximum.
  lemma {:induction false} SixtyQuietTicksRecover(before: seq<Event>, quiet: seq<Event>)
    requires forall e :: e in before ==> LegalEvent(e)
    requires var s := Run(FRESH, before); s.enabled && s.rules == DEFAULT_RULES
    requires (forall e :: e in quiet ==> QuietEvent(e)) && CountTicks(quiet) >= 60
    ensures Run(Run(FRESH, before), quiet).threshold == THRESHOLD_MAX
  {
    var s := Run(FRESH, before);
    RunsStayValid(FRESH, before);
    QuietRunIsTicks(s, quiet);
    assert Lag(s) <= 60;
    LagRunsOut(s, CountTicks(quiet));
  }

  // Sixty is needed: nine frames at the start of a period hold a closed threshold for ten ticks, and
  // five periods reopen it.
  lemma {:induction false} SlowestRecovery(s: State, n: nat)
    requires Valid(s) && s.enabled && s.rules == DEFAULT_RULES
    requires s.arfs == 0 || (s.arfs == 9 && s.threshold == 0)
    requires n < Lag(s)
    ensures Ticks(s, n).threshold < THRESHOLD_MAX
    decreases n
  {
    if n > 0 {
      DefaultRulesMean(s.threshold, s.arfs, s.periodUsed + CHECK_INTERVAL_MS >= CHECK_PERIOD_MS);
      SlowestRecovery(Tick(s), n - 1);
    }
  }

  lemma {:induction false} RunAppend(s: State, a: seq<Event>, b: seq<Event>)
    ensures Run(s, a + b) == Run(Run(s, a), b)
    decreases |a|
  {
    if |a| == 0 {
      assert a + b == b;
    } else {
      assert (a + b)[1..] == a[1..] + b;
      RunAppend(Next(s, a[0]), a[1..], b);
    }
  }

  // n copies of an event.
  function Repeat(e: Event, n: nat): (r: seq<Event>)
    ensures |r| == n && forall x :: x in r ==> x == e
  {
    if n == 0 then [] else [e] + Repeat(e, n - 1)
  }

  // The number of frames that are the first of an authentication.
  function FirstFrames(events: seq<Event>): nat
    decreases |events|
  {
    if |events| == 0 then 0
    else (if events[0].Auth? && events[0].transaction == 1 then 1 else 0) + FirstFrames(events[1..])
  }

  // Authentication frames change nothing but the count, which counts the first frames in 16 bits.
  lemma {:induction false} FramesCounted(s: State, events: seq<Event>)
    requires forall e :: e in events ==> e.Auth?
    ensures Run(s, events) == s.(arfs := (s.arfs + FirstFrames(events)) % 0x1_0000)
    decreases |events|
  {
    if |events| > 0 {
      assert events[0].Auth?;
      var s' := Next(s, events[0]);
      FramesCounted(s', events[1..]);
      CountModulo(s.arfs, s'.arfs - s.arfs, FirstFrames(events[1..]));
    }
  }

  lemma {:induction false} CountModulo(arfs: u16, step: int, more: nat)
    requires 0 <= arfs + step < 0x1_0000
    ensures step == -0xffff ==> (arfs + step + more) % 0x1_0000 == (arfs + 1 + more) % 0x1_0000
  {}

  lemma {:induction false} RepeatedFrames(n: nat)
    ensures FirstFrames(Repeat(Auth(1), n)) == n
    decreases n
  {
    if n > 0 {
      RepeatedFrames(n - 1);
    }
  }

  // Switching the controller on starts an access point at the maximum with the default rules and leaves a
  // station's state alone; doing so twice, or switching it off, changes nothing else.
  lemma {:induction false} SwitchingMeans(s: State, ap: bool)
    ensures Next(s, Enable(ap)) ==
            if s.enabled then s
            else if ap then State(true, DEFAULT_RULES, 1023, s.arfs, s.periodUsed)
            else State(true, s.rules, s.threshold, s.arfs, s.periodUsed)
    ensures Next(s, Disable) == State(false, s.rules, s.threshold, s.arfs, s.periodUsed)
  {}

  // Seventeen frames and a tick lower the threshold by 255.
  function Surge(): seq<Event> { Repeat(Auth(1), 17) + [TimerTick] }

  function Surges(n: nat): (r: seq<Event>)
    ensures forall x :: x in r ==> LegalEvent(x)
  {
    if n == 0 then [] else Surge() + Surges(n - 1)
  }

  function Falls(threshold: u16, n: nat): (r: u16)
    ensures r <= threshold
  {
    if n == 0 then threshold else Falls(if threshold < 255 then 0 else threshold - 255, n - 1)
  }

  lemma {:induction false} FewFrames(s: State, n: nat)
    requires s.arfs + n < 0x1_0000
    ensures Run(s, Repeat(Auth(1), n)) == s.(arfs := s.arfs + n)
  {
    RepeatedFrames(n);
    FramesCounted(s, Repeat(Auth(1), n));
  }

  lemma {:induction false} SurgeTick(t: State)
    requires t.enabled && t.rules == DEFAULT_RULES && t.arfs == 17 && t.periodUsed == 0 && t.threshold <= THRESHOLD_MAX
    ensures Run(t, [TimerTick]) == t.(threshold := Falls(t.threshold, 1), arfs := 0)
  {
    DefaultRulesMean(t.threshold, t.arfs, false);
    assert Run(t, [TimerTick]) == Run(Tick(t), []);
  }

  lemma {:induction false} SurgeRun(s: State)
    requires s.enabled && s.rules == DEFAULT_RULES && s.arfs == 0 && s.periodUsed == 0 && s.threshold <= THRESHOLD_MAX
    ensures Run(s, Surge()) == s.(threshold := Falls(s.threshold, 1))
  {
    FewFrames(s, 17);
    RunAppend(s, Repeat(Auth(1), 17), [TimerTick]);
    SurgeTick(s.(arfs := 17));
  }

  lemma {:induction false} SurgesRun(s: State, n: nat)
    requires s.enabled && s.rules == DEFAULT_RULES && s.arfs == 0 && s.periodUsed == 0 && s.threshold <= THRESHOLD_MAX
    ensures Run(s, Surges(n)) == s.(threshold := Falls(s.threshold, n))
    decreases n
  {
    if n > 0 {
      SurgeRun(s);
      RunAppend(s, Surge(), Surges(n - 1));
      SurgesRun(Run(s, Surge()), n - 1);
    }
  }

  function Closing(): seq<Event> { [Enable(true)] + (Surges(5) + Repeat(Auth(1), 9)) }

  // Five surges close an access point's threshold; nine frames follow.
  lemma {:induction false} ClosingRun()
    ensures Run(FRESH, Closing()) == State(true, DEFAULT_RULES, 0, 9, 0)
  {
    var s := Next(FRESH, Enable(true));
    assert Closing()[1..] == Surges(5) + Repeat(Auth(1), 9);
    SurgesRun(s, 5);
    assert Falls(THRESHOLD_MAX, 5) == Falls(768, 4) == Falls(513, 3) == Falls(258, 2) == Falls(3, 1) == 0;
    RunAppend(s, Surges(5), Repeat(Auth(1), 9));
    FewFrames(s.(threshold := 0), 9);
  }

  lemma {:induction false} ClosingIsLegal()
    ensures forall e :: e in Closing() ==> LegalEvent(e)
  {}

  lemma {:induction false} TicksCounted(n: nat)
    ensures CountTicks(Repeat(TimerTick, n)) == n
    decreases n
  {
    if n > 0 {
      TicksCounted(n - 1);
    }
  }

  lemma {:induction false} QuietTicks(s: State, n: nat)
    ensures (forall e :: e in Repeat(TimerTick, n) ==> QuietEvent(e)) && CountTicks(Repeat(TimerTick, n)) == n
    ensures Run(s, Repeat(TimerTick, n)) == Ticks(s, n)
  {
    TicksCounted(n);
    QuietRunIsTicks(s, Repeat(TimerTick, n));
  }

  // A run under the default rules after which fifty-nine quiet ticks leave the threshold below its maximum.
  lemma {:induction false} FiftyNineTicksMayNotSuffice() returns (before: seq<Event>, quiet: seq<Event>)
    ensures forall e :: e in before ==> LegalEvent(e)
    ensures var s := Run(FRESH, before); s.enabled && s.rules == DEFAULT_RULES
    ensures (forall e :: e in quiet ==> QuietEvent(e)) && CountTicks(quiet) == 59
    ensures Run(Run(FRESH, before), quiet).threshold < THRESHOLD_MAX
  {
    before, quiet := Closing(), Repeat(TimerTick, 59);
    var s := State(true, DEFAULT_RULES, 0, 9, 0);
    ClosingIsLegal();
    ClosingRun();
    QuietTicks(s, 59);
    SlowestRecovery(s, 59);
  }

  // ----- more frames never relax the threshold further

  // Decreases first, with falling limits and the strongest first; then increases, with rising limits
  // and the strongest first.
  predicate WellOrdered(rules: seq<Rule>) {
    forall i, j :: 0 <= i < j < |rules| ==>
      && (rules[i].change >= 0 ==> rules[j].change >= 0 && rules[i].arfs <= rules[j].arfs
                                   && rules[i].change >= rules[j].change)
      && (rules[i].change < 0 && rules[j].change < 0 ==>
            rules[i].arfs >= rules[j].arfs && rules[i].change <= rules[j].change)
  }

  // The change comes from the first rule that decides: every rule before it is a decrease whose limit is not
  // exceeded, or an increase whose limit is reached at the end of a period below the maximum. An increase is
  // applied only at the end of a period and below the maximum.
  lemma {:induction false} FirstRuleDecides(rules: seq<Rule>, threshold: u16, arfs: u16, ended: bool)
    returns (k: nat)
    ensures k <= |rules|
    ensures forall i :: 0 <= i < k ==>
              if rules[i].change < 0 then arfs <= rules[i].arfs
              else threshold != THRESHOLD_MAX && ended && arfs >= rules[i].arfs
    ensures k == |rules| ==> Change(rules, threshold, arfs, ended) == 0
    ensures k < |rules| && rules[k].change < 0 ==>
              arfs > rules[k].arfs && Change(rules, threshold, arfs, ended) == rules[k].change
    ensures k < |rules| && rules[k].change >= 0 ==>
              if ended && threshold != THRESHOLD_MAX
              then arfs < rules[k].arfs && Change(rules, threshold, arfs, ended) == rules[k].change
              else Change(rules, threshold, arfs, ended) == 0
    decreases |rules|
  {
    if |rules| == 0 || Decides(rules[0], threshold, arfs, ended) {
      k := 0;
    } else {
      var j := FirstRuleDecides(rules[1..], threshold, arfs, ended);
      k := j + 1;
      assert forall i :: 0 < i < k ==> rules[i] == rules[1..][i - 1];
    }
  }

  // What the default rules do for every number of frames.
  lemma {:induction false} DefaultRulesMean(threshold: u16, arfs: u16, ended: bool)
    ensures Change(DEFAULT_RULES, threshold, arfs, ended) ==
            if arfs > 16 then -255
            else if arfs > 12 then -122
            else if arfs > 10 then -61
            else if !ended || threshold == THRESHOLD_MAX then 0
            else if arfs < 4 then 255
            else if arfs < 6 then 122
            else if arfs < 8 then 61
            else 0
  {
    assert DEFAULT_RULES[1..] == [Rule(12, -122), Rule(10, -61), Rule(4, 255), Rule(6, 122), Rule(8, 61)];
    assert DEFAULT_RULES[1..][1..] == [Rule(10, -61), Rule(4, 255), Rule(6, 122), Rule(8, 61)];
    assert DEFAULT_RULES[1..][1..][1..] == [Rule(4, 255), Rule(6, 122), Rule(8, 61)];
    assert DEFAULT_RULES[1..][1..][1..][1..] == [Rule(6, 122), Rule(8, 61)];
    assert DEFAULT_RULES[1..][1..][1..][1..][1..] == [Rule(8, 61)];
  }

  // A tick moves the threshold by the change the rules ask for, within 0..1023. One that ends a period or moves
  // the threshold starts a new period with no frames counted; any other
  // tick only takes up time. The threshold rises only when a period ends.
  lemma {:induction false} TickMeans(s: State)
    requires Valid(s) && s.enabled
    ensures var t, used := Tick(s), s.periodUsed + 100;
            var moved := s.threshold + Change(s.rules, s.threshold, s.arfs, used >= 1000);
            && t.threshold == (if moved < 0 then 0 else if moved > 1023 then 1023 else moved)
            && (t.threshold > s.threshold ==> used >= 1000)
            && (used >= 1000 || t.threshold != s.threshold ==> t.arfs == 0 && t.periodUsed == 0)
            && (t.periodUsed != 0 ==> t == s.(periodUsed := used))
            && t.enabled && t.rules == s.rules
  {
    var k := FirstRuleDecides(s.rules, s.threshold, s.arfs, s.periodUsed + CHECK_INTERVAL_MS >= CHECK_PERIOD_MS);
  }

  lemma {:induction false} MoreFramesNeverRelax(rules: seq<Rule>, threshold: u16, few: u16, many: u16, ended: bool)
    requires WellOrdered(rules) && few <= many
    ensures Change(rules, threshold, many, ended) <= Change(rules, threshold, few, ended)
    decreases |rules|
  {
    if |rules| > 0 {
      var rest := rules[1..];
      assert forall i, j :: 0 <= i < j < |rest| ==> rest[i] == rules[i + 1] && rest[j] == rules[j + 1];
      MoreFramesNeverRelax(rest, threshold, few, many, ended);
      var k := FirstRuleDecides(rest, threshold, many, ended);
      k := FirstRuleDecides(rest, threshold, few, ended);
      assert forall k :: 0 <= k < |rest| ==> rest[k] == rules[k + 1];
    }
  }

  lemma {:induction false} DefaultRulesWellOrdered()
    ensures WellOrdered(DEFAULT_RULES)
  {}

  // ----- percentages

  // Division of C, truncating toward zero.
  function TruncDiv(a: int, b: int): int
    requires b > 0
  {
    if a >= 0 then a / b else -((-a) / b)
  }

  // Conversion to a 16-bit signed integer.
  function ToS16(x: int): s16 {
    (x + 0x8000) % 0x10000 - 0x8000
  }

  function PercentToValue(percent: s16): s16 {
    ToS16(TruncDiv(percent * THRESHOLD_MAX, 100))
  }

  function ValueToPercent(value: s16): s16 {
    if value < 0 then ToS16(TruncDiv(value * 100 - (THRESHOLD_MAX - 1), THRESHOLD_MAX))
    else ToS16(TruncDiv(value * 100 + THRESHOLD_MAX - 1, THRESHOLD_MAX))
  }

  // The scaled percentage fits a 16-bit value: percentages from -3203 to 3203.
  predicate ScalesTo16Bits(percent: s16) {
    -0x8000 <= TruncDiv(percent * THRESHOLD_MAX, 100) < 0x8000
  }

  lemma {:induction false} FittingPercents(percent: s16)
    ensures ScalesTo16Bits(percent) <==> -3203 <= percent <= 3203
  {}

  lemma {:induction false} RoundTripUp(percent: s16)
    requires 0 <= percent <= 3203
    ensures ValueToPercent(PercentToValue(percent)) == percent
  {
    assert PercentToValue(percent) == percent * 1023 / 100;
  }

  lemma {:induction false} RoundTripDown(percent: s16)
    requires -3203 <= percent < 0
    ensures ValueToPercent(PercentToValue(percent)) == percent
  {
    assert PercentToValue(percent) == -((-percent) * 1023 / 100);
  }

  lemma {:induction false} ReadBackBounded(value: s16)
    ensures -3204 <= ValueToPercent(value) <= 3204
  {}

  // A wrapped value reads back within -3204..3204, and the two ends wrap to the other sign.
  lemma {:induction false} NoRoundTrip(percent: s16)
    requires percent < -3203 || 3203 < percent
    ensures ValueToPercent(PercentToValue(percent)) != percent
  {
    ReadBackBounded(PercentToValue(percent));
    assert PercentToValue(3204) == -32760 && PercentToValue(-3204) == 32760;
  }

  // Scaling down and rounding back is the identity exactly on the percentages that fit.
  lemma {:induction false} PercentRoundTrip(percent: s16)
    ensures ValueToPercent(PercentToValue(percent)) == percent <==> ScalesTo16Bits(percent)
  {
    FittingPercents(percent);
    if percent < -3203 || 3203 < percent {
      NoRoundTrip(percent);
    } else if percent < 0 {
      RoundTripDown(percent);
    } else {
      RoundTripUp(percent);
    }
  }

  // The value is the percentage of 1023, truncated toward zero.
  lemma {:induction false} PercentScales(percent: s16)
    requires ScalesTo16Bits(percent)
    ensures var v := PercentToValue(percent);
            && (percent >= 0 ==> 0 <= 100 * v <= 1023 * percent < 100 * (v + 1))
            && (percent <= 0 ==> 100 * (v - 1) < 1023 * percent <= 100 * v <= 0)
  {}

  // Rules in percent as the configuration command carries them, and in threshold units.
  function ToValues(rules: seq<Rule>): (r: seq<Rule>)
    ensures |r| == |rules|
  {
    seq(|rules|, i requires 0 <= i < |rules| => Rule(rules[i].arfs, PercentToValue(rules[i].change)))
  }

  function ToPercents(rules: seq<Rule>): (r: seq<Rule>)
    ensures |r| == |rules|
  {
    seq(|rules|, i requires 0 <= i < |rules| => Rule(rules[i].arfs, ValueToPercent(rules[i].change)))
  }

  // A rule list set in percent is read back unchanged exactly when every change fits.
  lemma {:induction false} RulesRoundTrip(rules: seq<Rule>)
    ensures ToPercents(ToValues(rules)) == rules <==>
            forall i :: 0 <= i < |rules| ==> ScalesTo16Bits(rules[i].change)
  {
    var back := ToPercents(ToValues(rules));
    forall i | 0 <= i < |rules|
      ensures back[i] == rules[i] <==> ScalesTo16Bits(rules[i].change)
    {
      PercentRoundTrip(rules[i].change);
    }
  }

  const E2BIG := 7
  const EINVAL := 22

  // ----- the controller itself

  class Controller {
    var enabled: bool
    var rules: seq<Rule>
    var threshold: u16
    var arfs: u16
    var periodUsed: nat

    function View(): State
      reads this
    {
      State(enabled, rules, threshold, arfs, periodUsed)
    }

    constructor ()
      ensures View() == FRESH
    {
      enabled, rules, threshold, arfs, periodUsed := false, [], 0, 0, 0;
    }

    // morse_cac_init
    method Init(ap: bool)
      modifies this
      ensures View() == Next(old(View()), Enable(ap))
    {
      if enabled {
        return;
      }
      if !ap {
        enabled := true;
        return;
      }
      threshold := THRESHOLD_MAX;
      rules := DEFAULT_RULES;
      enabled := true;
    }

    // morse_cac_deinit
    method Deinit()
      modifies this
      ensures View() == Next(old(View()), Disable)
    {
      enabled := false;
    }

    // morse_cac_count_auth
    method CountAuth(transaction: u16)
      modifies this
      ensures View() == Next(old(View()), Auth(transaction))
    {
      if transaction != 1 {
        return;
      }
      arfs := if arfs == 0xffff then 0 else arfs + 1;
    }

    // cac_threshold_change
    method ChangeThreshold(diff: int)
      modifies this`threshold
      ensures threshold == Clamp(old(threshold) + diff)
    {
      var value := threshold + diff;
      if value < 0 {
        threshold := 0;
      } else if value > THRESHOLD_MAX {
        threshold := THRESHOLD_MAX;
      } else {
        threshold := value;
      }
    }

    // cac_set_threshold_change
    method FindChange(endOfPeriod: bool) returns (change: int)
      ensures change == Change(rules, threshold, arfs, endOfPeriod)
    {
      for i := 0 to |rules|
        invariant Change(rules[i..], threshold, arfs, endOfPeriod) == Change(rules, threshold, arfs, endOfPeriod)
      {
        var rule := rules[i];
        assert rules[i..][0] == rule && rules[i..][1..] == rules[i + 1..];
        if rule.change < 0 {
          if arfs > rule.arfs {
            return rule.change;
          }
        } else {
          if threshold == THRESHOLD_MAX {
            return 0;
          }
          if !endOfPeriod {
            return 0;
          }
          if arfs < rule.arfs {
            return rule.change;
          }
        }
      }
      return 0;
    }

    // cac_timer_work
    method TimerWork()
      modifies this
      ensures View() == Next(old(View()), TimerTick)
    {
      if !enabled {
        return;
      }
      var endOfPeriod := false;
      periodUsed := periodUsed + CHECK_INTERVAL_MS;
      if periodUsed >= CHECK_PERIOD_MS {
        endOfPeriod := true;
      }
      if arfs != 0 || threshold != THRESHOLD_MAX {
        var change := FindChange(endOfPeriod);
        if change != 0 {
          ChangeThreshold(change);
          endOfPeriod := true;
        }
      }
      if endOfPeriod {
        periodUsed := 0;
        arfs := 0;
      }
    }

    // morse_cmd_cac_cfg_set: tot is an unsigned byte, wire the fixed array of the request.
    method CfgSet(tot: nat, wire: seq<Rule>) returns (ret: int)
      requires |wire| == RULE_MAX
      modifies this`rules
      ensures ret == if tot > RULE_MAX then -E2BIG else if tot == 0 then -EINVAL else 0
      ensures rules == if ret == 0 then ToValues(wire[..tot]) else old(rules)
      ensures ret == 0 ==> LegalEvent(SetRules(rules))
    {
      if tot > RULE_MAX {
        return -E2BIG;
      }
      if tot == 0 {
        return -EINVAL;
      }
      var values: seq<Rule> := [];
      for i := 0 to tot
        invariant values == ToValues(wire[..i])
      {
        values := values + [Rule(wire[i].arfs, PercentToValue(wire[i].change))];
      }
      rules := values;
      ret := 0;
    }

    // morse_cmd_cac_cfg_get: the response array has room for eight rules and starts out zeroed.
    method CfgGet() returns (tot: nat, wire: seq<Rule>)
      requires |rules| <= RULE_MAX
      ensures tot == |rules| && |wire| == RULE_MAX
      ensures wire[..tot] == ToPercents(rules)
      ensures forall i :: tot <= i < RULE_MAX ==> wire[i] == Rule(0, 0)
      ensures forall req: seq<Rule> :: rules == ToValues(req) ==>
                (wire[..tot] == req <==> forall i :: 0 <= i < |req| ==> ScalesTo16Bits(req[i].change))
    {
      tot := |rules|;
      wire := seq(RULE_MAX, _ => Rule(0, 0));
      var i := 0;
      while i < tot && i < RULE_MAX
        invariant 0 <= i <= tot && |wire| == RULE_MAX
        invariant wire[..i] == ToPercents(rules[..i])
        invariant forall k :: i <= k < RULE_MAX ==> wire[k] == Rule(0, 0)
      {
        wire := wire[i := Rule(rules[i].arfs, ValueToPercent(rules[i].change))];
        assert wire[..i + 1] == wire[..i] + [wire[i]];
        i := i + 1;
      }
      assert rules[..tot] == rules;
      forall req: seq<Rule> | rules == ToValues(req)
        ensures wire[..tot] == req <==> forall i :: 0 <= i < |req| ==> ScalesTo16Bits(req[i].change)
      {
        RulesRoundTrip(req);
      }
    }
  }
}
