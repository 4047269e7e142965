/** gyro-notch.ts and gyro-notch-mock.ts: the order in which the two values of a notch are written, and
  * the firmware rule each write has to pass. Values are reals; the firmware stores `round(v)`, the
  * nearest float32. */
module GyroNotch {
  import opened Bytes

  datatype Pair = Pair(center: real, cutoff: real)

  /** `notchPairProblem(...) === null` */
  predicate PairValid(p: Pair) {
    if p.center == 0.0 then 0.0 <= p.cutoff < 1000.0
    else 20.0 <= p.center <= 1000.0 && 0.0 < p.cutoff < p.center
  }

  datatype Key = Center | Cutoff

  /** One `set` line; `second` names the notch. */
  datatype Write = Write(second: bool, key: Key, value: real)

  // ---------------------------------------------------------------- the firmware's rule

  datatype Scenario = Off | Ok | AboveNyquist | Invalid | OldFc

  datatype Notches = Notches(first: Pair, second: Pair, scenario: Scenario, rateHz: real)

  function PairOf(fw: Notches, second: bool): Pair { if second then fw.second else fw.first }

  function WithPair(fw: Notches, second: bool, p: Pair): Notches {
    if second then fw.(second := p) else fw.(first := p)
  }

  predicate Supported(fw: Notches) { fw.scenario != OldFc }

  /** The highest centre, exclusive, at the running rate. */
  function Limit(fw: Notches): real { 0.45 * fw.rateHz }

  datatype Refusal = Armed | UnknownKey | CenterRange | CutoffFirst | LoopRate | CutoffRange

  /** Why a `set` is refused, if it is. */
  function Refuses(fw: Notches, w: Write, armed: bool): Option<Refusal> {
    var p := PairOf(fw, w.second);
    if armed then Some(Armed)
    else if !Supported(fw) then Some(UnknownKey)
    else if w.key == Center then
      if w.value != 0.0 && (w.value < 20.0 || w.value > 1000.0) then Some(CenterRange)
      else if w.value != 0.0 && !(0.0 < p.cutoff < w.value) then Some(CutoffFirst)
      else if w.value != 0.0 && w.value >= Limit(fw) then Some(LoopRate)
      else None
    else if (if p.center == 0.0 then 0.0 <= w.value < 1000.0 else 0.0 < w.value < p.center) then None
    else Some(CutoffRange)
  }

  function Put(p: Pair, key: Key, v: real): Pair { if key == Center then p.(center := v) else p.(cutoff := v) }

  function Store(round: real -> real, fw: Notches, w: Write): Notches {
    WithPair(fw, w.second, Put(PairOf(fw, w.second), w.key, round(w.value)))
  }

  function AfterSet(round: real -> real, fw: Notches, w: Write, armed: bool): Notches {
    if Refuses(fw, w, armed).None? then Store(round, fw, w) else fw
  }

  // ---------------------------------------------------------------- rounding

  /** What is used of rounding to float32: it keeps order and is the identity on what it returns and on
    * the bounds of the rule. */
  ghost predicate Rounding(round: real -> real) {
    && (forall a, b :: a <= b ==> round(a) <= round(b))
    && (forall a :: round(round(a)) == round(a))
    && round(0.0) == 0.0 && round(20.0) == 20.0 && round(1000.0) == 1000.0
  }

  /** The value rounds onto the bound it had to stay clear of: a cutoff onto 0, onto the centre or, with
    * the notch off, onto 1000; a centre onto the cutoff. */
  predicate Collides(round: real -> real, fw: Notches, w: Write) {
    var p := PairOf(fw, w.second);
    if w.key == Center then w.value != 0.0 && round(w.value) == p.cutoff
    else if p.center == 0.0 then round(w.value) == 1000.0
    else round(w.value) == 0.0 || round(w.value) == p.center
  }

  predicate StoredExact(round: real -> real, fw: Notches) {
    round(fw.first.center) == fw.first.center && round(fw.first.cutoff) == fw.first.cutoff
    && round(fw.second.center) == fw.second.center && round(fw.second.cutoff) == fw.second.cutoff
  }

  /** An accepted `set` keeps the pair rule exactly when its value does not round onto its bound. */
  lemma AcceptedKeepsPair(round: real -> real, fw: Notches, w: Write, armed: bool)
    requires Rounding(round) && StoredExact(round, fw) && PairValid(PairOf(fw, w.second)) && Refuses(fw, w, armed).None?
    ensures PairValid(PairOf(Store(round, fw, w), w.second)) <==> !Collides(round, fw, w)
    ensures StoredExact(round, Store(round, fw, w)) && PairOf(Store(round, fw, w), !w.second) == PairOf(fw, !w.second)
  {
    var p := PairOf(fw, w.second);
    var v := w.value;
    assert v <= 1000.0 ==> round(v) <= round(1000.0);
    assert v >= 0.0 ==> round(0.0) <= round(v);
    if w.key == Center {
      assert v >= 20.0 ==> round(20.0) <= round(v);
      assert p.cutoff <= v ==> round(p.cutoff) <= round(v);
    } else {
      assert v <= p.center ==> round(v) <= round(p.center);
    }
  }

  /** The firmware takes exactly the writes that keep a valid pair valid and a centre below the limit of the
    * loop rate, when it is disarmed and knows the keys. */
  lemma AcceptedExactly(fw: Notches, w: Write, armed: bool)
    requires PairValid(PairOf(fw, w.second))
    ensures Refuses(fw, w, armed).None? <==>
              && !armed && Supported(fw) && PairValid(Put(PairOf(fw, w.second), w.key, w.value))
              && (w.key == Center && w.value != 0.0 ==> w.value < 0.45 * fw.rateHz)
  {
  }

  /** Why a write is refused: arming comes first, then an old firmware, and the loop rate last. */
  lemma RefusedFor(fw: Notches, w: Write, armed: bool)
    requires PairValid(PairOf(fw, w.second))
    ensures Refuses(fw, w, armed) == Some(Armed) <==> armed
    ensures Refuses(fw, w, armed) == Some(UnknownKey) <==> !armed && !Supported(fw)
    ensures Refuses(fw, w, armed) == Some(CenterRange) <==>
              !armed && Supported(fw) && w.key == Center && w.value != 0.0 && !(20.0 <= w.value <= 1000.0)
    ensures Refuses(fw, w, armed) == Some(LoopRate) <==>
              && !armed && Supported(fw) && w.key == Center && w.value != 0.0
              && PairValid(Put(PairOf(fw, w.second), Center, w.value)) && 0.45 * fw.rateHz <= w.value
    ensures Refuses(fw, w, armed) == Some(CutoffRange) <==>
              !armed && Supported(fw) && w.key == Cutoff && !PairValid(Put(PairOf(fw, w.second), Cutoff, w.value))
  {
  }

  /** The nearest multiple of 1/65536, the spacing of float32 values from 128 up to 256. */
  function Nearest(v: real): real { (v * 65536.0 + 0.5).Floor as real / 65536.0 }

  lemma NearestOfMultiple(n: int)
    ensures Nearest(n as real / 65536.0) == n as real / 65536.0
  {
    var v := n as real / 65536.0;
    assert v * 65536.0 == n as real;
    assert (n as real + 0.5).Floor == n;
  }

  lemma NearestIsRounding()
    ensures Rounding(Nearest)
  {
    forall a, b | a <= b ensures Nearest(a) <= Nearest(b) {
      assert (a * 65536.0 + 0.5).Floor <= (b * 65536.0 + 0.5).Floor;
    }
    forall a ensures Nearest(Nearest(a)) == Nearest(a) { NearestOfMultiple((a * 65536.0 + 0.5).Floor); }
    NearestOfMultiple(0);
    NearestOfMultiple(20 * 65536);
    NearestOfMultiple(1000 * 65536);
  }

  /** A cutoff of 199.999999 Hz below a centre of 200 Hz is accepted and stored as 200 Hz. */
  lemma RoundingBreaksPair(fw: Notches)
    requires fw == Notches(Pair(200.0, 150.0), Pair(0.0, 0.0), Scenario.Ok, 8000.0)
    ensures var w := Write(false, Cutoff, 199.999999);
      && PairValid(Pair(200.0, 199.999999)) && Refuses(fw, w, false).None?
      && Rounding(Nearest)
      && AfterSet(Nearest, fw, w, false).first == Pair(200.0, 200.0) && !PairValid(Pair(200.0, 200.0))
  {
    NearestIsRounding();
    assert 199.999999 * 65536.0 + 0.5 == 13107200.434464;
    assert 13107200.434464.Floor == 13107200;
  }

  // ---------------------------------------------------------------- write plans

  /** The writes one after the other, until one is refused; `armed[j]` is the arming state at write `j`. */
  function RunPlan(round: real -> real, fw: Notches, plan: seq<Write>, armed: seq<bool>): (Notches, Option<Refusal>)
    requires |armed| == |plan|
    decreases plan
  {
    if plan == [] then (fw, None)
    else if Refuses(fw, plan[0], armed[0]).Some? then (fw, Refuses(fw, plan[0], armed[0]))
    else RunPlan(round, Store(round, fw, plan[0]), plan[1..], armed[1..])
  }

  predicate Exact(round: real -> real, p: Pair) {
    round(0.0) == 0.0 && round(p.center) == p.center && round(p.cutoff) == p.cutoff
  }

  /** A firmware that holds a valid pair, the one the plan was made for if that was known. */
  predicate Suits(fw: Notches, second: bool, current: Option<Pair>) {
    Supported(fw) && PairValid(PairOf(fw, second)) && (current.Some? ==> current.value == PairOf(fw, second))
  }

  predicate Enabled(current: Option<Pair>, next: Pair) {
    current.Some? && current.value.center != 0.0 && next.center != 0.0
  }

  predicate NeedsLoopRate(plan: seq<Write>, limit: real) {
    exists j :: 0 <= j < |plan| && plan[j].key == Center && plan[j].value != 0.0 && plan[j].value >= limit
  }

  /** After the first `k` writes of a plan. */
  ghost predicate SafeAfter(round: real -> real, fw: Notches, second: bool, current: Option<Pair>, next: Pair,
                            plan: seq<Write>, armed: seq<bool>, k: nat)
    requires |armed| == |plan| && k <= |plan|
  {
    var was := PairOf(fw, second);
    var (after, refusal) := RunPlan(round, fw, plan[..k], armed[..k]);
    var now := PairOf(after, second);
    // the pair is valid, and nothing but this pair changed
    && PairValid(now) && after == WithPair(fw, second, now)
    // only arming or the loop rate can have stopped it
    && (refusal.Some? && refusal.value != Armed ==>
          refusal.value == LoopRate && next.center != 0.0 && next.center >= Limit(fw))
    && ((forall j :: 0 <= j < k ==> !armed[j]) && !NeedsLoopRate(plan, Limit(fw)) ==> refusal.None?)
    // the whole plan ends at the target
    && (k == |plan| && refusal.None? ==> now == next)
    // a notch that is on and stays on is never switched off, and a refused centre leaves the stored one
    && (Enabled(current, next) ==> now.center != 0.0 && (refusal == Some(LoopRate) ==> now.center == was.center))
  }

  /** Safe on every firmware the plan may meet, whatever its rate and whenever it is armed. */
  ghost predicate SafePlan(second: bool, current: Option<Pair>, next: Pair, plan: seq<Write>) {
    forall round: real -> real, fw: Notches, armed: seq<bool>, k: nat ::
      Exact(round, next) && Suits(fw, second, current) && |armed| == |plan| && k <= |plan|
      ==> SafeAfter(round, fw, second, current, next, plan, armed, k)
  }

  /** The shapes a plan takes. */
  predicate PlanShape(second: bool, current: Option<Pair>, next: Pair, plan: seq<Write>) {
    var center, cutoff := Write(second, Center, next.center), Write(second, Cutoff, next.cutoff);
    var off := Write(second, Center, 0.0);
    if current == Some(next) then plan == []
    else if Enabled(current, next) then
      if current.value.center == next.center then plan == [cutoff]
      else if current.value.cutoff == next.cutoff then plan == [center]
      else if next.cutoff < current.value.center then plan == [cutoff, center]
      else plan == [center, cutoff]
    else
      plan == (if current.None? || current.value.center != 0.0 then [off] else [])
            + (if current.None? || current.value.cutoff != next.cutoff then [cutoff] else [])
            + (if next.center != 0.0 then [center] else [])
  }

  /** The first `k` writes, unrolled: every plan has at most three. */
  lemma RunUnrolls(round: real -> real, fw: Notches, plan: seq<Write>, armed: seq<bool>, k: nat)
    requires |armed| == |plan| && k <= |plan| <= 3
    ensures RunPlan(round, fw, plan[..k], armed[..k]) ==
      if k == 0 then (fw, None)
      else if Refuses(fw, plan[0], armed[0]).Some? then (fw, Refuses(fw, plan[0], armed[0]))
      else
        var fw1 := Store(round, fw, plan[0]);
        if k == 1 then (fw1, None)
        else if Refuses(fw1, plan[1], armed[1]).Some? then (fw1, Refuses(fw1, plan[1], armed[1]))
        else
          var fw2 := Store(round, fw1, plan[1]);
          if k == 2 then (fw2, None)
          else if Refuses(fw2, plan[2], armed[2]).Some? then (fw2, Refuses(fw2, plan[2], armed[2]))
          else (Store(round, fw2, plan[2]), None)
  {
    hide Refuses, Store;
    var p, a := plan[..k], armed[..k];
    if k > 0 {
      var fw1 := Store(round, fw, plan[0]);
      RunTail(round, fw1, p[1..], a[1..], k - 1);
      if k > 1 {
        var fw2 := Store(round, fw1, plan[1]);
        RunTail(round, fw2, p[1..][1..], a[1..][1..], k - 2);
        if k > 2 { RunTail(round, Store(round, fw2, plan[2]), p[1..][1..][1..], a[1..][1..][1..], 0); }
      }
    }
  }

  lemma RunTail(round: real -> real, fw: Notches, plan: seq<Write>, armed: seq<bool>, n: nat)
    requires |armed| == |plan| == n
    ensures RunPlan(round, fw, plan, armed) ==
      if n == 0 then (fw, None)
      else if Refuses(fw, plan[0], armed[0]).Some? then (fw, Refuses(fw, plan[0], armed[0]))
      else RunPlan(round, Store(round, fw, plan[0]), plan[1..], armed[1..])
  {
  }

  lemma ShapeIsSafe(round: real -> real, fw: Notches, second: bool, current: Option<Pair>, next: Pair,
                    plan: seq<Write>, armed: seq<bool>, k: nat)
    requires PlanShape(second, current, next, plan) && PairValid(next) && Exact(round, next)
        && Suits(fw, second, current)
    requires |armed| == |plan| && k <= |plan|
    ensures SafeAfter(round, fw, second, current, next, plan, armed, k)
  {
    if Enabled(current, next) {
      StaysOnIsSafe(round, fw, second, current, next, plan, armed, k);
    } else if current.Some? {
      SwitchIsSafe(round, fw, second, current, next, plan, armed, k);
    } else {
      UnknownIsSafe(round, fw, second, next, plan, armed, k);
    }
  }

  lemma StaysOnIsSafe(round: real -> real, fw: Notches, second: bool, current: Option<Pair>, next: Pair,
                      plan: seq<Write>, armed: seq<bool>, k: nat)
    requires PlanShape(second, current, next, plan) && PairValid(next) && Exact(round, next)
        && Suits(fw, second, current)
    requires |armed| == |plan| && k <= |plan| && Enabled(current, next)
    ensures SafeAfter(round, fw, second, current, next, plan, armed, k)
  {
    hide RunPlan;
    assert |plan| <= 2;
    RunUnrolls(round, fw, plan, armed, k);
  }

  lemma SwitchIsSafe(round: real -> real, fw: Notches, second: bool, current: Option<Pair>, next: Pair,
                     plan: seq<Write>, armed: seq<bool>, k: nat)
    requires PlanShape(second, current, next, plan) && PairValid(next) && Exact(round, next)
        && Suits(fw, second, current)
    requires |armed| == |plan| && k <= |plan| && current.Some? && !Enabled(current, next)
    ensures SafeAfter(round, fw, second, current, next, plan, armed, k)
  {
    hide RunPlan;
    RunUnrolls(round, fw, plan, armed, k);
  }

  lemma UnknownIsSafe(round: real -> real, fw: Notches, second: bool, next: Pair,
                      plan: seq<Write>, armed: seq<bool>, k: nat)
    requires PlanShape(second, None, next, plan) && PairValid(next) && Exact(round, next) && Suits(fw, second, None)
    requires |armed| == |plan| && k <= |plan|
    ensures SafeAfter(round, fw, second, None, next, plan, armed, k)
  {
    hide RunPlan;
    RunUnrolls(round, fw, plan, armed, k);
  }

  /** `notchWritePlan` */
  method NotchWritePlan(second: bool, current: Option<Pair>, next: Pair) returns (plan: seq<Write>)
    requires PairValid(next)
    ensures SafePlan(second, current, next, plan)
    ensures plan == [] <==> current == Some(next)
    ensures |plan| <= if current.Some? then 2 else 3
  {
    var center, cutoff := Write(second, Center, next.center), Write(second, Cutoff, next.cutoff);
    if current == Some(next) {
      plan := [];
    } else if current.Some? && current.value.center != 0.0 && next.center != 0.0 {
      if current.value.center == next.center {
        plan := [cutoff];
      } else if current.value.cutoff == next.cutoff {
        plan := [center];
      } else {
        plan := if next.cutoff < current.value.center then [cutoff, center] else [center, cutoff];
      }
    } else {
      plan := [];
      if current.None? || current.value.center != 0.0 { plan := plan + [Write(second, Center, 0.0)]; }
      if current.None? || current.value.cutoff != next.cutoff { plan := plan + [cutoff]; }
      if next.center != 0.0 { plan := plan + [center]; }
    }
    hide SafeAfter;
    forall round: real -> real, fw: Notches, armed: seq<bool>, k: nat
      | Exact(round, next) && Suits(fw, second, current) && |armed| == |plan| && k <= |plan|
      ensures SafeAfter(round, fw, second, current, next, plan, armed, k)
    {
      ShapeIsSafe(round, fw, second, current, next, plan, armed, k);
    }
  }

  // ---------------------------------------------------------------- the firmware as an object

  datatype Reason = NotchOff | Usable | TooFast | Unusable

  /** A parsed line; `None` for a value that is not a finite number. */
  datatype Line = Filters | Get(second: bool, key: Key) | Set(second: bool, key: Key, value: Option<real>) | NotOurs

  datatype Reply =
    | Report(rateHz: real, first: Reason, second: Reason)
    | TryHelp
    | Value(v: real)
    | KeyUnknown
    | Stored(v: real)
    | SetFailed
    | SetRefused(why: Refusal)
    | Ignored

  /** Why a notch runs, or does not. */
  function ReasonOf(fw: Notches, second: bool): Reason {
    ReasonFor(PairOf(fw, second), fw.scenario == Invalid && !second, fw.rateHz)
  }

  function ReasonFor(p: Pair, unusable: bool, rateHz: real): Reason {
    if p.center == 0.0 then NotchOff
    else if unusable || !PairValid(p) then Unusable
    else if p.center < 0.45 * rateHz then Usable
    else TooFast
  }

  /** A centre the firmware accepts, and stores exactly, runs at once. */
  lemma AcceptedCenterRuns(round: real -> real, fw: Notches, w: Write)
    requires w.key == Center && w.value != 0.0 && round(w.value) == w.value
    requires Refuses(fw, w, false).None? && !(fw.scenario == Invalid && !w.second)
    ensures ReasonOf(Store(round, fw, w), w.second) == Usable
  {
  }

  /** The report and the refusals agree: a stored centre is reported as running exactly when setting it again
    * would be accepted, and as too fast exactly when that would be refused for the loop rate. */
  lemma ReportAgrees(fw: Notches, second: bool)
    requires Supported(fw) && PairValid(PairOf(fw, second)) && PairOf(fw, second).center != 0.0
    requires !(fw.scenario == Invalid && !second)
    ensures var again := Write(second, Center, PairOf(fw, second).center);
      && (ReasonOf(fw, second) == Usable <==> Refuses(fw, again, false).None?)
      && (ReasonOf(fw, second) == TooFast <==> Refuses(fw, again, false) == Some(LoopRate))
  {
  }

  /** A notch is reported as off exactly when its centre is zero, and as unusable exactly when its pair is not
    * valid or the scenario says so. */
  lemma ReportedOff(fw: Notches, second: bool)
    ensures ReasonOf(fw, second) == NotchOff <==> PairOf(fw, second).center == 0.0
    ensures ReasonOf(fw, second) == Unusable <==>
              && PairOf(fw, second).center != 0.0
              && ((fw.scenario == Invalid && !second) || !PairValid(PairOf(fw, second)))
  {
  }

  class MockGyroNotch {
    const round: real -> real
    var scenario: Scenario
    var center1: real
    var cutoff1: real
    var center2: real
    var cutoff2: real
    var rateHz: real

    ghost function Now(): Notches
      reads this
    {
      Notches(Pair(center1, cutoff1), Pair(center2, cutoff2), scenario, rateHz)
    }

    constructor (round: real -> real, scenario: Scenario)
      ensures this.round == round && this.scenario == scenario
      ensures Now().second == Pair(0.0, 0.0) && PairValid(Now().first)
      ensures ReasonOf(Now(), false) ==
        match scenario
          case Off => NotchOff case Ok => Usable case AboveNyquist => TooFast
          case Invalid => Unusable case OldFc => NotchOff
    {
      this.round := round;
      new;
      SetScenario(scenario);
    }

    method SetScenario(s: Scenario)
      modifies this
      ensures scenario == s && Now().second == Pair(0.0, 0.0) && PairValid(Now().first)
      ensures rateHz == if s == AboveNyquist then 1000.0 else 8000.0
      ensures Now().first ==
        match s
          case Off => Pair(0.0, 0.0) case Ok => Pair(200.0, 150.0) case AboveNyquist => Pair(600.0, 420.0)
          case Invalid => Pair(200.0, 150.0) case OldFc => Pair(0.0, 0.0)
      ensures ReasonOf(Now(), false) ==
        match s
          case Off => NotchOff case Ok => Usable case AboveNyquist => TooFast
          case Invalid => Unusable case OldFc => NotchOff
    {
      scenario := s;
      Defaults();
      rateHz := if s == AboveNyquist then 1000.0 else 8000.0;
      if s == Scenario.Ok || s == Invalid { cutoff1, center1 := 150.0, 200.0; }
      if s == AboveNyquist { cutoff1, center1 := 420.0, 600.0; }
    }

    method Defaults()
      modifies `center1, `cutoff1, `center2, `cutoff2
      ensures Now() == old(Now()).(first := Pair(0.0, 0.0), second := Pair(0.0, 0.0))
    {
      center1, cutoff1, center2, cutoff2 := 0.0, 0.0, 0.0, 0.0;
    }

    method Handle(line: Line, armed: bool) returns (reply: Reply)
      modifies `center1, `cutoff1, `center2, `cutoff2
      ensures Now() == if line.Set? && line.value.Some?
                       then AfterSet(round, old(Now()), Write(line.second, line.key, line.value.value), armed)
                       else old(Now())
      ensures line.Set? && line.value.Some? && Supported(old(Now())) ==>
        match Refuses(old(Now()), Write(line.second, line.key, line.value.value), armed)
        case Some(why) => reply == SetRefused(why)
        case None => reply == Stored(round(line.value.value))
      ensures line.Set? && line.value.None? ==>
          reply == if armed then SetRefused(Armed) else if !Supported(old(Now())) then KeyUnknown else SetFailed
      ensures line.Get? && Supported(old(Now())) ==>
        reply == Value(if line.key == Center then PairOf(old(Now()), line.second).center
                       else PairOf(old(Now()), line.second).cutoff)
      ensures line.Filters? && Supported(old(Now())) ==>
          reply == Report(old(rateHz), ReasonOf(old(Now()), false), ReasonOf(old(Now()), true))
      ensures !Supported(old(Now())) ==>
        reply == match line
          case NotOurs => Ignored
          case Filters => TryHelp
          case Get(_, _) => KeyUnknown
          case Set(_, _, _) => if armed then SetRefused(Armed) else KeyUnknown
      ensures line.NotOurs? ==> reply == Ignored
    {
      if line.NotOurs? { return Ignored; }
      if line.Filters? {
        if scenario == OldFc { return TryHelp; }
        var first := ReasonFor(Pair(center1, cutoff1), scenario == Invalid, rateHz);
        return Report(rateHz, first, ReasonFor(Pair(center2, cutoff2), false, rateHz));
      }
      if line.Get? {
        if scenario == OldFc { return KeyUnknown; }
        var c := if line.second then center2 else center1;
        var f := if line.second then cutoff2 else cutoff1;
        return Value(if line.key == Center then c else f);
      }
      if armed { return SetRefused(Armed); }
      if scenario == OldFc { return KeyUnknown; }
      if line.value.None? { return SetFailed; }
      var v := line.value.value;
      var c := if line.second then center2 else center1;
      var f := if line.second then cutoff2 else cutoff1;
      if line.key == Center {
        if v != 0.0 && (v < 20.0 || v > 1000.0) { return SetRefused(CenterRange); }
        if v != 0.0 && !(f > 0.0 && f < v) { return SetRefused(CutoffFirst); }
        if v != 0.0 && !(v < 0.45 * rateHz) { return SetRefused(LoopRate); }
        if line.second { center2 := round(v); } else { center1 := round(v); }
      } else {
        var ok := if c == 0.0 then v >= 0.0 && v < 1000.0 else v > 0.0 && v < c;
        if !ok { return SetRefused(CutoffRange); }
        if line.second { cutoff2 := round(v); } else { cutoff1 := round(v); }
      }
      return Stored(round(v));
    }
  }
}
