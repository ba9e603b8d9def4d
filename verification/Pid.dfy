/**
  The PID controller and the correction loop of MoveAbsolutePID on an ideal
  stage: the encoder reports exactly the position the stage was moved to.
  Arithmetic is exact (`real`); the six-decimal text of the move command is an
  explicit rounding step.
*/
module Pid {

  const LOW: real := -200.0
  const HIGH: real := 200.0
  const TOLERANCE: real := 0.00005

  function Abs(x: real): real { if x < 0.0 then -x else x }

  function Clamp(x: real, lo: real, hi: real): real {
    if x < lo then lo else if hi < x then hi else x
  }

  /** Rounding to the nearest integer, ties to the even one. */
  function RoundEven(x: real): int {
    var f := x.Floor;
    var d := x - f as real;
    if d < 0.5 || (d == 0.5 && f % 2 == 0) then f else f + 1
  }

  /** The value of the text that std::to_string prints: six decimals. */
  function Round6(x: real): real {
    RoundEven(x * 1000000.0) as real / 1000000.0
  }

  lemma RoundEvenNearest(x: real)
    ensures RoundEven(x) as real - 0.5 <= x <= RoundEven(x) as real + 0.5
    ensures x == RoundEven(x) as real + 0.5 || x == RoundEven(x) as real - 0.5 ==> RoundEven(x) % 2 == 0
  {
  }

  lemma RoundEvenUnique(x: real, n: int)
    requires n as real - 0.5 <= x <= n as real + 0.5
    requires x == n as real + 0.5 || x == n as real - 0.5 ==> n % 2 == 0
    ensures RoundEven(x) == n
  {
    var f := x.Floor;
    assert f == n || f == n - 1;
  }

  /** The printed number is a whole number of millionths, and none lies nearer. */
  lemma Round6Nearest(x: real) returns (millionths: int)
    ensures Round6(x) * 1000000.0 == millionths as real
    ensures -0.0000005 <= Round6(x) - x <= 0.0000005
  {
    millionths := RoundEven(x * 1000000.0);
    RoundEvenNearest(x * 1000000.0);
  }

  lemma Round6Odd(x: real)
    ensures Round6(-x) == -Round6(x)
  {
    var n := RoundEven(x * 1000000.0);
    RoundEvenNearest(x * 1000000.0);
    RoundEvenUnique(-(x * 1000000.0), -n);
    assert (-x) * 1000000.0 == -(x * 1000000.0);
  }

  /** What the floating-point output can be: a number, or the NaN of a zero time step. */
  datatype Output = Number(value: real) | NotANumber

  /**
    The clamped sum of the proportional and integral terms with bias, `sum`, and
    the derivative term. Over a zero time step the quotient is infinite, or
    undefined when the error did not change; an infinite term is clamped to a
    bound, and a zero gain times infinity is undefined.
  */
  function Combined(sum: real, kd: real, change: real, dt: real, min: real, max: real): Output {
    if dt != 0.0 then Number(Clamp(sum + kd * (change / dt), min, max))
    else if change == 0.0 || kd == 0.0 then NotANumber
    else Number(if (change > 0.0) == (kd > 0.0) then max else min)
  }

  datatype Gains = Gains(kp: real, ki: real, kd: real)

  function Times(x: real, y: real): real { x * y }

  /** The control law: `change` is how much the error `e` changed since the last call. */
  function Law(g: Gains, e: real, integral: real, change: real, dt: real, bias: real, min: real, max: real): Output {
    Combined(Times(g.kp, e) + Times(g.ki, integral) + bias, g.kd, change, dt, min, max)
  }

  function Accumulated(integral: real, e: real, dt: real): real {
    integral + e * dt
  }

  datatype Settings = Settings(kp: real, ki: real, kd: real, bias: real, min: real, max: real)

  /** The law written out: the sum of the three terms and the bias, held between the bounds. */
  predicate IsOutput(c: Settings, e: real, integral: real, change: real, dt: real, output: real)
    requires dt != 0.0
  {
    var raw := c.kp * e + c.ki * integral + c.kd * (change / dt) + c.bias;
    output == if raw < c.min then c.min else if c.max < raw then c.max else raw
  }

  lemma LawWrittenOut(g: Gains, e: real, integral: real, change: real, dt: real, bias: real, min: real, max: real)
    requires dt != 0.0
    ensures var r := Law(g, e, integral, change, dt, bias, min, max);
            r.Number? && IsOutput(Settings(g.kp, g.ki, g.kd, bias, min, max), e, integral, change, dt, r.value)
  {
    var p, i, d := g.kp * e, g.ki * integral, g.kd * (change / dt);
    assert Times(g.kp, e) == p && Times(g.ki, integral) == i;
    assert p + i + bias + d == p + i + d + bias;
  }

  /** The derivative term alone decides on which side of the bounds the sum lies. */
  predicate Decides(sum: real, kd: real, change: real, dt: real, min: real, max: real)
    requires dt != 0.0
  {
    var d := kd * (change / dt);
    if (change > 0.0) == (kd > 0.0) then sum + d > max else sum + d < min
  }

  lemma DecidedOutput(sum: real, kd: real, change: real, dt: real, min: real, max: real)
    requires dt > 0.0 && min <= max && kd != 0.0 && change != 0.0 && Decides(sum, kd, change, dt, min, max)
    ensures Combined(sum, kd, change, dt, min, max) == Combined(sum, kd, change, 0.0, min, max)
  {
    var d := kd * (change / dt);
  }

  lemma ShortStepDecides(sum: real, kd: real, change: real, dt: real, min: real, max: real, w: real, bound: real)
    requires min <= max && kd != 0.0 && change != 0.0 && w == Abs(kd) * Abs(change) && w > 0.0
    requires bound == Abs(sum) + Abs(min) + Abs(max) + 1.0 && 0.0 < dt < w / bound
    ensures Decides(sum, kd, change, dt, min, max)
  {
    LargeQuotient(w, bound, dt);
    SignedTerm(kd, change, dt, w);
  }

  /** Over a zero time step the output is what it tends to: every time step short enough gives the same. */
  lemma ZeroStepIsLimit(sum: real, kd: real, change: real, min: real, max: real) returns (short: real)
    requires min <= max && kd != 0.0 && change != 0.0
    ensures short > 0.0
    ensures forall dt | 0.0 < dt < short ::
              Combined(sum, kd, change, dt, min, max) == Combined(sum, kd, change, 0.0, min, max)
  {
    var bound := Abs(sum) + Abs(min) + Abs(max) + 1.0;
    var w := Abs(kd) * Abs(change);
    PositiveProduct(Abs(kd), Abs(change));
    short := w / bound;
    PositiveQuotient(w, bound);
    forall dt | 0.0 < dt < short
      ensures Combined(sum, kd, change, dt, min, max) == Combined(sum, kd, change, 0.0, min, max)
    {
      ShortStepDecides(sum, kd, change, dt, min, max, w, bound);
      DecidedOutput(sum, kd, change, dt, min, max);
    }
  }

  lemma PositiveProduct(a: real, b: real)
    requires a > 0.0 && b > 0.0
    ensures a * b > 0.0
  {
  }

  lemma PositiveQuotient(a: real, b: real)
    requires a > 0.0 && b > 0.0
    ensures a / b > 0.0
  {
  }

  lemma LargeQuotient(w: real, bound: real, dt: real)
    requires w > 0.0 && bound > 0.0 && 0.0 < dt < w / bound
    ensures w / dt > bound
  {
    var q := w / bound;
    assert q * bound == w;
    assert (q - dt) * bound > 0.0 by { PositiveProduct(q - dt, bound); }
    assert w - dt * bound > 0.0;
    PositiveQuotient(w - dt * bound, dt);
    assert (w - dt * bound) / dt == w / dt - bound;
  }

  lemma SignedTerm(kd: real, change: real, dt: real, w: real)
    requires dt > 0.0 && kd != 0.0 && change != 0.0 && w == Abs(kd) * Abs(change)
    ensures kd * (change / dt) == if (change > 0.0) == (kd > 0.0) then w / dt else -(w / dt)
  {
    assert kd * (change / dt) == (kd * change) / dt;
    if (change > 0.0) == (kd > 0.0) {
      assert kd * change == w;
    } else {
      assert kd * change == -w;
      assert (-w) / dt == -(w / dt);
    }
  }

  class Controller {
    const min: real
    const max: real
    const kp: real
    const kd: real
    const ki: real
    var target: real
    var bias: real
    var lastError: real
    var integral: real

    constructor (min: real, max: real, kp: real, kd: real, ki: real)
      ensures this.min == min && this.max == max && this.kp == kp && this.kd == kd && this.ki == ki
      ensures target == 0.0 && bias == 0.0 && lastError == 0.0 && integral == 0.0
    {
      this.min, this.max, this.kp, this.kd, this.ki := min, max, kp, kd, ki;
      lastError, integral := 0.0, 0.0;
      target, bias := 0.0, 0.0;
    }

    /** A target out of bounds is not refused: it becomes target 0 with bias 0. */
    method SetTargetAndBias(target: real, bias: real)
      modifies this`target, this`bias
      ensures min <= target <= max ==> this.target == target && this.bias == bias
      ensures !(min <= target <= max) ==> this.target == 0.0 && this.bias == 0.0
    {
      if target > max || target < min {
        this.target := 0.0;
        this.bias := 0.0;
        return;
      }
      this.target := target;
      this.bias := bias;
    }

    /** std::clamp asks for ordered bounds. */
    method Calculate(value: real, dt: real) returns (output: Output)
      requires min <= max
      modifies this`lastError, this`integral
      ensures lastError == target - value
      ensures integral == Accumulated(old(integral), lastError, dt)
      ensures output == Law(Gains(kp, ki, kd), lastError, integral, lastError - old(lastError), dt, bias, min, max)
      ensures output.Number? ==> min <= output.value <= max
      ensures dt != 0.0 ==> output.Number?
      ensures dt != 0.0 ==>
                IsOutput(Settings(kp, ki, kd, bias, min, max), lastError, integral, lastError - old(lastError), dt, output.value)
    {
      ghost var g, before := Gains(kp, ki, kd), lastError;
      var e := target - value;
      var p := Times(kp, e);
      integral := integral + e * dt;
      var i := Times(ki, integral);
      output := Combined(p + i + bias, kd, e - lastError, dt, min, max);
      lastError := e;
      if dt != 0.0 { LawWrittenOut(g, e, integral, e - before, dt, bias, min, max); }
    }
  }

  // ---------------------------------------------------------------------
  // What the three terms do over any number of calls
  // ---------------------------------------------------------------------

  /** The sum of error times time step. */
  function Area(target: real, values: seq<real>, dts: seq<real>): real
    requires |values| == |dts|
  {
    if values == [] then 0.0
    else var k := |values| - 1; Area(target, values[..k], dts[..k]) + (target - values[k]) * dts[k]
  }

  /** The sum of output times time step. */
  function Travel(outputs: seq<real>, dts: seq<real>): real
    requires |outputs| == |dts|
  {
    if outputs == [] then 0.0
    else var k := |outputs| - 1; Travel(outputs[..k], dts[..k]) + outputs[k] * dts[k]
  }

  /** The error after `k` calls; `first` is the one remembered before them. */
  function ErrorAfter(target: real, values: seq<real>, first: real, k: nat): real
    requires k <= |values|
  {
    if k == 0 then first else target - values[k - 1]
  }

  predicate NoZero(dts: seq<real>) {
    forall k :: 0 <= k < |dts| ==> dts[k] != 0.0
  }

  /** The k-th output is the written-out law on the error, the area so far and the change of the error. */
  ghost predicate OutputAt(c: Settings, target: real, first: real, integral: real,
                           values: seq<real>, dts: seq<real>, outputs: seq<real>, k: nat)
    requires |values| == |dts| && NoZero(dts) && k < |outputs| <= |values|
  {
    IsOutput(c, target - values[k], integral + Area(target, values[..k + 1], dts[..k + 1]),
             ErrorAfter(target, values, first, k + 1) - ErrorAfter(target, values, first, k), dts[k], outputs[k])
  }

  /** `outputs` are those of the first calls. */
  ghost predicate AreOutputs(c: Settings, target: real, first: real, integral: real,
                             values: seq<real>, dts: seq<real>, outputs: seq<real>)
  {
    && |outputs| <= |values| == |dts| && NoZero(dts)
    && forall k: nat | k < |outputs| :: OutputAt(c, target, first, integral, values, dts, outputs, k)
  }

  /** No output touches a bound. */
  predicate Inside(outputs: seq<real>, c: Settings) {
    forall k :: 0 <= k < |outputs| ==> c.min < outputs[k] < c.max
  }

  lemma ZeroProduct(zero: real, x: real)
    requires zero == 0.0
    ensures zero * x == 0.0
  {
  }

  lemma TermAlone(c: Settings, e: real, integral: real, change: real, dt: real, output: real)
    requires dt != 0.0 && c.bias == 0.0 && IsOutput(c, e, integral, change, dt, output) && c.min < output < c.max
    ensures c.kp == 0.0 && c.ki == 0.0 ==> output == c.kd * (change / dt)
    ensures c.kp == 0.0 && c.kd == 0.0 ==> output == c.ki * integral
    ensures c.ki == 0.0 && c.kd == 0.0 ==> output == c.kp * e
  {
    if c.kp == 0.0 { ZeroProduct(c.kp, e); }
    if c.ki == 0.0 { ZeroProduct(c.ki, integral); }
    if c.kd == 0.0 { ZeroProduct(c.kd, change / dt); }
  }

  lemma DerivativeStep(kd: real, from: real, before: real, after: real, dt: real, travel: real)
    requires dt != 0.0 && travel == kd * (before - from)
    ensures travel + (kd * ((after - before) / dt)) * dt == kd * (after - from)
  {
    var change := after - before;
    var rate := change / dt;
    assert rate * dt == change;
    assert (kd * rate) * dt == kd * (rate * dt);
  }

  /** With a derivative gain only, the outputs over time add up to the gain times the whole change of the error. */
  lemma {:induction false} DerivativeTelescopes(c: Settings, target: real, first: real, integral: real,
                                                values: seq<real>, dts: seq<real>, outputs: seq<real>, n: nat)
    requires AreOutputs(c, target, first, integral, values, dts, outputs) && Inside(outputs, c)
    requires c.kp == 0.0 && c.ki == 0.0 && c.bias == 0.0 && n <= |outputs|
    ensures Travel(outputs[..n], dts[..n]) == c.kd * (ErrorAfter(target, values, first, n) - first)
  {
    if n > 0 {
      var k := n - 1;
      DerivativeTelescopes(c, target, first, integral, values, dts, outputs, k);
      DerivativeOutput(c, target, first, integral, values, dts, outputs, k);
      DerivativeStep(c.kd, first, ErrorAfter(target, values, first, k), ErrorAfter(target, values, first, n), dts[k],
                     Travel(outputs[..k], dts[..k]));
      TravelPush(outputs, dts, k);
    }
  }

  lemma TravelPush(outputs: seq<real>, dts: seq<real>, k: nat)
    requires k < |outputs| <= |dts|
    ensures Travel(outputs[..k + 1], dts[..k + 1]) == Travel(outputs[..k], dts[..k]) + outputs[k] * dts[k]
  {
    assert outputs[..k + 1][..k] == outputs[..k] && dts[..k + 1][..k] == dts[..k];
  }

  lemma DerivativeOutput(c: Settings, target: real, first: real, integral: real,
                         values: seq<real>, dts: seq<real>, outputs: seq<real>, k: nat)
    requires AreOutputs(c, target, first, integral, values, dts, outputs) && Inside(outputs, c)
    requires c.kp == 0.0 && c.ki == 0.0 && c.bias == 0.0 && k < |outputs|
    ensures outputs[k]
            == c.kd * ((ErrorAfter(target, values, first, k + 1) - ErrorAfter(target, values, first, k)) / dts[k])
  {
    assert OutputAt(c, target, first, integral, values, dts, outputs, k);
    TermAlone(c, target - values[k], integral + Area(target, values[..k + 1], dts[..k + 1]),
              ErrorAfter(target, values, first, k + 1) - ErrorAfter(target, values, first, k), dts[k], outputs[k]);
  }

  /** With an integral gain only, each output is the gain times the area so far. */
  lemma IntegralFollowsArea(c: Settings, target: real, first: real, integral: real,
                            values: seq<real>, dts: seq<real>, outputs: seq<real>, k: nat)
    requires AreOutputs(c, target, first, integral, values, dts, outputs) && Inside(outputs, c)
    requires c.kp == 0.0 && c.kd == 0.0 && c.bias == 0.0 && k < |outputs|
    ensures outputs[k] == c.ki * (integral + Area(target, values[..k + 1], dts[..k + 1]))
  {
    assert OutputAt(c, target, first, integral, values, dts, outputs, k);
    TermAlone(c, target - values[k], integral + Area(target, values[..k + 1], dts[..k + 1]),
              ErrorAfter(target, values, first, k + 1) - ErrorAfter(target, values, first, k), dts[k], outputs[k]);
  }

  lemma AreaPush(target: real, values: seq<real>, dts: seq<real>, k: nat)
    requires |values| == |dts| && k < |values|
    ensures Area(target, values[..k + 1], dts[..k + 1]) == Area(target, values[..k], dts[..k]) + (target - values[k]) * dts[k]
  {
    assert values[..k + 1][..k] == values[..k] && dts[..k + 1][..k] == dts[..k];
  }

  lemma AreaGrows(target: real, values: seq<real>, dts: seq<real>, k: nat, integral: real, before: real, after: real)
    requires |values| == |dts| && k < |values|
    requires before == integral + Area(target, values[..k], dts[..k])
    requires after == Accumulated(before, target - values[k], dts[k])
    ensures after == integral + Area(target, values[..k + 1], dts[..k + 1])
  {
    AreaPush(target, values, dts, k);
  }

  lemma OutputsPush(c: Settings, target: real, first: real, integral: real,
                    values: seq<real>, dts: seq<real>, outputs: seq<real>, output: real, area: real)
    requires AreOutputs(c, target, first, integral, values, dts, outputs) && |outputs| < |values|
    requires var k := |outputs|;
             && area == integral + Area(target, values[..k + 1], dts[..k + 1])
             && IsOutput(c, target - values[k], area, target - values[k] - ErrorAfter(target, values, first, k), dts[k], output)
    ensures AreOutputs(c, target, first, integral, values, dts, outputs + [output])
  {
    assert OutputAt(c, target, first, integral, values, dts, outputs + [output], |outputs|);
    forall k: nat | k < |outputs| ensures OutputAt(c, target, first, integral, values, dts, outputs + [output], k) {
      assert OutputAt(c, target, first, integral, values, dts, outputs, k);
    }
  }

  /** Any sequence of calls: the integral is the area under the error, and every output is the written-out law. */
  method CalculateAll(pid: Controller, values: seq<real>, dts: seq<real>) returns (outputs: seq<real>)
    requires pid.min <= pid.max && |values| == |dts| && NoZero(dts)
    modifies pid`lastError, pid`integral
    ensures |outputs| == |values|
    ensures pid.integral == old(pid.integral) + Area(pid.target, values, dts)
    ensures pid.lastError == ErrorAfter(pid.target, values, old(pid.lastError), |values|)
    ensures AreOutputs(Settings(pid.kp, pid.ki, pid.kd, pid.bias, pid.min, pid.max), pid.target,
                       old(pid.lastError), old(pid.integral), values, dts, outputs)
  {
    outputs := [];
    ghost var c, target := Settings(pid.kp, pid.ki, pid.kd, pid.bias, pid.min, pid.max), pid.target;
    ghost var integral0, first := pid.integral, pid.lastError;
    assert values[..0] == [] && dts[..0] == [];
    for k := 0 to |values|
      invariant |outputs| == k
      invariant pid.integral == integral0 + Area(target, values[..k], dts[..k])
      invariant pid.lastError == ErrorAfter(target, values, first, k)
      invariant AreOutputs(c, target, first, integral0, values, dts, outputs)
    {
      ghost var before := pid.integral;
      var output := pid.Calculate(values[k], dts[k]);
      AreaGrows(target, values, dts, k, integral0, before, pid.integral);
      OutputsPush(c, target, first, integral0, values, dts, outputs, output.value, pid.integral);
      outputs := outputs + [output.value];
    }
    assert values[..|values|] == values && dts[..|dts|] == dts;
  }

  // ---------------------------------------------------------------------
  // The loop on an ideal stage, proportional gain only
  // ---------------------------------------------------------------------

  function Effective(target: real): real {
    if LOW <= target <= HIGH then target else 0.0
  }

  /** The move commanded for the error `e`. */
  function Command(kp: real, e: real): real {
    Round6(Clamp(Times(kp, e), LOW, HIGH))
  }

  /** The position after one correction. */
  function Corrected(kp: real, target: real, pos: real): real {
    pos + Command(kp, Effective(target) - pos)
  }

  function Position(kp: real, target: real, start: real, passes: nat): real {
    if passes == 0 then start else Corrected(kp, target, Position(kp, target, start, passes - 1))
  }

  predicate Settled(target: real, pos: real) {
    Abs(target - pos) <= TOLERANCE
  }

  ghost predicate Settles(kp: real, target: real, start: real) {
    exists n: nat :: Settled(target, Position(kp, target, start, n))
  }

  /** What a caller can check before a move. */
  predicate Tame(kp: real, target: real) {
    LOW <= target <= HIGH && 0.01 <= kp <= 201.0 / 101.0
  }

  /** The error left by one correction of the error `e`. */
  function NextError(kp: real, e: real): real {
    e - Command(kp, e)
  }

  lemma CorrectedError(kp: real, target: real, pos: real)
    requires LOW <= target <= HIGH
    ensures target - Corrected(kp, target, pos) == NextError(kp, target - pos)
  {
  }

  lemma NextErrorOdd(kp: real, e: real)
    ensures NextError(kp, -e) == -NextError(kp, e)
  {
    assert kp * -e == -(kp * e);
    Round6Odd(Clamp(kp * e, LOW, HIGH));
    assert Clamp(-(kp * e), LOW, HIGH) == -Clamp(kp * e, LOW, HIGH);
  }

  /**
    How many corrections an error of size `e` can still need. The last two
    values are special: within half a micro-degree above the tolerance one
    correction always settles, even though it may overshoot.
  */
  function Remaining(e: real): (n: nat)
    requires e >= 0.0
    ensures n == 0 <==> e <= TOLERANCE
  {
    if e <= TOLERANCE then 0
    else if e <= 0.0000505 then 1
    else 2 + (250000000.0 * e).Floor
  }

  lemma ProductMonotone(a: real, b: real, e: real)
    requires a <= b && e >= 0.0
    ensures a * e <= b * e
  {
  }

  lemma GainBounds(kp: real, e: real, demand: real)
    requires 0.01 <= kp <= 201.0 / 101.0 && e >= 0.0 && demand == kp * e
    ensures 0.01 * e <= demand && 101.0 * demand <= 201.0 * e
  {
    ProductMonotone(0.01, kp, e);
    ProductMonotone(kp, 201.0 / 101.0, e);
    assert 201.0 / 101.0 * e == 201.0 * e / 101.0;
  }

  lemma RemainingDrops(e: real, f: real)
    requires e > 0.0000505 && 0.0 <= f <= e - 0.000000004
    ensures Remaining(f) < Remaining(e)
  {
    assert 250000000.0 * f <= 250000000.0 * e - 1.0;
  }

  /** One correction, seen as linear facts about the error, the demand and the micro-degrees moved. */
  lemma MoveShrinks(e: real, demand: real)
    requires e > TOLERANCE && 0.01 * e <= demand && 101.0 * demand <= 201.0 * e
    ensures Remaining(Abs(e - Round6(Clamp(demand, LOW, HIGH)))) < Remaining(e)
  {
    var micro := Clamp(demand, LOW, HIGH) * 1000000.0;
    var r := RoundEven(micro);
    RoundEvenNearest(micro);
    assert micro > 0.5;
    assert r >= 1;
    if e <= 0.0000505 {
      LastMove(e, micro, r);
    } else if r as real / 1000000.0 <= e {
      RemainingDrops(e, e - r as real / 1000000.0);
    } else if r > 101 {
      RemainingDrops(e, r as real / 1000000.0 - e);
    }
  }

  lemma LastMove(e: real, micro: real, r: int)
    requires TOLERANCE < e <= 0.0000505 && micro <= 100.5 && r == RoundEven(micro) >= 1
    ensures Abs(e - r as real / 1000000.0) <= TOLERANCE
  {
    RoundEvenNearest(micro);
    assert r <= 100;
  }

  lemma CorrectionShrinksPositive(kp: real, e: real)
    requires 0.01 <= kp <= 201.0 / 101.0 && e > TOLERANCE
    ensures Remaining(Abs(NextError(kp, e))) < Remaining(e)
  {
    var demand := kp * e;
    GainBounds(kp, e, demand);
    MoveShrinks(e, demand);
  }

  /** Every correction of an unsettled error brings the end of the loop nearer. */
  lemma CorrectionShrinks(kp: real, e: real)
    requires 0.01 <= kp <= 201.0 / 101.0 && Abs(e) > TOLERANCE
    ensures Remaining(Abs(NextError(kp, e))) < Remaining(Abs(e))
  {
    if e > 0.0 {
      CorrectionShrinksPositive(kp, e);
    } else {
      CorrectionShrinksPositive(kp, -e);
      NextErrorOdd(kp, e);
    }
  }

  lemma MoveCuts(e: real, demand: real)
    requires e > TOLERANCE && 0.02 * e <= demand <= 1.98 * e
    ensures Abs(e - Round6(Clamp(demand, LOW, HIGH))) <= e - 0.0000005
  {
    var micro := Clamp(demand, LOW, HIGH) * 1000000.0;
    RoundEvenNearest(micro);
    assert micro >= 1.0;
    assert RoundEven(micro) >= 1;
  }

  lemma MildGainBounds(kp: real, e: real, demand: real)
    requires 0.02 <= kp <= 1.98 && e >= 0.0 && demand == kp * e
    ensures 0.02 * e <= demand <= 1.98 * e
  {
    ProductMonotone(0.02, kp, e);
    ProductMonotone(kp, 1.98, e);
  }

  lemma CutPositive(kp: real, e: real)
    requires 0.02 <= kp <= 1.98 && e > TOLERANCE
    ensures Abs(NextError(kp, e)) <= e - 0.0000005
  {
    var demand := kp * e;
    MildGainBounds(kp, e, demand);
    MoveCuts(e, demand);
  }

  /** Well inside the bounds every correction takes half a micro-degree off the error. */
  lemma CutPerPass(kp: real, e: real)
    requires 0.02 <= kp <= 1.98 && Abs(e) > TOLERANCE
    ensures Abs(NextError(kp, e)) <= Abs(e) - 0.0000005
  {
    if e > 0.0 {
      CutPositive(kp, e);
    } else {
      CutPositive(kp, -e);
      NextErrorOdd(kp, e);
    }
  }

  /** A bound on the corrections left after `n` of them. */
  function Left(kp: real, target: real, start: real, n: nat): nat {
    Remaining(Abs(target - Position(kp, target, start, n)))
  }

  lemma PassShrinks(kp: real, target: real, start: real, n: nat)
    requires Tame(kp, target) && !Settled(target, Position(kp, target, start, n))
    ensures Left(kp, target, start, n + 1) < Left(kp, target, start, n)
  {
    var pos := Position(kp, target, start, n);
    CorrectedError(kp, target, pos);
    CorrectionShrinks(kp, target - pos);
  }

  /** A tame move settles within `Remaining` corrections of where it starts. */
  lemma {:induction false} TameSettles(kp: real, target: real, start: real, done: nat)
    requires Tame(kp, target)
    ensures exists n: nat :: n <= done + Left(kp, target, start, done)
                             && Settled(target, Position(kp, target, start, n))
    decreases Left(kp, target, start, done)
  {
    if !Settled(target, Position(kp, target, start, done)) {
      PassShrinks(kp, target, start, done);
      TameSettles(kp, target, start, done + 1);
    }
  }

  // ---------------------------------------------------------------------
  // Where the loop does not end
  // ---------------------------------------------------------------------

  /** A target out of bounds: the controller holds position 0 instead. */
  lemma {:induction false} OutOfBoundsNeverSettles(kp: real, target: real, n: nat)
    requires !(LOW <= target <= HIGH)
    ensures Position(kp, target, 0.0, n) == 0.0 && !Settled(target, 0.0)
  {
    if n > 0 {
      OutOfBoundsNeverSettles(kp, target, n - 1);
      assert kp * (0.0 - 0.0) == 0.0;
      RoundEvenUnique(0.0, 0);
    }
  }

  /** A start from which the gain `kp` never reaches `target`. */
  function BadError(kp: real): real
    requires kp < 0.01 || 201.0 / 101.0 < kp
  {
    if kp <= 0.0 then 1.0
    else if kp < 0.01 then 0.0000005 / kp
    else if kp < 2.0 then 0.0000505
    else 100.0
  }

  /** With a negative gain the error only grows; otherwise it is stuck or flips sign forever. */
  lemma BadErrorPersists(kp: real, e: real)
    requires kp < 0.01 || 201.0 / 101.0 < kp
    requires if kp <= 0.0 then e >= 1.0 else Abs(e) == BadError(kp)
    ensures if kp <= 0.0 then NextError(kp, e) >= 1.0 else Abs(NextError(kp, e)) == BadError(kp)
    ensures Abs(e) > TOLERANCE
  {
    var b := BadError(kp);
    if kp <= 0.0 {
      assert kp * e <= 0.0;
      RoundEvenNearest(Clamp(kp * e, LOW, HIGH) * 1000000.0);
    } else {
      NextErrorOdd(kp, b);
      BadErrorPersistsPositive(kp);
    }
  }

  lemma DeadZone(kp: real)
    requires 0.0 < kp < 0.01
    ensures kp * BadError(kp) == 0.0000005 && BadError(kp) > TOLERANCE
  {
    var b := BadError(kp);
    assert kp * b == 0.0000005;
    assert (0.01 - kp) * b > 0.0;
  }

  lemma HighGain(kp: real)
    requires 201.0 / 101.0 < kp
    ensures kp < 2.0 ==> 0.0001005 < kp * 0.0000505 < 0.000101
    ensures kp >= 2.0 ==> kp * 100.0 >= 200.0
  {
  }

  lemma BadErrorPersistsPositive(kp: real)
    requires 0.0 < kp < 0.01 || 201.0 / 101.0 < kp
    ensures Abs(NextError(kp, BadError(kp))) == BadError(kp) > TOLERANCE
  {
    var b := BadError(kp);
    var demand := kp * b;
    if kp < 0.01 {
      DeadZone(kp);
      RoundEvenUnique(0.5, 0);
      assert Command(kp, b) == 0.0;
    } else if kp < 2.0 {
      HighGain(kp);
      RoundEvenUnique(demand * 1000000.0, 101);
      assert Command(kp, b) == 0.000101;
    } else {
      HighGain(kp);
      assert Clamp(demand, LOW, HIGH) == 200.0;
      RoundEvenUnique(200000000.0, 200000000);
      assert Command(kp, b) == 200.0;
    }
  }

  lemma {:induction false} BadStartNeverSettles(kp: real, target: real, n: nat)
    requires LOW <= target <= HIGH && (kp < 0.01 || 201.0 / 101.0 < kp)
    ensures var e := target - Position(kp, target, target - BadError(kp), n);
            Abs(e) > TOLERANCE && if kp <= 0.0 then e >= 1.0 else Abs(e) == BadError(kp)
  {
    var start := target - BadError(kp);
    if n == 0 {
      if kp > 0.0 { BadErrorPersistsPositive(kp); }
    } else {
      BadStartNeverSettles(kp, target, n - 1);
      var pos := Position(kp, target, start, n - 1);
      CorrectedError(kp, target, pos);
      BadErrorPersists(kp, target - pos);
      BadErrorPersists(kp, NextError(kp, target - pos));
    }
  }

  /**
    The loop ends from every start position exactly for the targets in range
    and the gains between 1/100 and 201/101.
  */
  lemma SettlesFromEverywhereIff(kp: real, target: real)
    ensures (forall start :: Settles(kp, target, start)) <==> Tame(kp, target)
  {
    if Tame(kp, target) {
      forall start ensures Settles(kp, target, start) {
        TameSettles(kp, target, start, 0);
      }
    } else {
      var start := if LOW <= target <= HIGH then target - BadError(kp) else 0.0;
      assert !Settles(kp, target, start) by {
        forall n: nat ensures !Settled(target, Position(kp, target, start, n)) {
          if LOW <= target <= HIGH {
            BadStartNeverSettles(kp, target, n);
          } else {
            OutOfBoundsNeverSettles(kp, target, n);
          }
        }
      }
    }
  }

  // ---------------------------------------------------------------------
  // The loop as the program runs it, with any gains
  // ---------------------------------------------------------------------

  /** The stage and the memory of the controller. */
  datatype Motion = Motion(pos: real, integral: real, lastError: real)

  /** The time between two corrections is positive: the loop sleeps at least 50 ms after each. */
  ghost predicate Ticks(clock: nat -> real) {
    forall k :: clock(k) > 0.0
  }

  function Moved(g: Gains, target: real, dt: real, m: Motion): Motion
    requires dt > 0.0
  {
    var e := Effective(target) - m.pos;
    var integral := Accumulated(m.integral, e, dt);
    Motion(m.pos + Round6(Law(g, e, integral, e - m.lastError, dt, 0.0, LOW, HIGH).value), integral, e)
  }

  /** One correction written out: the stage moves by the printed output of the law on the error, the grown
      integral and the change of the error, with the bounds of 200. */
  lemma MoveWrittenOut(g: Gains, target: real, dt: real, m: Motion) returns (output: real)
    requires dt > 0.0
    ensures var e := (if -200.0 <= target <= 200.0 then target else 0.0) - m.pos; var n := Moved(g, target, dt, m);
            && n.lastError == e && n.integral == m.integral + e * dt && n.pos == m.pos + Round6(output)
            && IsOutput(Settings(g.kp, g.ki, g.kd, 0.0, -200.0, 200.0), e, n.integral, e - m.lastError, dt, output)
  {
    var e := Effective(target) - m.pos;
    var integral := Accumulated(m.integral, e, dt);
    LawWrittenOut(g, e, integral, e - m.lastError, dt, 0.0, LOW, HIGH);
    output := Law(g, e, integral, e - m.lastError, dt, 0.0, LOW, HIGH).value;
  }

  ghost function Track(g: Gains, target: real, clock: nat -> real, m: Motion, n: nat): Motion
    requires Ticks(clock)
  {
    if n == 0 then m else Moved(g, target, clock(n - 1), Track(g, target, clock, m, n - 1))
  }

  ghost predicate SettledAt(g: Gains, target: real, clock: nat -> real, m: Motion, n: nat)
    requires Ticks(clock)
  {
    Settled(target, Track(g, target, clock, m, n).pos)
  }

  ghost predicate Ends(g: Gains, target: real, clock: nat -> real, m: Motion)
    requires Ticks(clock)
  {
    exists n: nat :: SettledAt(g, target, clock, m, n)
  }

  /** `n` is the first correction after which the position is settled. */
  ghost predicate FirstSettled(g: Gains, target: real, clock: nat -> real, m: Motion, n: nat)
    requires Ticks(clock)
  {
    SettledAt(g, target, clock, m, n) && forall k: nat | k < n :: !SettledAt(g, target, clock, m, k)
  }

  /** The motion stands at `now` after `n` corrections, none of which was superfluous. */
  ghost predicate OnTrack(g: Gains, target: real, clock: nat -> real, m: Motion, n: nat, now: Motion)
    requires Ticks(clock)
  {
    now == Track(g, target, clock, m, n) && forall k: nat | k < n :: !SettledAt(g, target, clock, m, k)
  }

  lemma OnTrackNext(g: Gains, target: real, clock: nat -> real, m: Motion, n: nat, now: Motion, end: nat)
    requires Ticks(clock) && OnTrack(g, target, clock, m, n, now) && !Settled(target, now.pos)
    requires SettledAt(g, target, clock, m, end)
    ensures OnTrack(g, target, clock, m, n + 1, Moved(g, target, clock(n), now)) && n < end
  {
    assert !SettledAt(g, target, clock, m, n);
  }

  /** The loop body, for any target and any gains. */
  method Correct(pid: Controller, target: real, pos: real, dt: real) returns (next: real)
    requires pid.min == LOW && pid.max == HIGH && dt > 0.0
    modifies pid
    ensures Motion(next, pid.integral, pid.lastError)
            == Moved(Gains(pid.kp, pid.ki, pid.kd), target, dt, old(Motion(pos, pid.integral, pid.lastError)))
  {
    pid.SetTargetAndBias(target, 0.0);
    assert pid.target == Effective(target) && pid.bias == 0.0;
    var output := pid.Calculate(pos, dt);
    next := pos + Round6(output.value);
  }

  /** The while loop of one pass. It needs what it cannot provide: a position of the track that is settled. */
  method CorrectUntilSettled(pid: Controller, target: real, at: real, done: nat, clock: nat -> real, ghost m: Motion)
    returns (pos: real, passes: nat)
    requires pid.min == LOW && pid.max == HIGH && Ticks(clock)
    requires var g := Gains(pid.kp, pid.ki, pid.kd);
             && Ends(g, target, clock, m)
             && OnTrack(g, target, clock, m, done, Motion(at, pid.integral, pid.lastError))
    modifies pid
    ensures var g := Gains(pid.kp, pid.ki, pid.kd);
            OnTrack(g, target, clock, m, passes, Motion(pos, pid.integral, pid.lastError))
    ensures Settled(target, pos)
  {
    ghost var g := Gains(pid.kp, pid.ki, pid.kd);
    ghost var end: nat :| SettledAt(g, target, clock, m, end);
    pos, passes := at, done;
    var error := target - pos;
    while Abs(error) > TOLERANCE
      invariant error == target - pos
      invariant OnTrack(g, target, clock, m, passes, Motion(pos, pid.integral, pid.lastError))
      decreases end - passes
    {
      OnTrackNext(g, target, clock, m, passes, Motion(pos, pid.integral, pid.lastError), end);
      pos := Correct(pid, target, pos, clock(passes));
      error := target - pos;
      passes := passes + 1;
    }
  }

  /**
    The two correction passes of a move. They end when the motion does, at the
    first settled position; the second pass has nothing left to correct.
  */
  method MoveAbsolute(pid: Controller, target: real, start: real, clock: nat -> real)
    returns (pos: real, passes: nat)
    requires pid.min == LOW && pid.max == HIGH && Ticks(clock)
    requires Ends(Gains(pid.kp, pid.ki, pid.kd), target, clock, Motion(start, pid.integral, pid.lastError))
    modifies pid
    ensures var g, m := Gains(pid.kp, pid.ki, pid.kd), old(Motion(start, pid.integral, pid.lastError));
            && Motion(pos, pid.integral, pid.lastError) == Track(g, target, clock, m, passes)
            && FirstSettled(g, target, clock, m, passes)
    ensures Settled(target, pos)
  {
    ghost var g, m := Gains(pid.kp, pid.ki, pid.kd), Motion(start, pid.integral, pid.lastError);
    pos, passes := start, 0;
    for i := 0 to 2
      invariant OnTrack(g, target, clock, m, passes, Motion(pos, pid.integral, pid.lastError))
      invariant i > 0 ==> Settled(target, pos)
    {
      pos, passes := CorrectUntilSettled(pid, target, pos, passes, clock, m);
    }
  }

  /** Without integral and derivative gain neither the clock nor the memory matters. */
  lemma {:induction false} ProportionalTrack(kp: real, target: real, clock: nat -> real, m: Motion, n: nat)
    requires Ticks(clock)
    ensures Track(Gains(kp, 0.0, 0.0), target, clock, m, n).pos == Position(kp, target, m.pos, n)
  {
    if n > 0 {
      ProportionalTrack(kp, target, clock, m, n - 1);
      ProportionalMove(kp, target, clock(n - 1), Track(Gains(kp, 0.0, 0.0), target, clock, m, n - 1));
    }
  }

  lemma ProportionalMove(kp: real, target: real, dt: real, m: Motion)
    requires dt > 0.0
    ensures Moved(Gains(kp, 0.0, 0.0), target, dt, m).pos == Corrected(kp, target, m.pos)
  {
    var e := Effective(target) - m.pos;
    ProportionalLaw(Gains(kp, 0.0, 0.0), e, Accumulated(m.integral, e, dt), e - m.lastError, dt);
  }

  lemma ProportionalLaw(g: Gains, e: real, integral: real, change: real, dt: real)
    requires dt > 0.0 && g.ki == 0.0 && g.kd == 0.0
    ensures Law(g, e, integral, change, dt, 0.0, LOW, HIGH) == Number(Clamp(Times(g.kp, e), LOW, HIGH))
  {
    ZeroTimes(integral);
    NoDerivative(Times(g.kp, e), change, dt);
  }

  lemma ZeroTimes(x: real)
    ensures Times(0.0, x) == 0.0
  {
  }

  lemma NoDerivative(sum: real, change: real, dt: real)
    requires dt > 0.0
    ensures Combined(sum, 0.0, change, dt, LOW, HIGH) == Number(Clamp(sum, LOW, HIGH))
  {
    var rate := change / dt;
    assert 0.0 * rate == 0.0;
  }

  /**
    A move with a proportional controller ends from every start, whatever its
    clock and memory, if and only if the target is in range and the gain between
    1/100 and 201/101.
  */
  lemma MoveEndsIff(kp: real, target: real, clock: nat -> real, integral: real, lastError: real)
    requires Ticks(clock)
    ensures (forall start :: Ends(Gains(kp, 0.0, 0.0), target, clock, Motion(start, integral, lastError)))
            <==> Tame(kp, target)
  {
    var g := Gains(kp, 0.0, 0.0);
    forall start ensures Ends(g, target, clock, Motion(start, integral, lastError)) <==> Settles(kp, target, start) {
      EndsIffSettles(kp, target, clock, Motion(start, integral, lastError));
    }
    SettlesFromEverywhereIff(kp, target);
  }

  lemma EndsIffSettles(kp: real, target: real, clock: nat -> real, m: Motion)
    requires Ticks(clock)
    ensures Ends(Gains(kp, 0.0, 0.0), target, clock, m) <==> Settles(kp, target, m.pos)
  {
    var g := Gains(kp, 0.0, 0.0);
    forall n: nat ensures SettledAt(g, target, clock, m, n) <==> Settled(target, Position(kp, target, m.pos, n)) {
      ProportionalTrack(kp, target, clock, m, n);
    }
  }

  /** How many corrections such a move makes at most. */
  lemma PassesBounded(kp: real, target: real, clock: nat -> real, m: Motion, passes: nat)
    requires Ticks(clock) && Tame(kp, target) && FirstSettled(Gains(kp, 0.0, 0.0), target, clock, m, passes)
    ensures passes <= Remaining(Abs(target - m.pos))
  {
    TameSettles(kp, target, m.pos, 0);
    var n: nat :| n <= Left(kp, target, m.pos, 0) && Settled(target, Position(kp, target, m.pos, n));
    ProportionalTrack(kp, target, clock, m, n);
    assert SettledAt(Gains(kp, 0.0, 0.0), target, clock, m, n);
  }
}
