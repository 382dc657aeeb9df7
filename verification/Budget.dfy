/** Token accounting before a request is sent, and the density it is done at. */
module Budget {
  import opened Basics
  import opened Options

  datatype Config = Config(
      contextLimit: nat, modelContextLimit: nat, maxOutput: nat, modelMaxOutput: nat, safetyPercent: nat)

  const UNCALIBRATED := 100
  const CEILING := 300
  const SAMPLES := 3
  const ESCAPE_PERCENT := 125
  /** Stands for calibration that is no longer trusted. */
  const DISTRUSTED: nat := 0xFFFF_FFFF

  function Monus(a: nat, b: nat): nat {
    if a <= b then 0 else a - b
  }

  function CeilDiv(a: nat, b: nat): nat
    requires b > 0
  {
    (a + b - 1) / b
  }

  // ----- the gate and the packer -----

  function Context(c: Config): nat {
    Min(Min(c.contextLimit, c.modelContextLimit), 200_000)
  }

  function Margin(c: Config, extra: nat): nat {
    CeilDiv(Context(c) * Min(c.safetyPercent + extra, 90), 100)
  }

  /** Estimated input tokens of a request of `bytes` bytes, its framing included. */
  function EstimateAt(bytes: nat, density: nat): nat {
    CeilDiv(bytes * 100, Max(density, UNCALIBRATED))
  }

  datatype Reserved = Reserved(input: nat, output: nat, margin: nat, context: nat)
  datatype Rejected = MustSplit

  /** `check`. */
  function Check(c: Config, input: nat, extra: nat): (r: Result<Reserved, Rejected>)
    ensures r.Ok? ==> r.value.input + r.value.output + r.value.margin <= r.value.context <= 200_000
  {
    if c.maxOutput > c.modelMaxOutput || input + c.maxOutput + Margin(c, extra) > Context(c) then Err(MustSplit)
    else Ok(Reserved(input, c.maxOutput, Margin(c, extra), Context(c)))
  }

  /** The tokens left for input. */
  function Allowed(c: Config, extra: nat): nat {
    Monus(Monus(Context(c), Margin(c, extra)), c.maxOutput)
  }

  /** The raw bytes of a whole request. */
  function Room(c: Config, extra: nat, density: nat): nat {
    Allowed(c, extra) * Max(density, UNCALIBRATED) / 100 * 100 / ESCAPE_PERCENT
  }

  /** `packing_limit_at`. */
  function PackingLimit(c: Config, extra: nat, density: nat, overhead: nat): nat {
    Monus(Room(c, extra, density), overhead)
  }

  lemma MulMono(a: nat, b: nat, c: nat)
    requires a <= b
    ensures a * c <= b * c
  {}

  lemma CeilDivAtMost(a: nat, b: nat, n: nat)
    requires b > 0
    ensures CeilDiv(a, b) <= n <==> a <= n * b
  {
    var q := CeilDiv(a, b);
    assert a + b - 1 == b * q + (a + b - 1) % b;
    if q <= n {
      assert b * q <= b * n;
    } else {
      assert b * q >= b * (n + 1);
      assert b * (n + 1) == n * b + b;
    }
  }

  /** A request passes the gate if and only if its input, its output and the margin fit the context: the margin is a
      percentage of it, of at most 90. */
  lemma GateMeans(c: Config, input: nat, extra: nat)
    ensures var context := Min(Min(c.contextLimit, c.modelContextLimit), 200_000);
      var percent := Min(c.safetyPercent + extra, 90);
      Check(c, input, extra).Ok?
      <==> c.maxOutput <= c.modelMaxOutput && 100 * (input + c.maxOutput) + context * percent <= 100 * context
  {
    var context, percent := Context(c), Min(c.safetyPercent + extra, 90);
    if input + c.maxOutput <= context {
      CeilDivAtMost(context * percent, 100, context - input - c.maxOutput);
    }
  }

  /** Exactly which byte counts pass the gate. */
  lemma GateIsExact(c: Config, bytes: nat, extra: nat, density: nat)
    ensures Check(c, EstimateAt(bytes, density), extra).Ok? <==>
      && c.maxOutput <= c.modelMaxOutput && c.maxOutput + Margin(c, extra) <= Context(c)
      && bytes <= Allowed(c, extra) * Max(density, 100) / 100
  {
    var d, a := Max(density, UNCALIBRATED), Allowed(c, extra);
    CeilDivAtMost(bytes * 100, d, a);
  }

  /** A request is serialized into at most 125% of its raw bytes. Whatever is packed within the limit
      then passes the gate at the same density. */
  lemma PackedPasses(c: Config, extra: nat, density: nat, overhead: nat, packed: nat, bytes: nat)
    requires c.maxOutput <= c.modelMaxOutput
    requires 0 < PackingLimit(c, extra, density, overhead) && packed <= PackingLimit(c, extra, density, overhead)
    requires bytes * 100 <= (packed + overhead) * 125
    ensures Check(c, EstimateAt(bytes, density), extra).Ok?
  {
    var whole := Allowed(c, extra) * Max(density, UNCALIBRATED) / 100;
    assert packed + overhead <= Room(c, extra, density) == whole * 100 / ESCAPE_PERCENT;
    assert (packed + overhead) * ESCAPE_PERCENT <= whole * 100;
    assert Allowed(c, extra) > 0;
    GateIsExact(c, bytes, extra, density);
  }

  /** The limit leaves out no request that the gate would pass once escaped in full. */
  lemma LimitIsTight(c: Config, extra: nat, density: nat, overhead: nat, packed: nat)
    requires Check(c, EstimateAt(CeilDiv((packed + overhead) * 125, 100), density), extra).Ok?
    ensures packed <= PackingLimit(c, extra, density, overhead)
  {
    var raw := packed + overhead;
    var bytes := CeilDiv(raw * 125, 100);
    GateIsExact(c, bytes, extra, density);
    CeilDivAtMost(raw * 125, 100, bytes);
    assert raw * 125 <= Allowed(c, extra) * Max(density, 100) / 100 * 100;
  }

  // ----- settings -----

  /** The context and output clauses of `validate`. */
  predicate Validated(c: Config) {
    && 1024 <= c.contextLimit <= 200_000 && c.modelContextLimit >= 1024
    && 0 < c.maxOutput <= c.modelMaxOutput && 5 <= c.safetyPercent <= 80
    && c.maxOutput + 512 < Min(c.contextLimit, c.modelContextLimit) * (100 - c.safetyPercent) / 100
  }

  /** Settings are accepted if and only if they are within the bounds and a request of 513 tokens would pass the
      gate. */
  lemma ValidatedExactly(c: Config)
    ensures Validated(c)
            <==> 1024 <= c.contextLimit <= 200_000 && c.modelContextLimit >= 1024 && c.maxOutput > 0
                 && 5 <= c.safetyPercent <= 80 && Check(c, 513, 0).Ok?
  {
    if 1024 <= c.contextLimit <= 200_000 && 5 <= c.safetyPercent <= 80 {
      var ctx := Min(c.contextLimit, c.modelContextLimit);
      GateMeans(c, 513, 0);
      Percents(ctx, c.safetyPercent, c.maxOutput + 512);
    }
  }

  lemma Percents(whole: nat, percent: nat, part: nat)
    requires percent <= 100
    ensures part < whole * (100 - percent) / 100 <==> 100 * (part + 1) + whole * percent <= 100 * whole
  {
    var rest := whole * (100 - percent);
    assert whole * percent + rest == 100 * whole;
  }

  /** Saved settings leave room for input: 513 tokens, which are 410 raw bytes, at any density. */
  lemma ValidatedHasRoom(c: Config, density: nat)
    requires Validated(c)
    ensures Allowed(c, 0) >= 513 && PackingLimit(c, 0, density, 0) >= 410
    ensures Check(c, 513, 0).Ok?
  {
    var ctx, s, d := Context(c), c.safetyPercent, Max(density, UNCALIBRATED);
    assert ctx * s + ctx * (100 - s) == ctx * 100;
    CeilDivAtMost(ctx * s, 100, ctx - c.maxOutput - 513);
    assert Margin(c, 0) <= ctx - c.maxOutput - 513;
    MulMono(513, Allowed(c, 0), d);
    MulMono(100, d, 513);
  }

  // ----- calibration -----

  function DensitySample(bytes: nat, prompt: nat): (r: Option<nat>)
    ensures r.Some? ==> UNCALIBRATED <= r.value <= 600
  {
    if prompt == 0 || bytes < 4_096 then None
    else
      var d := bytes * 100 / prompt;
      if UNCALIBRATED <= d <= 600 then Some(d) else None
  }

  /** A report is a usable sample if it is about at least 4096 bytes, and there were between one and six of them to a
      token; its density is rounded down. */
  lemma SampleMeans(bytes: nat, prompt: nat, d: nat)
    ensures DensitySample(bytes, prompt) == Some(d)
            <==> bytes >= 4096 && 100 <= d <= 600 && d * prompt <= bytes * 100 < (d + 1) * prompt
  {
    if prompt > 0 {
      var q, whole := bytes * 100 / prompt, bytes * 100;
      assert whole == prompt * q + whole % prompt;
      assert (q + 1) * prompt == q * prompt + prompt;
      if q < d { MulMono(q + 1, d, prompt); }
      if d < q { MulMono(d + 1, q, prompt); }
    } else {
      assert d * prompt == 0 == (d + 1) * prompt;
    }
  }

  function Calibrated(samples: nat, densest: nat): nat {
    if samples < SAMPLES || densest == 0 then UNCALIBRATED
    else Min(Max(densest * 85 / 100, UNCALIBRATED), CEILING)
  }

  datatype Usage = Usage(bytes: nat, prompt: nat)

  /** At a density no sparser than its own sample, a request is estimated at no less than it used. */
  lemma EstimateCovers(u: Usage, density: nat)
    requires DensitySample(u.bytes, u.prompt).Some? && density <= DensitySample(u.bytes, u.prompt).value
    ensures EstimateAt(u.bytes, density) >= u.prompt
  {
    var sample, d, whole := DensitySample(u.bytes, u.prompt).value, Max(density, UNCALIBRATED), u.bytes * 100;
    assert sample * u.prompt <= whole by { assert whole == u.prompt * (whole / u.prompt) + whole % u.prompt; }
    MulMono(d, sample, u.prompt);
    CeilDivAtMost(whole, d, u.prompt - 1);
    assert (u.prompt - 1) * d == d * u.prompt - d;
  }

  predicate Under(floor: nat, sample: Option<nat>) {
    sample.Some? && UNCALIBRATED <= floor <= sample.value
  }

  /** `floor` is the lowest accepted sample, and 0 stands for none. */
  predicate Covers(accepted: seq<Usage>, floor: nat) {
    && (floor == 0 <==> accepted == [])
    && (forall u :: u in accepted ==> Under(floor, DensitySample(u.bytes, u.prompt)))
    && (accepted != [] ==> exists u :: u in accepted && DensitySample(u.bytes, u.prompt) == Some(floor))
  }

  lemma Learns(accepted: seq<Usage>, floor: nat, u: Usage, next: nat)
    requires Covers(accepted, floor) && DensitySample(u.bytes, u.prompt).Some?
    requires var v := DensitySample(u.bytes, u.prompt).value; next == if floor == 0 then v else Min(floor, v)
    ensures Covers(accepted + [u], next)
  {
    var v := DensitySample(u.bytes, u.prompt).value;
    assert accepted != [] ==> Under(floor, DensitySample(accepted[0].bytes, accepted[0].prompt));
    forall w | w in accepted + [u] ensures Under(next, DensitySample(w.bytes, w.prompt)) {
      if w != u { assert w in accepted; }
    }
    assert u in accepted + [u];
    if accepted != [] && floor < v {
      var w :| w in accepted && DensitySample(w.bytes, w.prompt) == Some(floor);
      assert w in accepted + [u];
    }
  }

  /** The calibration state of one run. */
  class Calibration {
    var samples: nat
    var floor: nat
    /** The usage reports accepted so far. */
    ghost var accepted: seq<Usage>

    ghost predicate Valid()
      reads this
    {
      && samples <= DISTRUSTED
      && (samples != DISTRUSTED ==> samples <= |accepted| && (samples == |accepted| || samples == DISTRUSTED - 1))
      && Covers(accepted, floor)
    }

    constructor ()
      ensures Valid() && accepted == [] && samples == 0
    {
      samples, floor, accepted := 0, 0, [];
    }

    /** `density`: 85% of the lowest of at least three samples, between 1 and 3 bytes a token, and else 1; no accepted
        report would be underestimated at it. */
    method Density() returns (density: nat)
      requires Valid()
      ensures density == if |accepted| < 3 || samples == DISTRUSTED then 100 else Min(Max(floor * 85 / 100, 100), 300)
      ensures forall u :: u in accepted ==> EstimateAt(u.bytes, density) >= u.prompt
    {
      if samples == DISTRUSTED {
        density := UNCALIBRATED;
      } else {
        density := Calibrated(samples, floor);
      }
      forall u | u in accepted ensures EstimateAt(u.bytes, density) >= u.prompt {
        EstimateCovers(u, density);
      }
    }

    /** `record_density`: a usable report is learnt from, any other leaves the state as it is. */
    method Record(bytes: nat, prompt: nat) returns (usable: bool)
      requires Valid()
      modifies this
      ensures Valid()
      ensures usable <==> old(samples) != DISTRUSTED && DensitySample(bytes, prompt).Some?
      ensures accepted == old(accepted) + if usable then [Usage(bytes, prompt)] else []
      ensures !usable ==> samples == old(samples) && floor == old(floor)
      ensures usable ==> samples == Min(old(samples) + 1, DISTRUSTED - 1)
      ensures usable ==> floor == if old(floor) == 0 then DensitySample(bytes, prompt).value
                                  else Min(old(floor), DensitySample(bytes, prompt).value)
    {
      if samples == DISTRUSTED { return false; }
      var sample := DensitySample(bytes, prompt);
      if sample.None? { return false; }
      ghost var was := floor;
      floor := if floor == 0 then sample.value else Min(floor, sample.value);
      Learns(accepted, was, Usage(bytes, prompt), floor);
      if samples < DISTRUSTED - 1 { samples := samples + 1; }
      accepted := accepted + [Usage(bytes, prompt)];
      usable := true;
    }

    /** `distrust_density`. */
    method Distrust()
      requires Valid()
      modifies this`samples
      ensures Valid() && samples == DISTRUSTED
    {
      samples := DISTRUSTED;
    }
  }
}
