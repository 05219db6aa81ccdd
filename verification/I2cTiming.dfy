/** The search for I2C timing register values; all times are in picoseconds. */
module I2cTiming {

  datatype I2cMode = Standard | Fast | FastPlus {
    function MinLow(): int { match this case Standard => 4700000 case Fast => 1300000 case FastPlus => 500000 }

    function MinHigh(): int { match this case Standard => 4000000 case Fast => 600000 case FastPlus => 260000 }

    function MinHold(): int { match this case Standard => 300000 case Fast => 10000 case FastPlus => 10000 }

    function MinSetup(): int { match this case Standard => 250000 case Fast => 100000 case FastPlus => 50000 }

    function MaxHold(): int { match this case Standard => 3450000 case Fast => 900000 case FastPlus => 450000 }

    function MaxHz(): int { match this case Standard => 100000 case Fast => 400000 case FastPlus => 1000000 }

    /** Percentage of the cycle that SCL should be low. */
    function LowShare(): int { match this case Standard => 54 case Fast => 68 case FastPlus => 67 }
  }

  datatype Input = Input(peripheralHz: int, i2cHz: int, mode: I2cMode, analogFilter: bool) {
    /** The peripheral clock runs, at a 32-bit rate. */
    predicate Valid() { 0 < peripheralHz < 0x8000_0000 }

    function Clock(): int
      requires Valid()
    {
      1000000000000 / peripheralHz
    }

    /** The requested cycle, with the rate capped to what the mode allows. */
    function Cycle(): int {
      var capped := Max(1, Min(i2cHz, mode.MaxHz()));
      1000000000000 / capped
    }

    function FilterMin(): int { if analogFilter then 50000 else 0 }

    function FilterMax(): int { if analogFilter then 90000 else 0 }

    /** What SCL should be low of each cycle. */
    function Share(): int { Cycle() * mode.LowShare() / 100 }

    function WantedLow(): int { Max(mode.MinLow(), Share()) }
  }

  function Min(a: int, b: int): int { if a < b then a else b }

  function Max(a: int, b: int): int { if a < b then b else a }

  datatype Registers = Registers(prescaler: int, scll: int, sclh: int, sdadel: int, scldel: int)

  datatype Result = Failure(error: int) | Success(registers: Registers, timingr: int)

  function Pack(r: Registers): int {
    r.scll + r.sclh * 0x100 + r.sdadel * 0x1_0000 + r.scldel * 0x10_0000 + r.prescaler * 0x1000_0000
  }

  // ---------------------------------------------------------------------
  // One prescaler
  // ---------------------------------------------------------------------

  function Tick(i: Input, prescaler: int): int
    requires i.Valid()
  {
    i.Clock() * (prescaler + 1)
  }

  function TryTiming(i: Input, prescaler: int): Result
    requires i.Valid() && 0 <= prescaler < 16
  {
    ClockIsPositive(i, prescaler);
    var t := Tick(i, prescaler);
    var scll := i.WantedLow() / t;
    if scll > 255 then Failure(2)
    else
      var low := (scll + 1) * t;
      var sclh := Max(i.mode.MinHigh(), i.Cycle() - low) / t;
      if sclh > 255 then Failure(3)
      else
        var sdadel := (Max(0, i.mode.MinHold() - i.FilterMin() - i.Clock()) + t - 1) / t;
        if sdadel > 15 then Failure(4)
        else if sdadel * t > i.mode.MaxHold() - i.FilterMax() - 4 * i.Clock() then Failure(6)
        else
          var scldel := i.mode.MinSetup() / t;
          if scldel > 15 then Failure(5)
          else
            var r := Registers(prescaler, scll, sclh, sdadel, scldel);
            Success(r, Pack(r))
  }

  lemma ClockIsPositive(i: Input, prescaler: int)
    requires i.Valid() && 0 <= prescaler
    ensures i.Clock() > 0 && Tick(i, prescaler) > 0
  {
    var clock := i.Clock();
    assert 1000000000000 == clock * i.peripheralHz + 1000000000000 % i.peripheralHz;
    if clock <= 0 {
      NotPositive(clock, i.peripheralHz);
    }
    assert clock * (prescaler + 1) >= clock;
  }

  lemma NotPositive(clock: int, hz: int)
    requires clock <= 0 && hz > 0
    ensures clock * hz <= 0
  {
  }

  // ---------------------------------------------------------------------
  // What the registers must achieve
  // ---------------------------------------------------------------------

  /** The bus timing as the hardware makes it from the registers: every minimum of the mode, the
      maximum hold time, and a cycle longer than the requested one. */
  predicate MeetsBus(i: Input, r: Registers)
    requires i.Valid()
  {
    var t := Tick(i, r.prescaler);
    var low, high := (r.scll + 1) * t, (r.sclh + 1) * t;
    && low > i.mode.MinLow() && high > i.mode.MinHigh()
    && low + high > i.Cycle()
    && (r.scldel + 1) * t > i.mode.MinSetup()
    && r.sdadel * t + i.Clock() + i.FilterMin() >= i.mode.MinHold()
    && r.sdadel * t + 4 * i.Clock() + i.FilterMax() <= i.mode.MaxHold()
  }

  /** The low time has its share of the cycle: what the search aims for beyond the bus bounds. */
  predicate MeetsShare(i: Input, r: Registers)
    requires i.Valid()
  {
    (r.scll + 1) * Tick(i, r.prescaler) > i.Share()
  }

  predicate InFields(r: Registers) {
    0 <= r.prescaler < 16 && 0 <= r.scll < 256 && 0 <= r.sclh < 256 && 0 <= r.sdadel < 16 && 0 <= r.scldel < 16
  }

  function Unpack(word: int): Registers {
    Registers(word / 0x1000_0000, word % 0x100, word / 0x100 % 0x100, word / 0x1_0000 % 0x10, word / 0x10_0000 % 0x10)
  }

  lemma PackRoundTrip(r: Registers)
    requires InFields(r)
    ensures 0 <= Pack(r) < 0x1_0000_0000 && Unpack(Pack(r)) == r
  {
    var w3 := r.scldel + 0x100 * r.prescaler;
    var w2 := r.sdadel + 0x10 * w3;
    var w1 := r.sclh + 0x100 * w2;
    assert Pack(r) == r.scll + 0x100 * w1;
    assert Pack(r) / 0x100 == w1 && w1 / 0x100 == w2 && w2 / 0x10 == w3;
  }

  /** Floor division leaves a value whose successor is past the dividend, and is the least such. */
  lemma Quotient(x: int, t: int)
    requires t > 0 && x >= 0
    ensures x / t >= 0 && x / t * t <= x < (x / t + 1) * t
  {
  }

  lemma LeastQuotient(x: int, t: int, n: int)
    requires t > 0 && x >= 0 && x < (n + 1) * t
    ensures x / t <= n
  {
    Quotient(x, t);
    if x / t > n {
      AtLeast(x / t, n + 1, t);
    }
  }

  lemma AtLeast(m: int, n: int, t: int)
    requires m >= n && t > 0
    ensures m * t >= n * t
  {
  }

  /** Rounding up gives the least multiple that is large enough. */
  lemma Ceiling(x: int, t: int)
    requires t > 0 && x >= 0
    ensures 0 <= (x + t - 1) / t && (x + t - 1) / t * t >= x
  {
    Quotient(x + t - 1, t);
    assert ((x + t - 1) / t + 1) * t == (x + t - 1) / t * t + t;
  }

  lemma LeastCeiling(x: int, t: int, n: int)
    requires t > 0 && x >= 0 && n >= 0 && n * t >= x
    ensures (x + t - 1) / t <= n
  {
    assert (n + 1) * t == n * t + t;
    LeastQuotient(x + t - 1, t, n);
  }

  lemma CycleIsLong(i: Input)
    ensures 1000000 <= i.Cycle() <= 1000000000000
  {
    var capped := Max(1, Min(i.i2cHz, i.mode.MaxHz()));
    LongCycle(capped);
  }

  lemma LongCycle(hz: int)
    requires 1 <= hz <= 1000000
    ensures 1000000 <= 1000000000000 / hz <= 1000000000000
  {
    var q := 1000000000000 / hz;
    assert 1000000000000 == q * hz + 1000000000000 % hz;
    if q < 1000000 {
      AtLeast(999999, q, hz);
    }
  }

  /** The high time never overflows its field: what the low time covers is more than half. */
  lemma HighAlwaysFits(i: Input, t: int, scll: int)
    requires i.Valid() && t > 0 && scll == i.WantedLow() / t && scll <= 255
    ensures 0 <= Max(i.mode.MinHigh(), i.Cycle() - (scll + 1) * t) / t <= 255
  {
    CycleIsLong(i);
    Quotient(i.WantedLow(), t);
    var low := (scll + 1) * t;
    var high := Max(i.mode.MinHigh(), i.Cycle() - low);
    AtLeast(256, scll + 1, t);
    assert high < low;
    Quotient(high, t);
    LeastQuotient(high, t, 255);
  }

  /** The search never gives up over the high time. */
  lemma NoHighError(i: Input, prescaler: int)
    requires i.Valid() && 0 <= prescaler < 16
    ensures TryTiming(i, prescaler) != Failure(3)
  {
    ClockIsPositive(i, prescaler);
    var t := Tick(i, prescaler);
    if i.WantedLow() / t <= 255 {
      HighAlwaysFits(i, t, i.WantedLow() / t);
    }
  }

  /** Values that succeed meet every bound of the bus and the share, and fit and unpack from the
      register word. */
  lemma SuccessIsSound(i: Input, prescaler: int)
    requires i.Valid() && 0 <= prescaler < 16 && TryTiming(i, prescaler).Success?
    ensures var s := TryTiming(i, prescaler);
      && MeetsBus(i, s.registers) && MeetsShare(i, s.registers) && InFields(s.registers)
      && s.registers.prescaler == prescaler && Unpack(s.timingr) == s.registers && 0 <= s.timingr < 0x1_0000_0000
  {
    var r := TryTiming(i, prescaler).registers;
    ClockIsPositive(i, prescaler);
    CycleIsLong(i);
    LowIsSound(i, prescaler, r);
    DelaysAreSound(i, prescaler, r);
    PackRoundTrip(r);
  }

  lemma LowIsSound(i: Input, prescaler: int, r: Registers)
    requires i.Valid() && 0 <= prescaler < 16
    requires TryTiming(i, prescaler).Success? && r == TryTiming(i, prescaler).registers
    ensures var t := Tick(i, prescaler); var low, high := (r.scll + 1) * t, (r.sclh + 1) * t;
      && low > i.mode.MinLow() && low > i.Share() && high > i.mode.MinHigh() && low + high > i.Cycle()
      && 0 <= r.scll && 0 <= r.sclh
  {
    ClockIsPositive(i, prescaler);
    CycleIsLong(i);
    var t := Tick(i, prescaler);
    Quotient(i.WantedLow(), t);
    Quotient(Max(i.mode.MinHigh(), i.Cycle() - (r.scll + 1) * t), t);
  }

  lemma DelaysAreSound(i: Input, prescaler: int, r: Registers)
    requires i.Valid() && 0 <= prescaler < 16
    requires TryTiming(i, prescaler).Success? && r == TryTiming(i, prescaler).registers
    ensures var t := Tick(i, prescaler);
      && (r.scldel + 1) * t > i.mode.MinSetup() && 0 <= r.scldel && 0 <= r.sdadel
      && r.sdadel * t + i.Clock() + i.FilterMin() >= i.mode.MinHold()
      && r.sdadel * t + 4 * i.Clock() + i.FilterMax() <= i.mode.MaxHold()
  {
    ClockIsPositive(i, prescaler);
    var t := Tick(i, prescaler);
    Quotient(i.mode.MinSetup(), t);
    Ceiling(Max(0, i.mode.MinHold() - i.FilterMin() - i.Clock()), t);
  }

  /** Some registers with this prescaler meet the bus. */
  ghost predicate Feasible(i: Input, prescaler: int)
    requires i.Valid()
  {
    exists r: Registers :: r.prescaler == prescaler && InFields(r) && MeetsBus(i, r)
  }

  /** The longest low time that the field can hold covers the share. */
  predicate ShareFits(i: Input, prescaler: int)
    requires i.Valid()
  {
    i.Share() < 256 * Tick(i, prescaler)
  }

  /** The search finds registers when some meet the bus and the share fits, whether or not the
      same ones do both. */
  lemma SuccessIsComplete(i: Input, r: Registers)
    requires i.Valid() && InFields(r) && MeetsBus(i, r) && ShareFits(i, r.prescaler)
    ensures TryTiming(i, r.prescaler).Success?
  {
    ClockIsPositive(i, r.prescaler);
    CycleIsLong(i);
    var t := Tick(i, r.prescaler);
    assert i.WantedLow() < (255 + 1) * t by { AtLeast(256, r.scll + 1, t); }
    LeastQuotient(i.WantedLow(), t, 255);
    NoHighError(i, r.prescaler);
    var hold := Max(0, i.mode.MinHold() - i.FilterMin() - i.Clock());
    assert r.sdadel * t >= 0 by { AtLeast(r.sdadel, 0, t); }
    LeastCeiling(hold, t, r.sdadel);
    AtLeast(r.sdadel, (hold + t - 1) / t, t);
    LeastQuotient(i.mode.MinSetup(), t, r.scldel);
  }

  lemma SuccessFitsShare(i: Input, prescaler: int)
    requires i.Valid() && 0 <= prescaler < 16 && TryTiming(i, prescaler).Success?
    ensures ShareFits(i, prescaler)
  {
    SuccessIsSound(i, prescaler);
    ClockIsPositive(i, prescaler);
    AtLeast(256, TryTiming(i, prescaler).registers.scll + 1, Tick(i, prescaler));
  }

  /** What one prescaler is worth to the search: registers that meet the bus are found unless the
      share of the low time does not fit its field. */
  lemma SuccessIffFeasible(i: Input, prescaler: int)
    requires i.Valid() && 0 <= prescaler < 16
    ensures TryTiming(i, prescaler).Success? <==> Feasible(i, prescaler) && ShareFits(i, prescaler)
  {
    if TryTiming(i, prescaler).Success? {
      SuccessIsSound(i, prescaler);
      SuccessFitsShare(i, prescaler);
    }
    if Feasible(i, prescaler) && ShareFits(i, prescaler) {
      var r: Registers :| r.prescaler == prescaler && InFields(r) && MeetsBus(i, r);
      SuccessIsComplete(i, r);
    }
  }

  // ---------------------------------------------------------------------
  // What the refusals mean, and the bounds in nanoseconds
  // ---------------------------------------------------------------------

  predicate LowReaches(i: Input, prescaler: int, scll: int)
    requires i.Valid()
  {
    0 <= scll < 256 && (scll + 1) * Tick(i, prescaler) > i.WantedLow()
  }

  predicate HoldReaches(i: Input, prescaler: int, sdadel: int)
    requires i.Valid()
  {
    0 <= sdadel < 16 && sdadel * Tick(i, prescaler) + i.Clock() + i.FilterMin() >= i.mode.MinHold()
  }

  predicate HoldFits(i: Input, prescaler: int, sdadel: int)
    requires i.Valid()
  {
    HoldReaches(i, prescaler, sdadel) && sdadel * Tick(i, prescaler) + 4 * i.Clock() + i.FilterMax() <= i.mode.MaxHold()
  }

  predicate SetupReaches(i: Input, prescaler: int, scldel: int)
    requires i.Valid()
  {
    0 <= scldel < 16 && (scldel + 1) * Tick(i, prescaler) > i.mode.MinSetup()
  }

  ghost predicate SomeLow(i: Input, p: int) requires i.Valid() { exists n :: LowReaches(i, p, n) }

  ghost predicate SomeHold(i: Input, p: int) requires i.Valid() { exists n :: HoldReaches(i, p, n) }

  ghost predicate FittingHold(i: Input, p: int) requires i.Valid() { exists n :: HoldFits(i, p, n) }

  ghost predicate SomeSetup(i: Input, p: int) requires i.Valid() { exists n :: SetupReaches(i, p, n) }

  /** Each error names the first of the low time, the hold time, its maximum and the setup time
      that no value of the field can meet with this prescaler. */
  lemma ErrorsMean(i: Input, prescaler: int)
    requires i.Valid() && 0 <= prescaler < 16
    ensures TryTiming(i, prescaler) == Failure(2) <==> !SomeLow(i, prescaler)
    ensures TryTiming(i, prescaler) == Failure(4) <==> SomeLow(i, prescaler) && !SomeHold(i, prescaler)
    ensures TryTiming(i, prescaler) == Failure(6) <==>
      SomeLow(i, prescaler) && SomeHold(i, prescaler) && !FittingHold(i, prescaler)
    ensures TryTiming(i, prescaler) == Failure(5) <==>
      SomeLow(i, prescaler) && FittingHold(i, prescaler) && !SomeSetup(i, prescaler)
  {
    NoHighError(i, prescaler);
    LowError(i, prescaler);
    HoldErrors(i, prescaler);
    SetupError(i, prescaler);
  }

  lemma LowError(i: Input, p: int)
    requires i.Valid() && 0 <= p < 16
    ensures Tick(i, p) > 0 && (i.WantedLow() / Tick(i, p) > 255 <==> !SomeLow(i, p))
  {
    ClockIsPositive(i, p);
    CycleIsLong(i);
    var t := Tick(i, p);
    Quotient(i.WantedLow(), t);
    if i.WantedLow() / t <= 255 {
      assert LowReaches(i, p, i.WantedLow() / t);
    }
    if SomeLow(i, p) {
      var n :| LowReaches(i, p, n);
      LeastQuotient(i.WantedLow(), t, n);
    }
  }

  lemma HoldErrors(i: Input, p: int)
    requires i.Valid() && 0 <= p < 16
    ensures var t := Tick(i, p);
      t > 0
      && var least := (Max(0, i.mode.MinHold() - i.FilterMin() - i.Clock()) + t - 1) / t;
      && (least > 15 <==> !SomeHold(i, p))
      && (least > 15 || least * t > i.mode.MaxHold() - i.FilterMax() - 4 * i.Clock() <==> !FittingHold(i, p))
  {
    ClockIsPositive(i, p);
    var t := Tick(i, p);
    var hold := Max(0, i.mode.MinHold() - i.FilterMin() - i.Clock());
    var least := (hold + t - 1) / t;
    Ceiling(hold, t);
    if least <= 15 {
      assert HoldReaches(i, p, least);
      assert least * t <= i.mode.MaxHold() - i.FilterMax() - 4 * i.Clock() ==> HoldFits(i, p, least);
    }
    forall n | HoldReaches(i, p, n)
      ensures least <= n && least * t <= n * t
    {
      AtLeast(n, 0, t);
      LeastCeiling(hold, t, n);
      AtLeast(n, least, t);
    }
  }

  lemma SetupError(i: Input, p: int)
    requires i.Valid() && 0 <= p < 16
    ensures Tick(i, p) > 0 && (i.mode.MinSetup() / Tick(i, p) > 15 <==> !SomeSetup(i, p))
  {
    ClockIsPositive(i, p);
    var t := Tick(i, p);
    Quotient(i.mode.MinSetup(), t);
    if i.mode.MinSetup() / t <= 15 {
      assert SetupReaches(i, p, i.mode.MinSetup() / t);
    }
    if SomeSetup(i, p) {
      var n :| SetupReaches(i, p, n);
      LeastQuotient(i.mode.MinSetup(), t, n);
    }
  }

  predicate HighReaches(i: Input, prescaler: int, scll: int, sclh: int)
    requires i.Valid()
  {
    var t := Tick(i, prescaler);
    0 <= sclh < 256 && (sclh + 1) * t > i.mode.MinHigh() && (scll + 1) * t + (sclh + 1) * t > i.Cycle()
  }

  /** Every field found is the least that reaches what it must, so no time is longer than it need be. */
  lemma FieldsAreLeast(i: Input, prescaler: int, n: int)
    requires i.Valid() && 0 <= prescaler < 16 && TryTiming(i, prescaler).Success?
    ensures var r := TryTiming(i, prescaler).registers;
      && (LowReaches(i, prescaler, n) ==> r.scll <= n) && (HighReaches(i, prescaler, r.scll, n) ==> r.sclh <= n)
      && (HoldReaches(i, prescaler, n) ==> r.sdadel <= n) && (SetupReaches(i, prescaler, n) ==> r.scldel <= n)
  {
    ClockIsPositive(i, prescaler);
    CycleIsLong(i);
    var t, r := Tick(i, prescaler), TryTiming(i, prescaler).registers;
    if LowReaches(i, prescaler, n) {
      LeastQuotient(i.WantedLow(), t, n);
    }
    if HighReaches(i, prescaler, r.scll, n) {
      LeastQuotient(Max(i.mode.MinHigh(), i.Cycle() - (r.scll + 1) * t), t, n);
    }
    if HoldReaches(i, prescaler, n) {
      AtLeast(n, 0, t);
      LeastCeiling(Max(0, i.mode.MinHold() - i.FilterMin() - i.Clock()), t, n);
    }
    if SetupReaches(i, prescaler, n) {
      LeastQuotient(i.mode.MinSetup(), t, n);
    }
  }

  /** Low, high, setup, earliest and latest hold time and cycle against the figures of the mode, in
      nanoseconds; the cycle is that of the mode's fastest rate or a slower one asked for. */
  predicate MeetsFigures(i: Input, low: int, high: int, setup: int, earliest: int, latest: int) {
    var ns := 1000;
    match i.mode
    case Standard =>
      && low > 4700 * ns && high > 4000 * ns && setup > 250 * ns && earliest >= 300 * ns && latest <= 3450 * ns
      && (i.i2cHz >= 100000 ==> low + high > 10000 * ns)
    case Fast =>
      && low > 1300 * ns && high > 600 * ns && setup > 100 * ns && earliest >= 10 * ns && latest <= 900 * ns
      && (i.i2cHz >= 400000 ==> low + high > 2500 * ns)
    case FastPlus =>
      && low > 500 * ns && high > 260 * ns && setup > 50 * ns && earliest >= 10 * ns && latest <= 450 * ns
      && (i.i2cHz >= 1000000 ==> low + high > 1000 * ns)
  }

  predicate MeetsFiguresWith(i: Input, r: Registers)
    requires i.Valid()
  {
    var t := Tick(i, r.prescaler);
    MeetsFigures(i, (r.scll + 1) * t, (r.sclh + 1) * t, (r.scldel + 1) * t,
      r.sdadel * t + i.Clock() + (if i.analogFilter then 50000 else 0),
      r.sdadel * t + 4 * i.Clock() + (if i.analogFilter then 90000 else 0))
  }

  /** Registers meet the bus if and only if they meet the figures of the mode and give no faster
      rate than the one asked for, when that is slower. */
  lemma MeetsBusIff(i: Input, r: Registers)
    requires i.Valid()
    ensures MeetsBus(i, r) <==> MeetsFiguresWith(i, r) && (r.scll + 1 + r.sclh + 1) * Tick(i, r.prescaler) > i.Cycle()
    ensures 0 < i.i2cHz <= i.mode.MaxHz() ==> i.Cycle() == 1000000000000 / i.i2cHz
  {
    var t := Tick(i, r.prescaler);
    assert (r.scll + 1 + r.sclh + 1) * t == (r.scll + 1) * t + (r.sclh + 1) * t;
    CapIs(i);
  }

  /** At or above the fastest rate of the mode the cycle is that rate's, and the share of its low
      time 5.4, 1.7 or 0.67 microseconds. */
  lemma CapIs(i: Input)
    ensures i.mode.Standard? && i.i2cHz >= 100000 ==> i.Cycle() == 10000000 && i.Share() == 5400000
    ensures i.mode.Fast? && i.i2cHz >= 400000 ==> i.Cycle() == 2500000 && i.Share() == 1700000
    ensures i.mode.FastPlus? && i.i2cHz >= 1000000 ==> i.Cycle() == 1000000 && i.Share() == 670000
  {
  }

  /** Without looking at registers: when some with this prescaler meet the bus. */
  predicate CanMeetBus(i: Input, prescaler: int)
    requires i.Valid() && 0 <= prescaler < 16
  {
    ClockIsPositive(i, prescaler);
    var t := Tick(i, prescaler);
    var sdadel := (Max(0, i.mode.MinHold() - i.FilterMin() - i.Clock()) + t - 1) / t;
    && i.mode.MinLow() < 256 * t && i.mode.MinHigh() < 256 * t && i.Cycle() < 512 * t && i.mode.MinSetup() < 16 * t
    && sdadel < 16 && sdadel * t + 4 * i.Clock() + i.FilterMax() <= i.mode.MaxHold()
  }

  lemma FeasibleIff(i: Input, prescaler: int)
    requires i.Valid() && 0 <= prescaler < 16
    ensures Feasible(i, prescaler) <==> CanMeetBus(i, prescaler)
  {
    ClockIsPositive(i, prescaler);
    var t := Tick(i, prescaler);
    var hold := Max(0, i.mode.MinHold() - i.FilterMin() - i.Clock());
    Ceiling(hold, t);
    if CanMeetBus(i, prescaler) {
      var r := Registers(prescaler, 255, 255, (hold + t - 1) / t, 15);
      assert InFields(r) && MeetsBus(i, r);
    }
    if Feasible(i, prescaler) {
      var r: Registers :| r.prescaler == prescaler && InFields(r) && MeetsBus(i, r);
      FeasibleBounds(i, r);
    }
  }

  lemma FeasibleBounds(i: Input, r: Registers)
    requires i.Valid() && InFields(r) && MeetsBus(i, r)
    ensures CanMeetBus(i, r.prescaler)
  {
    ClockIsPositive(i, r.prescaler);
    var t := Tick(i, r.prescaler);
    var hold := Max(0, i.mode.MinHold() - i.FilterMin() - i.Clock());
    AtLeast(256, r.scll + 1, t);
    AtLeast(256, r.sclh + 1, t);
    AtLeast(16, r.scldel + 1, t);
    AtLeast(r.sdadel, 0, t);
    LeastCeiling(hold, t, r.sdadel);
    AtLeast(r.sdadel, (hold + t - 1) / t, t);
  }

  /** An 8 kHz bus on a 64 MHz clock: these registers meet every bound of the bus, but the share
      of the low time fits no prescaler's field, and every prescaler is refused. */
  lemma SlowBusIsRefused(prescaler: int)
    requires 0 <= prescaler < 16
    ensures var i := Input(64000000, 8000, Standard, true);
      && MeetsBus(i, Registers(15, 255, 255, 1, 1)) && InFields(Registers(15, 255, 255, 1, 1))
      && TryTiming(i, prescaler) == Failure(2)
  {
    var i := Input(64000000, 8000, Standard, true);
    assert i.Clock() == 15625 && i.Cycle() == 125000000 && i.Share() == 67500000;
    assert Tick(i, 15) == 250000;
    var t := Tick(i, prescaler);
    assert 0 < t <= 250000;
    Quotient(67500000, t);
    if 67500000 / t <= 255 {
      AtLeast(256, 67500000 / t + 1, t);
    }
  }

  // ---------------------------------------------------------------------
  // The search
  // ---------------------------------------------------------------------

  /** The first prescaler for which registers can meet the bus with the share fitting, or error 1
      when there is none. */
  method CalculateI2cTiming(i: Input) returns (result: Result)
    requires i.Valid()
    ensures result.Success? <==> exists p :: 0 <= p < 16 && Feasible(i, p) && ShareFits(i, p)
    ensures result.Success? ==>
      MeetsBus(i, result.registers) && MeetsShare(i, result.registers) && InFields(result.registers)
    ensures result.Success? ==> result == TryTiming(i, result.registers.prescaler)
    ensures result.Success? ==> Unpack(result.timingr) == result.registers && 0 <= result.timingr < 0x1_0000_0000
    ensures result.Success? ==>
      forall p :: 0 <= p < result.registers.prescaler && Feasible(i, p) ==> !ShareFits(i, p)
    ensures result.Failure? ==> result == Failure(1)
  {
    for prescaler := 0 to 16
      invariant forall p :: 0 <= p < prescaler && Feasible(i, p) ==> !ShareFits(i, p)
    {
      result := TryTiming(i, prescaler);
      SuccessIffFeasible(i, prescaler);
      if result.Success? {
        SuccessIsSound(i, prescaler);
        return;
      }
    }
    return Failure(1);
  }
}
