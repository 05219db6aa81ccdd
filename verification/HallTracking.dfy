/** Hall sensors: from three lines to a sector, and from sectors to a position within the motor. */
module HallTracking {

  const HALL_COUNTS: int := 6

  /** The three lines, A lowest. */
  datatype Lines = Lines(a: bool, b: bool, c: bool) {
    function Xor(other: Lines): Lines { Lines(a != other.a, b != other.b, c != other.c) }

    /** Neither of the two codes that no rotor position produces. */
    predicate Valid() { !(a == b == c) }
  }

  function One(bit: bool): nat { if bit then 1 else 0 }

  /** kHallMapping */
  function Mapping(x: Lines): nat {
    if x.a then (if x.b then (if x.c then 0 else 1) else (if x.c then 5 else 0))
    else (if x.b then (if x.c then 3 else 2) else (if x.c then 4 else 0))
  }

  function BitsChanged(x: Lines, y: Lines): nat {
    var d := x.Xor(y);
    One(d.a) + One(d.b) + One(d.c)
  }

  // ---------------------------------------------------------------------
  // The sensor
  // ---------------------------------------------------------------------

  datatype Hall = Hall(active: bool, bits: Lines, count: nat, nonce: nat, error: nat)

  function Apply(h: Hall, raw: Lines, polarity: Lines): Hall {
    var changed := BitsChanged(raw, h.bits);
    Hall(true, raw, Mapping(raw.Xor(polarity)),
      if !h.active || changed == 1 then (h.nonce + 1) % 256 else h.nonce,
      if h.active && changed > 1 then h.error + 1 else h.error)
  }

  class HallStatus {
    var active: bool
    var bits: Lines
    var count: nat
    var nonce: nat
    var error: nat

    function View(): Hall
      reads this
    {
      Hall(active, bits, count, nonce, error)
    }

    constructor ()
      ensures View() == Hall(false, Lines(false, false, false), 0, 0, 0)
    {
      active, bits, count, nonce, error := false, Lines(false, false, false), 0, 0, 0;
    }

    method ApplyHallReading(raw: Lines, polarity: Lines)
      modifies this
      ensures View() == Apply(old(View()), raw, polarity)
    {
      var first := !active;
      active := true;
      var oldBits := bits;
      bits := raw;
      if first {
        nonce := (nonce + 1) % 256;
      } else {
        var delta := bits.Xor(oldBits);
        var changed := One(delta.a) + One(delta.b) + One(delta.c);
        if changed > 1 {
          error := error + 1;
        } else if changed > 0 {
          nonce := (nonce + 1) % 256;
        }
      }
      count := Mapping(bits.Xor(polarity));
    }
  }

  /** Between codes of real positions one changed line is one sector forward or back, and the
      other way around. */
  lemma OneLineIsOneSector(x: Lines, y: Lines, polarity: Lines)
    requires x.Xor(polarity).Valid() && y.Xor(polarity).Valid()
    ensures var d := (Mapping(y.Xor(polarity)) - Mapping(x.Xor(polarity))) % 6;
      (BitsChanged(x, y) == 1 <==> d == 1 || d == 5) && (BitsChanged(x, y) == 0 <==> d == 0)
  {
  }

  /** A running sensor passes on exactly the moves by one sector; anything longer is an error and
      goes unnoticed until the next single step. */
  lemma SensorStep(h: Hall, raw: Lines, polarity: Lines)
    requires h.active && h.bits.Xor(polarity).Valid() && raw.Xor(polarity).Valid() && h.nonce < 256
    requires h.count == Mapping(h.bits.Xor(polarity))
    ensures var n := Apply(h, raw, polarity); var d := (n.count - h.count) % 6;
      && (n.nonce != h.nonce <==> d == 1 || d == 5)
      && (n.error != h.error <==> 2 <= d <= 4)
      && n.error <= h.error + 1 && n.active && n.bits == raw && n.count == Mapping(raw.Xor(polarity))
  {
    OneLineIsOneSector(h.bits, raw, polarity);
  }

  /** Both count by one, the nonce modulo 256. */
  lemma SensorCounts(h: Hall, raw: Lines, polarity: Lines)
    requires h.nonce < 256
    ensures var n := Apply(h, raw, polarity);
      && (n.nonce != h.nonce ==> n.nonce == (if h.nonce == 255 then 0 else h.nonce + 1))
      && (n.error != h.error ==> n.error == h.error + 1)
  {
  }

  /** The first reading is always passed on, and the two codes that no rotor position produces
      read as the first sector. */
  lemma FirstAndBroken(h: Hall, raw: Lines, polarity: Lines)
    requires h.nonce < 256
    ensures !h.active ==> Apply(h, raw, polarity).nonce != h.nonce && Apply(h, raw, polarity).error == h.error
    ensures !raw.Xor(polarity).Valid() ==> Apply(h, raw, polarity).count == 0
  {
  }

  // ---------------------------------------------------------------------
  // The position source
  // ---------------------------------------------------------------------

  /** The C remainder: the sign follows the dividend. */
  function CMod(a: int, b: int): int
    requires b > 0
  {
    if a >= 0 then a % b else -(-a % b)
  }

  datatype Config = Config(poles: nat, offset: int, sign: int) {
    /** An even pole count makes whole electrical turns; the configuration check demands it. */
    predicate Valid() { poles > 0 && poles % 2 == 0 && (sign == 1 || sign == -1) }

    function Cpr(): nat { 3 * poles }
  }

  function WithOffset(c: Config, count: int): int { CMod((count + c.offset) * c.sign + 6, 6) }

  function Delta(current: int, value: int): int { CMod(current - value + 9, 6) - 3 }

  function NewValue(c: Config, value: int, count: int): int
    requires c.Valid()
  {
    (value + c.Cpr() + Delta(WithOffset(c, count), value % 6)) % c.Cpr()
  }

  datatype Source = Source(value: int, nonce: nat)

  function Update(c: Config, s: Source, h: Hall): Source
    requires c.Valid()
  {
    if h.nonce == s.nonce then s else Source(NewValue(c, s.value, h.count), h.nonce)
  }

  class HallSource {
    const config: Config
    var offsetValue: int
    var nonce: nat

    function View(): Source
      reads this
    {
      Source(offsetValue, nonce)
    }

    constructor (c: Config)
      ensures config == c && View() == Source(0, 0)
    {
      config, offsetValue, nonce := c, 0, 0;
    }

    method UpdateFromHall(h: Hall) returns (updated: bool)
      requires config.Valid()
      modifies this
      ensures View() == Update(config, old(View()), h) && updated == (h.nonce != old(nonce))
    {
      var cpr := 3 * config.poles;
      var current := CMod((h.count + config.offset) * config.sign + 6, 6);
      var delta := CMod(current - offsetValue % 6 + 6 + 3, 6) - 3;
      var newValue := (offsetValue + cpr + delta) % cpr;
      if h.nonce == nonce {
        return false;
      }
      offsetValue := newValue;
      nonce := h.nonce;
      return true;
    }
  }

  // ---------------------------------------------------------------------
  // Tracking
  // ---------------------------------------------------------------------

  lemma CModIsCongruent(a: int)
    ensures (CMod(a, 6) - a) % 6 == 0 && -6 < CMod(a, 6) < 6 && (a >= 0 ==> CMod(a, 6) >= 0)
  {
  }

  /** The move is always right modulo six. It is the nearest one, within -3 and 2 sectors, exactly
      unless a negative sum met the last sector. */
  lemma DeltaIsNearestIff(current: int, sector: int)
    requires -6 < current < 6 && 0 <= sector < 6
    ensures (Delta(current, sector) - (current - sector)) % 6 == 0
    ensures -3 <= Delta(current, sector) <= 2 <==> !(current == -5 && sector == 5)
  {
    CModIsCongruent(current - sector + 9);
  }

  /** The value never leaves the motor's range and always agrees with the sector modulo six. */
  lemma ValueIsCongruent(c: Config, value: int, count: int)
    requires c.Valid() && 0 <= value < c.Cpr()
    ensures 0 <= NewValue(c, value, count) < c.Cpr()
    ensures (NewValue(c, value, count) - (count + c.offset) * c.sign) % 6 == 0
  {
    var sum, current := (count + c.offset) * c.sign, WithOffset(c, count);
    CModIsCongruent(sum + 6);
    DeltaIsNearestIff(current, value % 6);
    var d := Delta(current, value % 6);
    CprWraps(c, value + c.Cpr() + d);
    SixAdds(NewValue(c, value, count), value, d, sum, current, c.Cpr());
    InTurn(value + c.Cpr() + d, c.Cpr());
  }

  lemma InTurn(x: int, m: int)
    requires m > 0
    ensures 0 <= x % m < m
  {
  }

  lemma CprWraps(c: Config, x: int)
    requires c.Valid()
    ensures (x % c.Cpr() - x) % 6 == 0 && c.Cpr() % 6 == 0
  {
    var h := c.poles / 2;
    assert c.Cpr() == 6 * h;
    MultipleWraps(x, c.Cpr(), h);
  }

  lemma MultipleWraps(x: int, m: int, h: int)
    requires m == 6 * h && h > 0
    ensures (x % m - x) % 6 == 0 && m % 6 == 0
  {
    var q := x / m;
    assert x == q * m + x % m;
    assert q * m == 6 * (q * h);
    SixDivides(x % m - x, -(q * h));
  }

  lemma SixDivides(d: int, k: int)
    requires d == 6 * k
    ensures d % 6 == 0
  {
  }

  lemma SixAdds(next: int, value: int, d: int, sum: int, current: int, cpr: int)
    requires (next - (value + cpr + d)) % 6 == 0 && cpr % 6 == 0
    requires (d - (current - value % 6)) % 6 == 0 && (current - (sum + 6)) % 6 == 0
    ensures (next - sum) % 6 == 0
  {
  }

  /** The one reading that is lost: the remainder of a negative sum meets the last sector, in a motor
      of more than one pole pair. */
  predicate Loses(c: Config, sector: int, count: int) { c.poles > 2 && WithOffset(c, count) == -5 && sector == 5 }

  /** An accepted reading after a true move of at most two sectors moves the value by exactly that
      move, modulo one revolution, if and only if it is not the one that is lost. */
  lemma AcceptTracksIff(c: Config, value: int, count: int, index: int, next: int)
    requires c.Valid() && 0 <= value < c.Cpr()
    requires (value - index) % 6 == 0 && ((count + c.offset) * c.sign - next) % 6 == 0
    requires -2 <= next - index <= 2
    ensures NewValue(c, value, count) == (value + (next - index)) % c.Cpr() <==> !Loses(c, index % 6, count)
  {
    SameSector(value, index);
    if WithOffset(c, count) == -5 && value % 6 == 5 {
      LostMove(c, value, count, index, next);
    } else {
      KeptMove(c, value, count, index, next);
    }
  }

  lemma LostMove(c: Config, value: int, count: int, index: int, next: int)
    requires c.Valid() && 0 <= value < c.Cpr() && WithOffset(c, count) == -5 && value % 6 == 5
    requires (value - index) % 6 == 0 && ((count + c.offset) * c.sign - next) % 6 == 0
    requires -2 <= next - index <= 2
    ensures NewValue(c, value, count) == (value + (next - index)) % c.Cpr() <==> c.poles == 2
  {
    var sum := (count + c.offset) * c.sign;
    CModIsCongruent(sum + 6);
    TwoForward(sum, value, index, next);
    ExtraTurn(value - 4, c.Cpr());
    SixApartIff(c, value - 4);
  }

  lemma KeptMove(c: Config, value: int, count: int, index: int, next: int)
    requires c.Valid() && 0 <= value < c.Cpr() && !(WithOffset(c, count) == -5 && value % 6 == 5)
    requires (value - index) % 6 == 0 && ((count + c.offset) * c.sign - next) % 6 == 0
    requires -2 <= next - index <= 2
    ensures NewValue(c, value, count) == (value + (next - index)) % c.Cpr()
  {
    var sum := (count + c.offset) * c.sign;
    CModIsCongruent(sum + 6);
    var current, d := WithOffset(c, count), Delta(WithOffset(c, count), value % 6);
    DeltaIsNearestIff(current, value % 6);
    MoveIsDelta(current, sum, value, index, next, d);
    ExtraTurn(value + d, c.Cpr());
  }

  lemma SameSector(a: int, b: int)
    requires (a - b) % 6 == 0
    ensures a % 6 == b % 6
  {
  }

  /** Six counts apart is the same place only in a motor of one pole pair. */
  lemma SixApartIff(c: Config, x: int)
    requires c.Valid()
    ensures x % c.Cpr() == (x + 6) % c.Cpr() <==> c.poles == 2
  {
    var m := c.Cpr();
    if c.poles == 2 {
      ExtraTurn(x, m);
    } else {
      NoMultiple((x + 6) / m - x / m, m);
      assert ((x + 6) / m - x / m) * m == (x + 6 - (x + 6) % m) - (x - x % m);
    }
  }

  lemma NoMultiple(k: int, m: int)
    requires m >= 12
    ensures k * m != 6
  {
    if k >= 1 {
      AtLeastOne(k, m);
    } else {
      assert k * m <= 0;
    }
  }

  lemma MoveIsDelta(current: int, sum: int, value: int, index: int, next: int, d: int)
    requires (current - (sum + 6)) % 6 == 0 && (value - index) % 6 == 0 && (sum - next) % 6 == 0
    requires (d - (current - value % 6)) % 6 == 0 && -3 <= d <= 2 && -2 <= next - index <= 2
    ensures d == next - index
  {
    assert (d - (next - index)) % 6 == 0;
  }

  lemma TwoForward(sum: int, value: int, index: int, next: int)
    requires (-5 - (sum + 6)) % 6 == 0 && (value - index) % 6 == 0 && (sum - next) % 6 == 0 && value % 6 == 5
    requires -2 <= next - index <= 2
    ensures next - index == 2
  {
    SameResidue(-5 - 6, sum, next);
    assert (index - value) % 6 == 0;
    assert (value - 5) % 6 == 0;
    SameResidue(index, value, 5);
    FiveToEleven(index, next);
  }

  lemma FiveToEleven(index: int, next: int)
    requires (-11 - next) % 6 == 0 && (index - 5) % 6 == 0 && -2 <= next - index <= 2
    ensures next - index == 2
  {
    var p, q := (-11 - next) / 6, (index - 5) / 6;
    assert next == -11 - 6 * p && index == 5 + 6 * q;
  }

  lemma ExtraTurn(x: int, cpr: int)
    requires cpr > 0
    ensures (x + cpr) % cpr == x % cpr
  {
    var q, r := x / cpr, x % cpr;
    assert x + cpr == (q + 1) * cpr + r;
    ModIs(x + cpr, cpr, q + 1, r);
  }

  lemma ModIs(x: int, d: int, q: int, r: int)
    requires 0 <= r < d && x == q * d + r
    ensures x % d == r
  {
    var other := x / d;
    assert (other - q) * d == r - x % d;
    if other > q {
      AtLeastOne(other - q, d);
    } else if other < q {
      AtLeastOne(q - other, d);
    }
  }

  lemma AtLeastOne(m: int, d: int)
    requires m >= 1 && d > 0
    ensures m * d >= d
  {
  }

  lemma ModAdds(x: int, y: int, d: int)
    requires d > 0
    ensures (x % d + y) % d == (x + y) % d
  {
    var q := x / d;
    var r := (x % d + y) % d;
    var p := (x % d + y) / d;
    assert x + y == (q + p) * d + r;
    ModIs(x + y, d, q + p, r);
  }

  /** The values a run of accepted counts leads to. */
  function Accepted(c: Config, value: int, counts: seq<nat>): int
    requires c.Valid()
  {
    if counts == [] then value else NewValue(c, Accepted(c, value, counts[..|counts| - 1]), counts[|counts| - 1])
  }

  function IndexAt(index: int, indices: seq<int>, i: nat): int
    requires i <= |indices|
  {
    if i == 0 then index else indices[i - 1]
  }

  /** An accepted count shows the rotor at sector index `next`, after `index`. */
  predicate Shows(c: Config, index: int, next: int, count: nat) {
    ((count + c.offset) * c.sign - next) % 6 == 0 && -2 <= next - index <= 2 && !Loses(c, index % 6, count)
  }

  /** The rotor's true sector indices behind a run of accepted counts. */
  ghost predicate Explains(c: Config, index: int, indices: seq<int>, counts: seq<nat>) {
    |indices| == |counts| &&
    forall i :: 0 <= i < |counts| ==> Shows(c, IndexAt(index, indices, i), indices[i], counts[i])
  }

  /** The value is the true index modulo the counts of one revolution, up to where it started. */
  predicate Follows(c: Config, value: int, index: int, now: int, here: int)
    requires c.Valid()
  {
    now == (value + (here - index)) % c.Cpr() && 0 <= now < c.Cpr() && (now - here) % 6 == 0
  }

  lemma FollowsNext(c: Config, value: int, index: int, now: int, here: int, next: int, count: nat)
    requires c.Valid() && Follows(c, value, index, now, here) && Shows(c, here, next, count)
    ensures Follows(c, value, index, NewValue(c, now, count), next)
  {
    SameSector(now, here);
    AcceptTracksIff(c, now, count, here, next);
    ValueIsCongruent(c, now, count);
    ModAdds(value + (here - index), next - here, c.Cpr());
    SameResidue(NewValue(c, now, count), (count + c.offset) * c.sign, next);
  }

  lemma SameResidue(a: int, b: int, d: int)
    requires (a - b) % 6 == 0 && (b - d) % 6 == 0
    ensures (a - d) % 6 == 0
  {
  }

  /** Over a whole run the value equals the true index modulo the counts of one revolution. */
  lemma {:induction false} RunTracks(c: Config, value: int, index: int, indices: seq<int>, counts: seq<nat>)
    requires c.Valid() && 0 <= value < c.Cpr() && (value - index) % 6 == 0 && Explains(c, index, indices, counts)
    ensures Follows(c, value, index, Accepted(c, value, counts), IndexAt(index, indices, |indices|))
  {
    if counts == [] {
      ModIs(value, c.Cpr(), 0, value);
    } else {
      var n := |counts| - 1;
      var here := IndexAt(index, indices, n);
      assert Shows(c, here, indices[n], counts[n]);
      ExplainsPrefix(c, index, indices, counts);
      RunTracks(c, value, index, indices[..n], counts[..n]);
      assert IndexAt(index, indices[..n], n) == here;
      FollowsNext(c, value, index, Accepted(c, value, counts[..n]), here, indices[n], counts[n]);
    }
  }

  lemma ExplainsPrefix(c: Config, index: int, indices: seq<int>, counts: seq<nat>)
    requires Explains(c, index, indices, counts) && counts != []
    ensures Explains(c, index, indices[..|counts| - 1], counts[..|counts| - 1])
  {
    var n := |counts| - 1;
    forall i | 0 <= i < n
      ensures Shows(c, IndexAt(index, indices[..n], i), indices[..n][i], counts[..n][i])
    {
      assert Shows(c, IndexAt(index, indices, i), indices[i], counts[i]);
    }
  }

  /** The one kind of move that is lost: two sectors forward onto a negative offset count come
      out as four sectors back. */
  lemma NegativeOffsetLosesTwoSectors(c: Config)
    requires c == Config(4, -12, 1)
    ensures ((1 + c.offset) * c.sign - (5 + 2)) % 6 == 0 && NewValue(c, 5, 1) == 1 == (5 - 4) % c.Cpr()
    ensures Loses(c, 5, 1) && NewValue(c, 5, 1) != (5 + 2) % c.Cpr()
  {
  }

  // ---------------------------------------------------------------------
  // Which configurations lose nothing
  // ---------------------------------------------------------------------

  /** No reading can be lost, whatever the rotor does. */
  predicate LosesNothing(c: Config) {
    forall sector, count :: 0 <= sector < 6 && 0 <= count < 6 ==> !Loses(c, sector, count)
  }

  /** The offsets that are safe for each sign; with one pole pair all are. */
  predicate SafeOffset(c: Config) { c.poles == 2 || (if c.sign == 1 then c.offset >= -10 else c.offset <= 5) }

  lemma LosesNothingIff(c: Config)
    requires c.Valid()
    ensures LosesNothing(c) <==> SafeOffset(c)
  {
    if SafeOffset(c) {
      forall sector, count | 0 <= sector < 6 && 0 <= count < 6
        ensures !Loses(c, sector, count)
      {
        SafeKeeps(c, sector, count);
      }
    } else {
      var count := UnsafeLoses(c);
      assert Loses(c, 5, count);
    }
  }

  lemma UnsafeLoses(c: Config) returns (count: int)
    requires c.Valid() && !SafeOffset(c)
    ensures 0 <= count < 6 && Loses(c, 5, count)
  {
    if c.sign == 1 {
      count := (1 - c.offset) % 6;
      LosingSum(count, c.offset, 1);
    } else {
      count := (5 - c.offset) % 6;
      LosingSum(count, c.offset, -1);
    }
  }

  lemma LosingSum(count: int, offset: int, sign: int)
    requires (sign == 1 && offset <= -11 && count == (1 - offset) % 6) || (sign == -1 && offset >= 6 && count == (5 - offset) % 6)
    ensures CMod((count + offset) * sign + 6, 6) == -5
  {
    var sum := if sign == 1 then count + offset else -(count + offset);
    assert (count + offset) * sign == sum;
    LosingRemainder(sum);
  }

  lemma LosingRemainder(sum: int)
    requires sum <= -6 && (sum - 1) % 6 == 0
    ensures CMod(sum + 6, 6) == -5
  {
  }

  lemma SafeKeeps(c: Config, sector: int, count: int)
    requires c.Valid() && SafeOffset(c) && 0 <= count < 6
    ensures !Loses(c, sector, count)
  {
    if c.poles > 2 {
      var sum := if c.sign == 1 then count + c.offset else -(count + c.offset);
      assert (count + c.offset) * c.sign == sum;
      SafeRemainder(sum);
    }
  }

  lemma SafeRemainder(sum: int)
    requires sum >= -10
    ensures CMod(sum + 6, 6) != -5
  {
  }

  /** Accepted counts of a rotor that moves by at most two sectors from one to the next. */
  ghost predicate Moves(c: Config, index: int, indices: seq<int>, counts: seq<nat>) {
    && |indices| == |counts| && (forall i :: 0 <= i < |counts| ==> counts[i] < 6)
    && forall i :: 0 <= i < |counts| ==>
         ((counts[i] + c.offset) * c.sign - indices[i]) % 6 == 0 && -2 <= indices[i] - IndexAt(index, indices, i) <= 2
  }

  /** With a safe offset every run of accepted counts is followed, moves by two sectors included. */
  lemma SafeRunTracks(c: Config, value: int, index: int, indices: seq<int>, counts: seq<nat>)
    requires c.Valid() && SafeOffset(c) && 0 <= value < c.Cpr() && (value - index) % 6 == 0
    requires Moves(c, index, indices, counts)
    ensures Follows(c, value, index, Accepted(c, value, counts), IndexAt(index, indices, |indices|))
  {
    LosesNothingIff(c);
    forall i | 0 <= i < |counts|
      ensures Shows(c, IndexAt(index, indices, i), indices[i], counts[i])
    {
      assert !Loses(c, IndexAt(index, indices, i) % 6, counts[i]);
    }
    RunTracks(c, value, index, indices, counts);
  }

  /** Without one there is a legal run that is not: a single move by two sectors is enough. */
  lemma UnsafeRunIsLost(c: Config) returns (value: int, index: int, indices: seq<int>, counts: seq<nat>)
    requires c.Valid() && !SafeOffset(c)
    ensures 0 <= value < c.Cpr() && (value - index) % 6 == 0 && Moves(c, index, indices, counts)
    ensures !Follows(c, value, index, Accepted(c, value, counts), IndexAt(index, indices, |indices|))
  {
    var count := UnsafeLoses(c);
    var sum := (count + c.offset) * c.sign;
    CModIsCongruent(sum + 6);
    LostSum(sum, WithOffset(c, count));
    value, index, indices, counts := 5, 5, [7], [count];
    AcceptTracksIff(c, 5, count, 5, 7);
    assert Accepted(c, 5, []) == 5 && counts[..0] == [];
  }

  lemma LostSum(sum: int, current: int)
    requires (current - (sum + 6)) % 6 == 0 && current == -5
    ensures (sum - 7) % 6 == 0
  {
  }

  ghost predicate FollowsEveryRun(c: Config)
    requires c.Valid()
  {
    forall value, index, indices, counts ::
      0 <= value < c.Cpr() && (value - index) % 6 == 0 && Moves(c, index, indices, counts) ==>
      Follows(c, value, index, Accepted(c, value, counts), IndexAt(index, indices, |indices|))
  }

  /** The configurations that follow every run of moves by at most two sectors. */
  lemma FollowsEveryRunIff(c: Config)
    requires c.Valid()
    ensures FollowsEveryRun(c) <==> SafeOffset(c)
  {
    if SafeOffset(c) {
      forall value, index, indices, counts |
        0 <= value < c.Cpr() && (value - index) % 6 == 0 && Moves(c, index, indices, counts)
        ensures Follows(c, value, index, Accepted(c, value, counts), IndexAt(index, indices, |indices|))
      {
        SafeRunTracks(c, value, index, indices, counts);
      }
    } else {
      var value, index, indices, counts := UnsafeRunIsLost(c);
    }
  }

  // ---------------------------------------------------------------------
  // From the raw lines to the position
  // ---------------------------------------------------------------------

  /** The sensor and the position source fed from it. */
  datatype Tracker = Tracker(hall: Hall, source: Source)

  /** One cycle: the lines are read, then the source is updated. */
  function Sample(c: Config, polarity: Lines, t: Tracker, raw: Lines): Tracker
    requires c.Valid()
  {
    var h := Apply(t.hall, raw, polarity);
    Tracker(h, Update(c, t.source, h))
  }

  function Samples(c: Config, polarity: Lines, t: Tracker, raws: seq<Lines>): Tracker
    requires c.Valid()
  {
    if raws == [] then t else Sample(c, polarity, Samples(c, polarity, t, raws[..|raws| - 1]), raws[|raws| - 1])
  }

  /** The lines read what the rotor at sector `index` makes them. */
  predicate ReadsAs(c: Config, polarity: Lines, raw: Lines, index: int) {
    raw.Xor(polarity).Valid() && ((Mapping(raw.Xor(polarity)) + c.offset) * c.sign - index) % 6 == 0
  }

  /** The sensor has taken in a reading at `here`, the source the one at `took`. */
  predicate Apart(c: Config, polarity: Lines, t: Tracker, took: int, here: int)
    requires c.Valid()
  {
    && t.hall.active && t.hall.nonce < 256 && t.source.nonce == t.hall.nonce
    && ReadsAs(c, polarity, t.hall.bits, here) && t.hall.count == Mapping(t.hall.bits.Xor(polarity))
    && 0 <= t.source.value < c.Cpr() && (t.source.value - took) % 6 == 0
  }

  /** Both have taken in a reading of the rotor at `index`. */
  predicate Settled(c: Config, polarity: Lines, t: Tracker, index: int)
    requires c.Valid()
  {
    Apart(c, polarity, t, index, index)
  }

  /** A move by one sector is never the one that is lost. */
  lemma OneSectorIsKept(c: Config, index: int, next: int, count: nat)
    requires ((count + c.offset) * c.sign - next) % 6 == 0 && -1 <= next - index <= 1
    ensures !Loses(c, index % 6, count)
  {
    var sum := (count + c.offset) * c.sign;
    if CMod(sum + 6, 6) == -5 && index % 6 == 5 {
      CModIsCongruent(sum + 6);
      TwoForward(sum, index, index, next);
    }
  }

  /** The sectors of two readings differ as the rotor's indices do, up to the sign. */
  lemma SectorsMove(c: Config, before: int, after: int, index: int, next: int)
    requires c.sign == 1 || c.sign == -1
    requires ((before + c.offset) * c.sign - index) % 6 == 0 && ((after + c.offset) * c.sign - next) % 6 == 0
    requires -1 <= next - index <= 1
    ensures (after - before) % 6 == 0 <==> next == index
    ensures next == index || (after - before) % 6 == 1 || (after - before) % 6 == 5
  {
    if c.sign == 1 {
      SameDifference(before + c.offset, after + c.offset, index, next);
    } else {
      SameDifference(-(after + c.offset), -(before + c.offset), next, index);
    }
  }

  lemma SameDifference(a: int, b: int, index: int, next: int)
    requires (a - index) % 6 == 0 && (b - next) % 6 == 0
    ensures (b - a) % 6 == (next - index) % 6
  {
  }

  /** Between readings of a rotor that stays or moves by one sector, the sensor passes on exactly
      the move. */
  lemma ApplyTracks(c: Config, polarity: Lines, t: Tracker, raw: Lines, index: int, next: int)
    requires c.Valid() && Settled(c, polarity, t, index) && ReadsAs(c, polarity, raw, next) && -1 <= next - index <= 1
    ensures var h := Apply(t.hall, raw, polarity);
      && h.active && h.bits == raw && h.count == Mapping(raw.Xor(polarity)) && h.nonce < 256
      && h.error == t.hall.error && (h.nonce == t.hall.nonce <==> next == index)
  {
    SensorStep(t.hall, raw, polarity);
    SectorsMove(c, t.hall.count, Mapping(raw.Xor(polarity)), index, next);
  }

  /** A source that takes in a reading one sector on moves by that sector. */
  lemma MoveIsTaken(c: Config, value: int, count: int, index: int, next: int)
    requires c.Valid() && 0 <= value < c.Cpr() && 0 <= count
    requires (value - index) % 6 == 0 && ((count + c.offset) * c.sign - next) % 6 == 0 && -1 <= next - index <= 1
    ensures NewValue(c, value, count) == (value + (next - index)) % c.Cpr()
    ensures 0 <= NewValue(c, value, count) < c.Cpr() && (NewValue(c, value, count) - next) % 6 == 0
  {
    ValueIsCongruent(c, value, count);
    OneSectorIsKept(c, index, next, count);
    AcceptTracksIff(c, value, count, index, next);
    SameResidue(NewValue(c, value, count), (count + c.offset) * c.sign, next);
  }

  /** One cycle after a move of at most one sector: the value moves along, and nothing is counted
      as an error. */
  lemma SampleTracks(c: Config, polarity: Lines, t: Tracker, raw: Lines, index: int, next: int)
    requires c.Valid() && Settled(c, polarity, t, index) && ReadsAs(c, polarity, raw, next) && -1 <= next - index <= 1
    ensures var n := Sample(c, polarity, t, raw);
      && Settled(c, polarity, n, next) && n.hall.error == t.hall.error
      && n.source.value == (t.source.value + (next - index)) % c.Cpr()
  {
    ApplyTracks(c, polarity, t, raw, index, next);
    if next == index {
      ModIs(t.source.value, c.Cpr(), 0, t.source.value);
    } else {
      MoveIsTaken(c, t.source.value, Mapping(raw.Xor(polarity)), index, next);
    }
  }

  /** The rotor moves by at most one sector between readings of the lines. */
  ghost predicate Sampled(c: Config, polarity: Lines, index: int, indices: seq<int>, raws: seq<Lines>) {
    |indices| == |raws| && forall i :: 0 <= i < |raws| ==>
      ReadsAs(c, polarity, raws[i], indices[i]) && -1 <= indices[i] - IndexAt(index, indices, i) <= 1
  }

  lemma SampledPrefix(c: Config, polarity: Lines, index: int, indices: seq<int>, raws: seq<Lines>)
    requires Sampled(c, polarity, index, indices, raws) && raws != []
    ensures var n := |raws| - 1;
      && Sampled(c, polarity, index, indices[..n], raws[..n]) && ReadsAs(c, polarity, raws[n], indices[n])
      && -1 <= indices[n] - IndexAt(index, indices[..n], n) <= 1
  {
    var n := |raws| - 1;
    forall i | 0 <= i < n
      ensures ReadsAs(c, polarity, raws[..n][i], indices[..n][i]) && -1 <= indices[..n][i] - IndexAt(index, indices[..n], i) <= 1
    {
      assert ReadsAs(c, polarity, raws[i], indices[i]);
    }
  }

  /** Over a whole run of raw readings, for every offset and polarity: the value is the true index
      modulo the counts of one revolution, and no error is counted. */
  lemma {:induction false} RawRunTracks(c: Config, polarity: Lines, t: Tracker, index: int, indices: seq<int>, raws: seq<Lines>)
    requires c.Valid() && Settled(c, polarity, t, index) && Sampled(c, polarity, index, indices, raws)
    ensures var n := Samples(c, polarity, t, raws); var here := IndexAt(index, indices, |indices|);
      && Settled(c, polarity, n, here) && Follows(c, t.source.value, index, n.source.value, here)
      && n.hall.error == t.hall.error
  {
    if raws == [] {
      ModIs(t.source.value, c.Cpr(), 0, t.source.value);
    } else {
      var n := |raws| - 1;
      SampledPrefix(c, polarity, index, indices, raws);
      RawRunTracks(c, polarity, t, index, indices[..n], raws[..n]);
      RawFollowsNext(c, polarity, t.source.value, index, Samples(c, polarity, t, raws[..n]), raws[n],
                     IndexAt(index, indices[..n], n), indices[n]);
    }
  }

  lemma RawFollowsNext(c: Config, polarity: Lines, value: int, index: int, t: Tracker, raw: Lines, here: int, next: int)
    requires c.Valid() && Settled(c, polarity, t, here) && Follows(c, value, index, t.source.value, here)
    requires ReadsAs(c, polarity, raw, next) && -1 <= next - here <= 1
    ensures var n := Sample(c, polarity, t, raw);
      Settled(c, polarity, n, next) && Follows(c, value, index, n.source.value, next) && n.hall.error == t.hall.error
  {
    SampleTracks(c, polarity, t, raw, here, next);
    ModAdds(value + (here - index), next - here, c.Cpr());
  }

  // Readings that skip sectors.

  predicate OneSector(d: int) { d % 6 == 1 || d % 6 == 5 }

  /** The rotor's index at the last reading that the sensor passed on. */
  function LastTaken(index: int, indices: seq<int>): int {
    if indices == [] then index
    else
      var n := |indices| - 1;
      if OneSector(indices[n] - IndexAt(index, indices, n)) then indices[n] else LastTaken(index, indices[..n])
  }

  /** Readings that come out as errors. */
  function Skips(index: int, indices: seq<int>): nat {
    if indices == [] then 0
    else
      var n := |indices| - 1;
      Skips(index, indices[..n]) + (if 2 <= (indices[n] - IndexAt(index, indices, n)) % 6 <= 4 then 1 else 0)
  }

  /** A reading that is passed on shows a net move of at most two sectors since the last one
      that was, other than the one that is lost. */
  predicate Acceptable(c: Config, polarity: Lines, raw: Lines, took: int, here: int, next: int) {
    ReadsAs(c, polarity, raw, next) &&
    (OneSector(next - here) ==> -2 <= next - took <= 2 && !Loses(c, took % 6, Mapping(raw.Xor(polarity))))
  }

  predicate Skipping(c: Config, polarity: Lines, index: int, indices: seq<int>, raws: seq<Lines>) {
    |indices| == |raws| &&
    (indices == [] ||
     var n := |indices| - 1;
     && Skipping(c, polarity, index, indices[..n], raws[..n])
     && Acceptable(c, polarity, raws[n], LastTaken(index, indices[..n]), IndexAt(index, indices, n), indices[n]))
  }

  lemma SectorsApart(c: Config, before: int, after: int, here: int, next: int)
    requires c.sign == 1 || c.sign == -1
    requires ((before + c.offset) * c.sign - here) % 6 == 0 && ((after + c.offset) * c.sign - next) % 6 == 0
    ensures OneSector(after - before) <==> OneSector(next - here)
    ensures 2 <= (after - before) % 6 <= 4 <==> 2 <= (next - here) % 6 <= 4
  {
    if c.sign == 1 {
      SameDifference(before + c.offset, after + c.offset, here, next);
    } else {
      SameDifference(-(after + c.offset), -(before + c.offset), next, here);
      Opposite(next - here);
    }
  }

  lemma Opposite(d: int)
    ensures OneSector(d) <==> OneSector(-d)
    ensures 2 <= d % 6 <= 4 <==> 2 <= (-d) % 6 <= 4
  {
  }

  lemma AcceptFollows(c: Config, value: int, count: nat, took: int, next: int)
    requires c.Valid() && 0 <= value < c.Cpr() && (value - took) % 6 == 0
    requires ((count + c.offset) * c.sign - next) % 6 == 0 && -2 <= next - took <= 2 && !Loses(c, took % 6, count)
    ensures var n := NewValue(c, value, count);
      n == (value + (next - took)) % c.Cpr() && 0 <= n < c.Cpr() && (n - next) % 6 == 0
  {
    ValueIsCongruent(c, value, count);
    AcceptTracksIff(c, value, count, took, next);
    SameResidue(NewValue(c, value, count), (count + c.offset) * c.sign, next);
  }

  /** One cycle: what the sensor passes on moves the value by the net move since it last did. */
  lemma SkippingSample(c: Config, polarity: Lines, t: Tracker, raw: Lines, took: int, here: int, next: int)
    requires c.Valid() && Apart(c, polarity, t, took, here) && Acceptable(c, polarity, raw, took, here, next)
    ensures var n := Sample(c, polarity, t, raw); var taken := if OneSector(next - here) then next else took;
      && Apart(c, polarity, n, taken, next)
      && n.source.value == (if taken == took then t.source.value else (t.source.value + (taken - took)) % c.Cpr())
      && n.hall.error == t.hall.error + (if 2 <= (next - here) % 6 <= 4 then 1 else 0)
  {
    var count := Mapping(raw.Xor(polarity));
    SensorStep(t.hall, raw, polarity);
    SectorsApart(c, t.hall.count, count, here, next);
    if OneSector(next - here) {
      AcceptFollows(c, t.source.value, count, took, next);
      if next == took {
        ModIs(t.source.value, c.Cpr(), 0, t.source.value);
      }
    }
  }

  /** Over a whole run of raw readings that may skip sectors, as long as the rotor is within two
      sectors of where it was last followed to whenever a reading is passed on: the value is the
      true index at that reading, and the errors count the readings that were not. */
  lemma {:induction false} SkippingRunTracks(c: Config, polarity: Lines, t: Tracker, index: int, indices: seq<int>,
      raws: seq<Lines>)
    requires c.Valid() && Settled(c, polarity, t, index) && Skipping(c, polarity, index, indices, raws)
    ensures var n := Samples(c, polarity, t, raws);
      && Apart(c, polarity, n, LastTaken(index, indices), IndexAt(index, indices, |indices|))
      && Follows(c, t.source.value, index, n.source.value, LastTaken(index, indices))
      && n.hall.error == t.hall.error + Skips(index, indices)
  {
    if raws == [] {
      ModIs(t.source.value, c.Cpr(), 0, t.source.value);
    } else {
      var n := |raws| - 1;
      SkippingRunTracks(c, polarity, t, index, indices[..n], raws[..n]);
      assert IndexAt(index, indices[..n], n) == IndexAt(index, indices, n);
      SkippingNext(c, polarity, t.source.value, index, Samples(c, polarity, t, raws[..n]), raws[n],
                   LastTaken(index, indices[..n]), IndexAt(index, indices, n), indices[n]);
    }
  }

  lemma SkippingNext(c: Config, polarity: Lines, value: int, index: int, t: Tracker, raw: Lines, took: int, here: int,
      next: int)
    requires c.Valid() && Apart(c, polarity, t, took, here) && Acceptable(c, polarity, raw, took, here, next)
    requires Follows(c, value, index, t.source.value, took)
    ensures var n := Sample(c, polarity, t, raw); var taken := if OneSector(next - here) then next else took;
      && Apart(c, polarity, n, taken, next) && Follows(c, value, index, n.source.value, taken)
      && n.hall.error == t.hall.error + (if 2 <= (next - here) % 6 <= 4 then 1 else 0)
  {
    SkippingSample(c, polarity, t, raw, took, here, next);
    if OneSector(next - here) {
      ModAdds(value + (took - index), next - took, c.Cpr());
    }
  }

  /** The first reading after power-on settles both, wherever the rotor is. */
  lemma PowerOnSettles(c: Config, polarity: Lines, bits: Lines, raw: Lines, index: int)
    requires c.Valid() && ReadsAs(c, polarity, raw, index)
    ensures Settled(c, polarity, Sample(c, polarity, Tracker(Hall(false, bits, 0, 0, 0), Source(0, 0)), raw), index)
  {
    var count := Mapping(raw.Xor(polarity));
    ValueIsCongruent(c, 0, count);
    SameResidue(NewValue(c, 0, count), (count + c.offset) * c.sign, index);
  }
}
