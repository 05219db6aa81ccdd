/** The configuration store's flash writer: a shadow double-word that starts at zero and is
    filled by OR, with erasing done separately and hardware errors ignored.

    Addresses are offsets into the area, and the 64-bit shadow is kept as its eight bytes. */
module FlashCoalescer {
  import opened DoubleWord

  lemma WordBelow(a: nat, front: nat)
    requires front % 8 == 0
    ensures a < front ==> Word(a) + 8 <= front
    ensures front <= a ==> front <= Word(a)
  {
  }

  function Or(a: nat, b: nat): nat {
    if a == 0 && b == 0 then 0 else Or(a / 2, b / 2) * 2 + (if a % 2 == 1 || b % 2 == 1 then 1 else 0)
  }

  lemma {:induction false} OrWithZero(b: nat)
    ensures Or(0, b) == b
  {
    if b > 0 {
      OrWithZero(b / 2);
    }
  }

  // ---------------------------------------------------------------------
  // The steps of the writer
  // ---------------------------------------------------------------------

  datatype State = State(
    flash: seq<nat>,
    start: int,            // word being collected, -1 for none
    shadow: seq<nat>,
    bits: seq<bool>)

  predicate Cleared(s: State)
    requires |s.shadow| == 8 && |s.bits| == 8
  {
    forall i :: 0 <= i < 8 && !s.bits[i] ==> s.shadow[i] == 0
  }

  predicate WellFormed(s: State) {
    && |s.flash| % 8 == 0 && |s.shadow| == 8 && |s.bits| == 8
    && (s.start == -1 || (0 <= s.start <= |s.flash| - 8 && s.start % 8 == 0))
    && (s.start == -1 <==> s.bits == NONE_SET) && Cleared(s)
  }

  /** Hardware: programs the word if it is erased; the caller does not look at the outcome. */
  function Programmed(flash: seq<nat>, word: nat, bytes: seq<nat>): (r: seq<nat>)
    requires |bytes| == 8 && word + 8 <= |flash|
    ensures |r| == |flash|
  {
    if flash[word..word + 8] != ERASED then flash
    else seq(|flash|, a requires 0 <= a < |flash| => if word <= a < word + 8 then bytes[a - word] else flash[a])
  }

  function FlushStep(s: State): (r: State)
    requires WellFormed(s) && s.start != -1
    ensures WellFormed(r) && r.start == -1 && |r.flash| == |s.flash|
  {
    var r := State(Programmed(s.flash, s.start, s.shadow), -1, ZEROS, NONE_SET);
    assert Cleared(r);
    r
  }

  /** Makes room for a byte of another word. */
  function RoomStep(s: State, a: nat): (r: State)
    requires WellFormed(s)
    ensures WellFormed(r) && (r.start == -1 || r.start == Word(a)) && |r.flash| == |s.flash|
  {
    if s.start != -1 && s.start != Word(a) then FlushStep(s) else s
  }

  function CollectStep(s: State, a: nat, value: nat): State
    requires |s.shadow| == 8 && |s.bits| == 8
  {
    var k := a - Word(a);
    s.(start := Word(a), shadow := s.shadow[k := Or(s.shadow[k], value)], bits := s.bits[k := true])
  }

  lemma CollectIsWellFormed(s: State, a: nat, value: nat)
    requires WellFormed(s) && a < |s.flash| && (s.start == -1 || s.start == Word(a))
    ensures WellFormed(CollectStep(s, a, value))
  {
    WordOf(a);
    WordBelow(a, |s.flash|);
    var c := CollectStep(s, a, value);
    assert c.bits[a - Word(a)];
    assert Cleared(c);
  }

  /** A word that is complete goes out at once. */
  function FullStep(s: State): (r: State)
    requires WellFormed(s)
    ensures WellFormed(r) && |r.flash| == |s.flash|
  {
    if s.bits == ALL_SET then FlushStep(s) else s
  }

  function ByteStep(s: State, a: nat, value: nat): (r: State)
    requires WellFormed(s) && a < |s.flash|
    ensures WellFormed(r) && |r.flash| == |s.flash|
  {
    CollectIsWellFormed(RoomStep(s, a), a, value);
    FullStep(CollectStep(RoomStep(s, a), a, value))
  }

  function LockStep(s: State): (r: State)
    requires WellFormed(s)
    ensures WellFormed(r) && |r.flash| == |s.flash|
  {
    if s.bits != NONE_SET then FlushStep(s) else s
  }

  function EraseStep(s: State): (r: State)
    requires WellFormed(s)
    ensures WellFormed(r) && |r.flash| == |s.flash|
  {
    s.(flash := seq(|s.flash|, _ => 255))
  }

  datatype Put = Put(a: nat, value: nat)

  predicate InArea(size: nat, ps: seq<Put>) { forall i :: 0 <= i < |ps| ==> ps[i].a < size }

  function Puts(s: State, ps: seq<Put>): (r: State)
    requires WellFormed(s) && InArea(|s.flash|, ps)
    ensures WellFormed(r) && |r.flash| == |s.flash|
  {
    if ps == [] then s else ByteStep(Puts(s, ps[..|ps| - 1]), ps[|ps| - 1].a, ps[|ps| - 1].value)
  }

  /** Erase, write, lock. */
  function Session(s: State, ps: seq<Put>): State
    requires WellFormed(s) && InArea(|s.flash|, ps)
  {
    LockStep(Puts(EraseStep(s), ps))
  }

  // ---------------------------------------------------------------------
  // In ascending order
  // ---------------------------------------------------------------------

  /** The bytes accepted, the first address above them, and the first word above all in flash. */
  datatype Record = Record(written: map<nat, nat>, top: nat, front: nat)

  predicate Touched(written: map<nat, nat>, word: nat) { exists b :: b in written && Word(b) == word }

  /** What flash reads at `a`: in a word that has been flushed, zeros beside the bytes written. */
  function Expected(r: Record, a: nat): nat {
    if a >= r.front || !Touched(r.written, Word(a)) then 255
    else if a in r.written then r.written[a]
    else 0
  }

  predicate BitsAreAccepted(s: State, r: Record)
    requires WellFormed(s)
  {
    forall i :: 0 <= i < 8 && s.bits[i] ==>
      s.start + i < r.top && s.start + i in r.written && r.written[s.start + i] == s.shadow[i]
  }

  predicate Held(s: State, r: Record, a: nat)
    requires WellFormed(s)
  {
    a < |s.flash| && (a < r.front || (s.start != -1 && s.start <= a < s.start + 8 && s.bits[a - s.start]))
  }

  predicate AllHeld(s: State, r: Record)
    requires WellFormed(s)
  {
    forall a :: a in r.written ==> Held(s, r, a)
  }

  predicate Matches(s: State, r: Record) { forall a :: 0 <= a < |s.flash| ==> s.flash[a] == Expected(r, a) }

  predicate Tidy(s: State, r: Record) {
    && WellFormed(s) && r.front % 8 == 0 && r.front <= |s.flash| && (s.start != -1 ==> r.front == s.start)
    && BitsAreAccepted(s, r) && AllHeld(s, r) && Matches(s, r)
  }

  /** With the word at the front flushed. */
  function Passed(r: Record): Record { r.(front := r.front + 8) }

  lemma AboveIsErased(s: State, r: Record, a: nat)
    requires Matches(s, r) && r.front <= a < |s.flash|
    ensures s.flash[a] == 255
  {
    assert s.flash[a] == Expected(r, a);
  }

  lemma WordIsErased(flash: seq<nat>, word: nat)
    requires word + 8 <= |flash| && forall a :: word <= a < word + 8 ==> flash[a] == 255
    ensures flash[word..word + 8] == ERASED
  {
  }

  lemma CollectedWordIsErased(s: State, r: Record)
    requires WellFormed(s) && Matches(s, r) && s.start != -1 && r.front == s.start
    ensures s.flash[s.start..s.start + 8] == ERASED
  {
    forall a | s.start <= a < s.start + 8
      ensures s.flash[a] == 255
    {
      AboveIsErased(s, r, a);
    }
    WordIsErased(s.flash, s.start);
  }

  lemma FlushedByteIsExpected(s: State, r: Record, a: nat)
    requires Tidy(s, r) && s.start != -1 && a < |s.flash|
    ensures FlushStep(s).flash[a] == Expected(Passed(r), a)
  {
    CollectedWordIsErased(s, r);
    if s.start <= a < s.start + 8 {
      WordIs(s.start, a);
      WordIsTouched(s, r);
      assert a in r.written ==> Held(s, r, a);
      assert s.start + (a - s.start) == a;
    } else {
      assert s.flash[a] == Expected(r, a);
    }
  }

  lemma SomeBit(s: State) returns (i: nat)
    requires WellFormed(s) && s.start != -1
    ensures i < 8 && s.bits[i]
  {
    i :| 0 <= i < 8 && s.bits[i];
  }

  lemma WordIsTouched(s: State, r: Record)
    requires WellFormed(s) && s.start != -1 && BitsAreAccepted(s, r)
    ensures Touched(r.written, s.start) && s.start < r.top
  {
    var i := SomeBit(s);
    var a: nat := s.start + i;
    WordIs(s.start, a);
    assert a in r.written && Word(a) == s.start;
  }

  lemma FlushMatches(s: State, r: Record)
    requires Tidy(s, r) && s.start != -1
    ensures Matches(FlushStep(s), Passed(r))
  {
    forall a | 0 <= a < |s.flash|
      ensures FlushStep(s).flash[a] == Expected(Passed(r), a)
    {
      FlushedByteIsExpected(s, r, a);
    }
  }

  lemma FlushHolds(s: State, r: Record)
    requires Tidy(s, r) && s.start != -1
    ensures AllHeld(FlushStep(s), Passed(r))
  {
    forall a | a in r.written
      ensures Held(FlushStep(s), Passed(r), a)
    {
      assert Held(s, r, a);
    }
  }

  lemma FlushKeepsTidy(s: State, r: Record)
    requires Tidy(s, r) && s.start != -1
    ensures Tidy(FlushStep(s), Passed(r))
  {
    FlushMatches(s, r);
    FlushHolds(s, r);
  }

  lemma WaitedByteIsExpected(s: State, r: Record, front: nat, a: nat)
    requires Tidy(s, r) && s.start == -1 && r.front <= front && a < |s.flash|
    ensures s.flash[a] == Expected(r.(front := front), a)
  {
    assert s.flash[a] == Expected(r, a);
    if r.front <= a && Touched(r.written, Word(a)) {
      var b :| b in r.written && Word(b) == Word(a);
      assert Held(s, r, b);
      WordBelow(b, r.front);
      WordBelow(a, r.front);
    }
  }

  /** With nothing being collected the front may move up. */
  lemma AdvanceKeepsTidy(s: State, r: Record, front: nat)
    requires Tidy(s, r) && s.start == -1 && r.front <= front <= |s.flash| && front % 8 == 0
    ensures Tidy(s, r.(front := front))
  {
    var p := r.(front := front);
    assert Matches(s, p) by {
      forall a | 0 <= a < |s.flash|
        ensures s.flash[a] == Expected(p, a)
      {
        WaitedByteIsExpected(s, r, front, a);
      }
    }
    assert AllHeld(s, p) by {
      forall a | a in p.written
        ensures Held(s, p, a)
      {
        assert Held(s, r, a);
      }
    }
  }

  function Accepted(r: Record, a: nat, value: nat): Record { r.(written := r.written[a := value], top := a + 1) }

  /** The byte fits the word at the front, above all those accepted. */
  predicate Fitting(s: State, r: Record, a: nat) {
    Tidy(s, r) && a < |s.flash| && r.top <= a && r.front == Word(a) && (s.start == -1 || s.start == Word(a))
  }

  lemma CollectedByte(s: State, r: Record, w: nat, k: nat, value: nat, c: State, q: Record)
    requires WellFormed(s) && BitsAreAccepted(s, r) && k < 8 && r.top <= w + k && (s.start == -1 || s.start == w)
    requires WellFormed(c) && c.start == w && c.shadow == s.shadow[k := Or(s.shadow[k], value)] && c.bits == s.bits[k := true]
    requires q.top == w + k + 1 && q.written == r.written[w + k := value]
    ensures BitsAreAccepted(c, q)
  {
    assert s.bits[k] ==> s.start + k < r.top;
    OrWithZero(value);
    forall i | 0 <= i < 8 && c.bits[i]
      ensures w + i < q.top && w + i in q.written && q.written[w + i] == c.shadow[i]
    {
      if i != k {
        assert s.bits[i];
        assert s.start + i in r.written;
      }
    }
  }

  lemma CollectHolds(s: State, r: Record, a: nat, value: nat)
    requires Fitting(s, r, a) && WellFormed(CollectStep(s, a, value))
    ensures AllHeld(CollectStep(s, a, value), Accepted(r, a, value))
  {
    var c, q := CollectStep(s, a, value), Accepted(r, a, value);
    WordOf(a);
    forall b | b in q.written
      ensures Held(c, q, b)
    {
      assert b != a ==> Held(s, r, b);
    }
  }

  lemma CollectMatches(s: State, r: Record, a: nat, value: nat)
    requires Fitting(s, r, a)
    ensures Matches(CollectStep(s, a, value), Accepted(r, a, value))
  {
    var q := Accepted(r, a, value);
    forall b | 0 <= b < |s.flash|
      ensures s.flash[b] == Expected(q, b)
    {
      assert s.flash[b] == Expected(r, b);
      if b < r.front {
        OtherWordKept(r, a, value, b);
      }
    }
  }

  lemma OtherWordKept(r: Record, a: nat, value: nat, b: nat)
    requires r.front % 8 == 0 && r.front <= Word(a) && b < r.front
    ensures b in Accepted(r, a, value).written <==> b in r.written
    ensures Touched(Accepted(r, a, value).written, Word(b)) <==> Touched(r.written, Word(b))
  {
    WordBelow(b, r.front);
    WordOf(a);
    var q := Accepted(r, a, value);
    if Touched(r.written, Word(b)) {
      var x :| x in r.written && Word(x) == Word(b);
      assert x in q.written;
    }
    if Touched(q.written, Word(b)) {
      var x :| x in q.written && Word(x) == Word(b);
      assert x in r.written;
    }
  }

  lemma CollectKeepsTidy(s: State, r: Record, a: nat, value: nat)
    requires Fitting(s, r, a)
    ensures Tidy(CollectStep(s, a, value), Accepted(r, a, value))
  {
    WordOf(a);
    CollectIsWellFormed(s, a, value);
    CollectedByte(s, r, Word(a), a - Word(a), value, CollectStep(s, a, value), Accepted(r, a, value));
    CollectHolds(s, r, a, value);
    CollectMatches(s, r, a, value);
  }

  /** Between calls the front is not above the next ascending address. */
  predicate Rested(s: State, r: Record) { s.start == -1 ==> r.front <= r.top }

  lemma RoomIsFitting(s: State, r: Record, a: nat)
    requires Tidy(s, r) && Rested(s, r) && a < |s.flash| && r.top <= a
    ensures Fitting(RoomStep(s, a), r.(front := Word(a)), a)
  {
    WordOf(a);
    WordBelow(a, |s.flash|);
    WordBelow(a, r.front);
    if s.start == -1 {
      AdvanceKeepsTidy(s, r, Word(a));
    } else if s.start != Word(a) {
      WordIsTouched(s, r);
      FlushKeepsTidy(s, r);
      NextWord(s.start, a);
      AdvanceKeepsTidy(FlushStep(s), Passed(r), Word(a));
    } else {
      assert r == r.(front := Word(a));
    }
  }

  lemma NextWord(word: nat, a: nat)
    requires word % 8 == 0 && word <= a && word != Word(a)
    ensures word + 8 <= Word(a)
  {
  }

  /** What is known after byte `a`. */
  function Next(r: Record, a: nat, value: nat, after: State): Record {
    Accepted(r, a, value).(front := if after.start == -1 then Word(a) + 8 else Word(a))
  }

  lemma FullKeepsTidy(s: State, r: Record)
    requires Tidy(s, r) && s.start != -1
    ensures Tidy(FullStep(s), if FullStep(s).start == -1 then Passed(r) else r)
    ensures FullStep(s).start == -1 ==> s.start + 8 <= r.top
  {
    if s.bits == ALL_SET {
      assert s.bits[7];
      FlushKeepsTidy(s, r);
    }
  }

  lemma ByteKeepsTidy(s: State, r: Record, a: nat, value: nat)
    requires Tidy(s, r) && Rested(s, r) && a < |s.flash| && r.top <= a
    ensures Tidy(ByteStep(s, a, value), Next(r, a, value, ByteStep(s, a, value)))
    ensures Rested(ByteStep(s, a, value), Next(r, a, value, ByteStep(s, a, value)))
  {
    RoomIsFitting(s, r, a);
    var p, room := r.(front := Word(a)), RoomStep(s, a);
    CollectKeepsTidy(room, p, a, value);
    FullKeepsTidy(CollectStep(room, a, value), Accepted(p, a, value));
    NextIs(r, a, value, ByteStep(s, a, value));
  }

  lemma NextIs(r: Record, a: nat, value: nat, after: State)
    ensures var q := Accepted(r.(front := Word(a)), a, value);
      Next(r, a, value, after) == if after.start == -1 then Passed(q) else q
  {
  }

  // ---------------------------------------------------------------------
  // Whole sessions
  // ---------------------------------------------------------------------

  predicate Ascending(ps: seq<Put>) { forall i, j :: 0 <= i < j < |ps| ==> ps[i].a < ps[j].a }

  function Written(ps: seq<Put>): map<nat, nat> {
    if ps == [] then map[] else Written(ps[..|ps| - 1])[ps[|ps| - 1].a := ps[|ps| - 1].value]
  }

  function RecordOf(s: State, ps: seq<Put>): Record
    requires WellFormed(s) && InArea(|s.flash|, ps)
  {
    if ps == [] then Record(map[], 0, 0)
    else Next(RecordOf(s, ps[..|ps| - 1]), ps[|ps| - 1].a, ps[|ps| - 1].value, Puts(s, ps))
  }

  lemma {:induction false} RecordIs(s: State, ps: seq<Put>)
    requires WellFormed(s) && InArea(|s.flash|, ps)
    ensures RecordOf(s, ps).written == Written(ps)
    ensures RecordOf(s, ps).top == if ps == [] then 0 else ps[|ps| - 1].a + 1
  {
    if ps != [] {
      RecordIs(s, ps[..|ps| - 1]);
    }
  }

  lemma {:induction false} PutsAreTidy(s: State, ps: seq<Put>)
    requires WellFormed(s) && s.start == -1 && InArea(|s.flash|, ps) && Ascending(ps)
    requires forall a :: 0 <= a < |s.flash| ==> s.flash[a] == 255
    ensures Tidy(Puts(s, ps), RecordOf(s, ps)) && Rested(Puts(s, ps), RecordOf(s, ps))
  {
    if ps != [] {
      var before, p := ps[..|ps| - 1], ps[|ps| - 1];
      PutsAreTidy(s, before);
      RecordIs(s, before);
      ByteKeepsTidy(Puts(s, before), RecordOf(s, before), p.a, p.value);
    }
  }

  lemma SettledByte(s: State, r: Record, a: nat)
    requires Tidy(s, r) && s.start == -1 && a < |s.flash|
    ensures s.flash[a] == if a in r.written then r.written[a] else if Touched(r.written, Word(a)) then 0 else 255
  {
    assert s.flash[a] == Expected(r, a);
    assert a in r.written ==> Held(s, r, a) && Touched(r.written, Word(a));
    if Touched(r.written, Word(a)) {
      var b :| b in r.written && Word(b) == Word(a);
      assert Held(s, r, b);
      WordBelow(b, r.front);
      WordBelow(a, r.front);
    }
  }

  /** What is in flash after erasing, writing bytes in ascending order and locking: the bytes;
      zeros beside them in their words; and blank words elsewhere. */
  lemma SessionStores(s: State, ps: seq<Put>, a: nat)
    requires WellFormed(s) && s.start == -1 && InArea(|s.flash|, ps) && Ascending(ps) && a < |s.flash|
    ensures Session(s, ps).start == -1
    ensures Session(s, ps).flash[a] ==
      if a in Written(ps) then Written(ps)[a] else if Touched(Written(ps), Word(a)) then 0 else 255
  {
    var e := EraseStep(s);
    PutsAreTidy(e, ps);
    RecordIs(e, ps);
    var p, r := Puts(e, ps), RecordOf(e, ps);
    if p.start != -1 {
      FlushKeepsTidy(p, r);
      SettledByte(FlushStep(p), Passed(r), a);
    } else {
      SettledByte(p, r, a);
    }
  }

  // ---------------------------------------------------------------------
  // The writer itself, in place
  // ---------------------------------------------------------------------

  class Coalescer {
    const flash: array<nat>
    var shadowStart: int
    var shadow: seq<nat>
    var shadowBits: seq<bool>

    ghost function View(): State
      reads this, flash
    {
      State(flash[..], shadowStart, shadow, shadowBits)
    }

    ghost predicate Valid()
      reads this, flash
    {
      WellFormed(View())
    }

    constructor (size: nat)
      requires size % 8 == 0
      ensures Valid() && flash.Length == size && fresh(flash) && shadowStart == -1
    {
      flash := new nat[size];
      shadowStart, shadow, shadowBits := -1, ZEROS, NONE_SET;
    }

    method Erase()
      requires Valid()
      modifies flash
      ensures Valid() && View() == EraseStep(old(View()))
    {
      forall a | 0 <= a < flash.Length {
        flash[a] := 255;
      }
      assert flash[..] == seq(flash.Length, _ => 255);
    }

    method ProgramWord()
      requires Valid() && shadowStart != -1
      modifies flash
      ensures flash[..] == Programmed(old(flash[..]), shadowStart, shadow)
    {
      if flash[shadowStart..shadowStart + 8] == ERASED {
        var word := shadowStart;
        forall a | word <= a < word + 8 {
          flash[a] := shadow[a - word];
        }
      }
    }

    method FlushWord()
      requires Valid() && shadowStart != -1
      modifies this, flash
      ensures Valid() && View() == FlushStep(old(View()))
    {
      ProgramWord();
      shadowStart, shadow, shadowBits := -1, ZEROS, NONE_SET;
    }

    /** A word that another byte does not belong to goes out first. */
    method MakeRoom(a: nat)
      requires Valid()
      modifies this, flash
      ensures Valid() && View() == RoomStep(old(View()), a)
    {
      if Word(a) != shadowStart && shadowStart != -1 {
        FlushWord();
      }
    }

    /** ORs a byte into the shadow, and flushes a word that is complete. */
    method Collect(a: nat, value: nat)
      requires Valid() && WellFormed(CollectStep(View(), a, value))
      modifies this, flash
      ensures Valid() && View() == FullStep(CollectStep(old(View()), a, value))
    {
      var k := a - Word(a);
      shadowStart := Word(a);
      shadow := shadow[k := Or(shadow[k], value)];
      shadowBits := shadowBits[k := true];
      assert View() == CollectStep(old(View()), a, value);
      if shadowBits == ALL_SET {
        FlushWord();
      }
    }

    method ProgramByte(a: nat, value: nat)
      requires Valid() && a < flash.Length
      modifies this, flash
      ensures Valid() && View() == ByteStep(old(View()), a, value)
    {
      MakeRoom(a);
      CollectIsWellFormed(View(), a, value);
      Collect(a, value);
    }

    method Lock()
      requires Valid()
      modifies this, flash
      ensures Valid() && View() == LockStep(old(View()))
    {
      if shadowBits != NONE_SET {
        FlushWord();
      }
    }
  }
}
