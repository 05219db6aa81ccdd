/** When words reach the flash of the configuration store, and which words they never reach. */
module CoalescerOutcomes {
  import opened DoubleWord
  import opened FlashCoalescer

  /** A word of flash that cannot be programmed. */
  predicate Used(flash: seq<nat>, w: nat) { w % 8 == 0 && w + 8 <= |flash| && flash[w..w + 8] != ERASED }

  lemma FlushSpares(s: State, w: nat)
    requires WellFormed(s) && s.start != -1 && Used(s.flash, w)
    ensures FlushStep(s).flash[w..w + 8] == s.flash[w..w + 8]
  {
    if w != s.start {
      var start: nat := s.start;
      Apart(start, w);
      SameWord(FlushStep(s).flash, s.flash, w);
    }
  }

  lemma Apart(v: nat, w: nat)
    requires v % 8 == 0 && w % 8 == 0 && v != w
    ensures v + 8 <= w || w + 8 <= v
  {
  }

  lemma SameWord(x: seq<nat>, y: seq<nat>, w: nat)
    requires w + 8 <= |x| && w + 8 <= |y| && forall a :: w <= a < w + 8 ==> x[a] == y[a]
    ensures x[w..w + 8] == y[w..w + 8]
  {
  }

  lemma ByteSpares(s: State, a: nat, value: nat, w: nat)
    requires WellFormed(s) && a < |s.flash| && Used(s.flash, w)
    ensures ByteStep(s, a, value).flash[w..w + 8] == s.flash[w..w + 8]
  {
    if s.start != -1 {
      FlushSpares(s, w);
    }
    var room := RoomStep(s, a);
    CollectIsWellFormed(room, a, value);
    FlushSpares(CollectStep(room, a, value), w);
  }

  /** Without an erasure before it, nothing that is written reaches a word that is not blank: such
      a word stays as it is, whatever bytes come, and no failure is reported. */
  lemma {:induction false} UsedWordsAreSpared(s: State, ps: seq<Put>, w: nat)
    requires WellFormed(s) && InArea(|s.flash|, ps) && Used(s.flash, w)
    ensures Puts(s, ps).flash[w..w + 8] == LockStep(Puts(s, ps)).flash[w..w + 8] == s.flash[w..w + 8]
  {
    if ps != [] {
      var p := ps[|ps| - 1];
      UsedWordsAreSpared(s, ps[..|ps| - 1], w);
      ByteSpares(Puts(s, ps[..|ps| - 1]), p.a, p.value, w);
    }
    if Puts(s, ps).start != -1 {
      FlushSpares(Puts(s, ps), w);
    }
  }

  lemma {:induction false} NeverLeftFull(s: State, ps: seq<Put>)
    requires WellFormed(s) && InArea(|s.flash|, ps) && s.bits != ALL_SET
    ensures Puts(s, ps).bits != ALL_SET
  {
    if ps != [] {
      NeverLeftFull(s, ps[..|ps| - 1]);
    }
  }

  lemma AllBits(bits: seq<bool>)
    requires |bits| == 8 && forall i :: 0 <= i < 8 ==> bits[i]
    ensures bits == ALL_SET
  {
  }

  /** A word whose eight bytes have all been written is in flash at once. */
  lemma FullWordIsInFlash(s: State, ps: seq<Put>, a: nat)
    requires WellFormed(s) && s.start == -1 && InArea(|s.flash|, ps) && Ascending(ps) && a < |s.flash|
    requires forall b :: 0 <= b < |s.flash| ==> s.flash[b] == 255
    requires forall b: nat :: Word(b) == Word(a) ==> b in Written(ps)
    ensures Puts(s, ps).flash[a] == Written(ps)[a]
  {
    var t, r := Puts(s, ps), RecordOf(s, ps);
    PutsAreTidy(s, ps);
    RecordIs(s, ps);
    NeverLeftFull(s, ps);
    WordOf(a);
    assert a in r.written;
    assert Held(t, r, a);
    if t.start != -1 && t.start <= a < t.start + 8 {
      WordIs(t.start, a);
      forall i | 0 <= i < 8
        ensures t.bits[i]
      {
        WordIs(t.start, t.start + i);
        assert Held(t, r, t.start + i);
      }
      AllBits(t.bits);
      assert false;
    }
    assert t.flash[a] == Expected(r, a);
  }
}
