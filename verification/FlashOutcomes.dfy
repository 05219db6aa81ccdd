/** Which words the bootloader's writer programs, when they reach flash, and what it refuses. */
module FlashOutcomes {
  import opened DoubleWord
  import opened FlashWriter

  // ---------------------------------------------------------------------
  // Refusals
  // ---------------------------------------------------------------------

  /** Inside the 512 KiB from 0x08000000 on, and outside the bootloader's 16 KiB from 0x0800c000 on. */
  predicate Allows(address: nat) { 0x0800_0000 <= address < 0x0808_0000 && !(0x0800_c000 <= address < 0x0801_0000) }

  /** A byte is refused outright, with nothing asked of the hardware, if and only if the writer is
      locked or the address is not allowed; any other failure is one of the hardware. */
  lemma RefusedIff(s: State, address: nat, value: nat, f: Faults)
    requires WellFormed(s)
    ensures var o := PutStep(s, Put(address - BASE, value, f));
      && (!o.ok && o.ops == [] <==> s.locked || !Allows(address))
      && (s.locked || !Allows(address) ==> o.state == s)
      && (!o.ok && o.ops != [] ==> f.erase || o.ops[|o.ops| - 1].Program?)
  {
    if !s.locked && Allows(address) {
      var a := address - BASE;
      var room := RoomStep(s, a, f);
      if s.start != -1 {
        FlushAsks(s, f);
      }
      if room.ok {
        CollectIsWellFormed(room.state, a, value);
        FlushAsks(CollectStep(room.state, a, value), f);
      }
    }
  }

  lemma FlushAsks(s: State, f: Faults)
    requires WellFormed(s) && s.start != -1
    ensures var o := FlushStep(s, f); !o.ok ==> o.ops != [] && (f.erase || o.ops[|o.ops| - 1].Program?)
  {
  }

  // ---------------------------------------------------------------------
  // What is programmed
  // ---------------------------------------------------------------------

  predicate Aligned(w: nat) { w % 8 == 0 && w + 8 <= SIZE }

  predicate Blank(flash: seq<nat>, w: nat)
    requires |flash| == SIZE && Aligned(w)
  {
    flash[w..w + 8] == ERASED
  }

  predicate Erasing(s: State, w: nat)
    requires WellFormed(s) && Aligned(w)
  {
    s.erased[Sector(w)]
  }

  /** In the erased sectors exactly the words that are not blank have been programmed, and none in
      the others. */
  ghost predicate Marked(s: State, ops: seq<Op>)
    requires WellFormed(s)
  {
    forall w: nat :: Aligned(w) ==> (Program(w) in ops <==> Erasing(s, w) && !Blank(s.flash, w))
  }

  lemma EraseMarks(s: State, ops: seq<Op>)
    requires WellFormed(s) && s.start != -1 && Marked(s, ops)
    ensures Marked(EraseStep(s), ops + if s.erased[Sector(s.start)] then [] else [Erase(Sector(s.start))])
  {
    var e := EraseStep(s);
    var more := if s.erased[Sector(s.start)] then [] else [Erase(Sector(s.start))];
    forall w: nat | Aligned(w)
      ensures Program(w) in ops + more <==> Erasing(e, w) && !Blank(e.flash, w)
    {
      if s.erased[Sector(s.start)] {
        assert ops + more == ops;
      } else {
        ErasedWord(s, w);
      }
    }
  }

  lemma ErasedWord(s: State, w: nat)
    requires WellFormed(s) && s.start != -1 && !s.erased[Sector(s.start)] && Aligned(w)
    ensures Sector(w) == Sector(s.start) ==> Blank(EraseStep(s).flash, w)
    ensures Sector(w) != Sector(s.start) ==> Blank(EraseStep(s).flash, w) == Blank(s.flash, w)
  {
    var e := EraseStep(s);
    forall a | w <= a < w + 8
      ensures e.flash[a] == if Sector(w) == Sector(s.start) then 255 else s.flash[a]
    {
      WordInSector(w, a);
    }
    if Sector(w) != Sector(s.start) {
      SameWord(e.flash, s.flash, w);
    }
  }

  lemma SameWord(x: seq<nat>, y: seq<nat>, w: nat)
    requires w + 8 <= |x| && w + 8 <= |y| && forall a :: w <= a < w + 8 ==> x[a] == y[a]
    ensures x[w..w + 8] == y[w..w + 8]
  {
  }

  lemma ProgramMarks(s: State, fault: bool, ops: seq<Op>)
    requires WellFormed(s) && s.start != -1 && s.erased[Sector(s.start)] && Marked(s, ops) && ProgramStep(s, fault).ok
    ensures Marked(ProgramStep(s, fault).state, ops + ProgramStep(s, fault).ops)
  {
    var o := ProgramStep(s, fault);
    var start: nat := s.start;
    forall w: nat | Aligned(w)
      ensures Program(w) in ops + o.ops <==> Erasing(o.state, w) && !Blank(o.state.flash, w)
    {
      if w == start {
        assert Aligned(start);
        StartMarked(s, fault);
      } else {
        OtherWord(s, fault, w);
        assert Program(w) in ops + o.ops <==> Program(w) in ops;
      }
    }
  }

  lemma StartMarked(s: State, fault: bool)
    requires WellFormed(s) && s.start != -1 && ProgramStep(s, fault).ok
    ensures var o := ProgramStep(s, fault); var current := s.flash[s.start..s.start + 8];
      && o.ops == (if current == s.shadow then [] else [Program(s.start)])
      && (current == s.shadow ==> o.state.flash == s.flash)
      && (current != s.shadow ==> Blank(s.flash, s.start) && !Blank(o.state.flash, s.start))
  {
    var current := s.flash[s.start..s.start + 8];
    if current != s.shadow {
      TakesWord(s.flash, s.start, s.shadow);
    }
  }

  lemma TakesWord(flash: seq<nat>, w: nat, bytes: seq<nat>)
    requires |bytes| == 8 && w + 8 <= |flash|
    ensures Programmed(flash, w, bytes)[w..w + 8] == bytes
  {
  }

  lemma OtherWord(s: State, fault: bool, w: nat)
    requires WellFormed(s) && s.start != -1 && Aligned(w) && w != s.start
    ensures Blank(ProgramStep(s, fault).state.flash, w) == Blank(s.flash, w)
    ensures Program(w) !in ProgramStep(s, fault).ops
  {
    Apart(s.start, w);
    var o := ProgramStep(s, fault);
    SameWord(o.state.flash, s.flash, w);
  }

  lemma Apart(v: nat, w: nat)
    requires v % 8 == 0 && w % 8 == 0 && v != w
    ensures v + 8 <= w || w + 8 <= v
  {
  }

  lemma FlushMarks(s: State, f: Faults, ops: seq<Op>)
    requires WellFormed(s) && s.start != -1 && Marked(s, ops) && FlushStep(s, f).ok
    ensures Marked(FlushStep(s, f).state, ops + FlushStep(s, f).ops)
  {
    var more := if s.erased[Sector(s.start)] then [] else [Erase(Sector(s.start))];
    var e := EraseStep(s);
    EraseMarks(s, ops);
    ProgramMarks(e, f.program, ops + more);
    Associates(ops, more, ProgramStep(e, f.program).ops);
  }

  lemma Unmoved(s: State, t: State, ops: seq<Op>)
    requires WellFormed(s) && WellFormed(t) && s.flash == t.flash && s.erased == t.erased && Marked(s, ops)
    ensures Marked(t, ops)
  {
    forall w: nat | Aligned(w)
      ensures Program(w) in ops <==> Erasing(t, w) && !Blank(t.flash, w)
    {
      assert Erasing(t, w) == Erasing(s, w);
    }
  }

  lemma ByteMarks(s: State, a: nat, value: nat, f: Faults, ops: seq<Op>)
    requires WellFormed(s) && a < SIZE && !Protected(a) && Marked(s, ops) && ByteStep(s, a, value, f).ok
    ensures Marked(ByteStep(s, a, value, f).state, ops + ByteStep(s, a, value, f).ops)
  {
    var room := RoomStep(s, a, f);
    if s.start != -1 && s.start != Word(a) {
      FlushMarks(s, f, ops);
    } else {
      assert ops + room.ops == ops;
    }
    CollectIsWellFormed(room.state, a, value);
    var c := CollectStep(room.state, a, value);
    Unmoved(room.state, c, ops + room.ops);
    var full := FullStep(c, f);
    if c.bits == ALL_SET {
      FlushMarks(c, f, ops + room.ops);
    }
    assert full.ops == [] ==> ops + room.ops + full.ops == ops + room.ops;
    Associates(ops, room.ops, full.ops);
  }

  lemma {:induction false} PutsMark(s: State, ps: seq<Put>)
    requires WellFormed(s) && Marked(s, []) && Puts(s, ps).ok
    ensures Marked(Puts(s, ps).state, Puts(s, ps).ops)
  {
    if ps != [] {
      var before, p := Puts(s, ps[..|ps| - 1]), ps[|ps| - 1];
      PutsMark(s, ps[..|ps| - 1]);
      ByteMarks(before.state, p.a, p.value, p.faults, before.ops);
    }
  }

  /** Whatever bytes in whatever order: an update that succeeds has programmed exactly those words
      of the sectors it erased that are not blank afterwards. */
  lemma WordsProgrammed(s: State, ps: seq<Put>, f: Faults)
    requires WellFormed(s) && Session(s, ps, f).ok
    ensures Marked(Session(s, ps, f).state, Session(s, ps, f).ops)
  {
    var u := UnlockStep(s);
    assert Marked(u, []) by {
      forall w: nat | Aligned(w)
        ensures !Erasing(u, w)
      {
      }
    }
    PutsMark(u, ps);
    var w := Puts(u, ps);
    if w.state.bits != NONE_SET {
      FlushMarks(w.state, f, w.ops);
      Unmoved(FlushStep(w.state, f).state, LockStep(w.state, f).state, w.ops + FlushStep(w.state, f).ops);
    } else {
      assert w.ops + [] == w.ops;
      Unmoved(w.state, LockStep(w.state, f).state, w.ops);
    }
  }

  // ---------------------------------------------------------------------
  // When words reach flash
  // ---------------------------------------------------------------------

  lemma {:induction false} NeverLeftFull(s: State, ps: seq<Put>)
    requires WellFormed(s) && s.bits != ALL_SET && Puts(s, ps).ok
    ensures Puts(s, ps).state.bits != ALL_SET
  {
    if ps != [] {
      NeverLeftFull(s, ps[..|ps| - 1]);
    }
  }

  lemma AllBits(bits: seq<bool>)
    requires |bits| == 8 && forall i :: 0 <= i < 8 ==> bits[i]
    ensures bits == ALL_SET
  {
  }

  /** A word whose eight bytes have all been accepted is in flash at once, before any other byte or
      the lock. */
  lemma FullWordIsInFlash(s: State, ps: seq<Put>, a: nat)
    requires Ready(s) && Ascending(ps) && Puts(s, ps).ok && AllWritable(ps)
    requires a < SIZE && forall b: nat :: Word(b) == Word(a) ==> b in Written(ps)
    ensures Puts(s, ps).state.flash[a] == Written(ps)[a]
  {
    var o, r := Puts(s, ps), RecordOf(s, ps);
    PutsAreTidy(s, ps);
    RecordIs(s, ps);
    NeverLeftFull(s, ps);
    WordOf(a);
    assert a in r.written;
    assert Held(o.state, r, a);
    if o.state.start != -1 && o.state.start <= a < o.state.start + 8 {
      WordIs(o.state.start, a);
      forall i | 0 <= i < 8
        ensures o.state.bits[i]
      {
        WordIs(o.state.start, o.state.start + i);
        assert Held(o.state, r, o.state.start + i);
      }
      AllBits(o.state.bits);
      assert false;
    }
    assert o.state.flash[a] == Expected(r, o.state.erased, a);
  }
}
