/** The bootloader's flash writer: bytes are collected into double-words, sectors are erased
    when first touched.

    Addresses inside the module are offsets into the 512 KiB of flash; the 64-bit shadow is
    kept as its eight bytes and its mask as eight flags. An erased byte reads 255, and the
    hardware refuses to program a double-word that is not erased. */
module FlashWriter {
  import opened DoubleWord

  const SIZE: nat := 0x8_0000
  const SECTORS: nat := 256
  const BASE: nat := 0x0800_0000
  const PROTECTED_START: nat := 0xc000
  const PROTECTED_END: nat := 0x1_0000

  /** What the hardware is asked to do; `Blocked` is an erase that fails. */
  datatype Op = Erase(sector: nat) | Blocked(sector: nat) | Program(word: nat)

  function Sector(a: nat): nat { a / 2048 }

  predicate Protected(a: nat) { PROTECTED_START <= a < PROTECTED_END }

  /** Sectors are erased once and before anything in them is programmed, words programmed once. */
  predicate Disciplined(log: seq<Op>) {
    log == [] ||
    (Disciplined(log[..|log| - 1]) && Allowed(log[..|log| - 1], log[|log| - 1]))
  }

  predicate Allowed(log: seq<Op>, op: Op) {
    match op
    case Erase(s) => Erase(s) !in log && forall i :: 0 <= i < |log| && log[i].Program? ==> Sector(log[i].word) != s
    case Blocked(s) => Erase(s) !in log
    case Program(w) => Erase(Sector(w)) in log && Program(w) !in log
  }

  lemma DisciplinedAppend(log: seq<Op>, op: Op)
    requires Disciplined(log) && Allowed(log, op)
    ensures Disciplined(log + [op])
  {
    assert (log + [op])[..|log|] == log;
  }

  /** What discipline means for a whole log: no operation is carried out twice, every program
      operation comes after the erasure of its sector, and no erase is tried after it. */
  lemma {:induction false} DisciplinedMeans(log: seq<Op>, i: nat, j: nat)
    requires Disciplined(log) && i < j < |log|
    ensures !log[i].Blocked? ==> log[i] != log[j]
    ensures log[i].Erase? && log[j].Blocked? ==> log[i].sector != log[j].sector
    ensures log[i].Program? && log[j].Erase? ==> Sector(log[i].word) != log[j].sector
    ensures log[j].Program? ==> Erase(Sector(log[j].word)) in log[..j]
  {
    var n := |log| - 1;
    if j == n {
      assert log[..n][i] == log[i];
    } else {
      DisciplinedMeans(log[..n], i, j);
      assert log[..n][..j] == log[..j];
    }
  }

  /** The firmware finds the sector by bank; the banks follow each other. */
  lemma SectorByBank(a: nat)
    requires a < SIZE
    ensures Sector(a) == if a < 0x4_0000 then a / 2048 else 128 + (a - 0x4_0000) / 2048
    ensures Sector(a) < SECTORS && Sector(Word(a)) == Sector(a)
  {
  }

  lemma WordInSector(word: nat, a: nat)
    requires word % 8 == 0 && word <= a < word + 8
    ensures Sector(a) == Sector(word) && Protected(a) == Protected(word)
  {
    var k, q := word / 8, word / 2048;
    assert word == 8 * k && word - 2048 * q == 8 * (k - 256 * q);
    SectorIs(a, q);
  }

  lemma SectorIs(a: nat, q: nat)
    requires 2048 * q <= a < 2048 * q + 2048
    ensures Sector(a) == q
  {
  }

  lemma ProtectedBySector(a: nat, b: nat)
    requires Protected(a) && !Protected(b)
    ensures Sector(a) != Sector(b)
  {
  }

  // The steps of the writer.

  /** Which of the hardware operations of a call go wrong. */
  datatype Faults = Faults(erase: bool, program: bool)

  datatype State = State(
    flash: seq<nat>,
    erased: seq<bool>,     // by sector, since Unlock
    locked: bool,
    start: int,            // word being collected, -1 for none
    shadow: seq<nat>,
    bits: seq<bool>)

  /** Unset bytes of the shadow all hold `fill`. */
  predicate Padded(s: State, fill: nat)
    requires |s.shadow| == 8 && |s.bits| == 8
  {
    forall i :: 0 <= i < 8 && !s.bits[i] ==> s.shadow[i] == fill
  }

  predicate WellFormed(s: State) {
    && |s.flash| == SIZE && |s.erased| == SECTORS && |s.shadow| == 8 && |s.bits| == 8
    && (s.start == -1 || (0 <= s.start <= SIZE - 8 && s.start % 8 == 0 && !Protected(s.start)))
    && (s.start == -1 <==> s.bits == NONE_SET)
    && (Padded(s, 0) || Padded(s, 255))
  }

  /** State after a call, whether it succeeded, and what the hardware was asked to do. */
  datatype Outcome = Outcome(state: State, ok: bool, ops: seq<Op>)

  function Erased(flash: seq<nat>, sector: nat): seq<nat> {
    seq(|flash|, a requires 0 <= a < |flash| => if Sector(a) == sector then 255 else flash[a])
  }

  function Programmed(flash: seq<nat>, word: nat, bytes: seq<nat>): seq<nat>
    requires |bytes| == 8
  {
    seq(|flash|, a requires 0 <= a < |flash| => if word <= a < word + 8 then bytes[a - word] else flash[a])
  }

  function EraseStep(s: State): (r: State)
    requires WellFormed(s) && s.start != -1
    ensures WellFormed(r) && r.start == s.start && r.erased[Sector(s.start)]
  {
    var sector := Sector(s.start);
    if s.erased[sector] then s else s.(flash := Erased(s.flash, sector), erased := s.erased[sector := true])
  }

  function ProgramStep(s: State, fault: bool): (o: Outcome)
    requires WellFormed(s) && s.start != -1
    ensures WellFormed(o.state) && o.state.start == -1
  {
    var current := s.flash[s.start..s.start + 8];
    var same := current == s.shadow;
    assert Padded(State(s.flash, s.erased, s.locked, -1, ERASED, NONE_SET), 255);
    var done := current == ERASED && !fault;
    Outcome(s.(flash := if !same && done then Programmed(s.flash, s.start, s.shadow) else s.flash,
               start := -1, shadow := ERASED, bits := NONE_SET),
            same || done,
            if same then [] else [Program(s.start)])
  }

  function FlushStep(s: State, f: Faults): (o: Outcome)
    requires WellFormed(s) && s.start != -1
    ensures WellFormed(o.state) && o.state.locked == s.locked && (o.ok ==> o.state.start == -1)
  {
    var sector := Sector(s.start);
    if !s.erased[sector] && f.erase then Outcome(s, false, [Blocked(sector)])
    else
      var o := ProgramStep(EraseStep(s), f.program);
      Outcome(o.state, o.ok, (if s.erased[sector] then [] else [Erase(sector)]) + o.ops)
  }

  function CollectStep(s: State, a: nat, value: nat): State
    requires |s.shadow| == 8 && |s.bits| == 8
  {
    s.(start := Word(a), shadow := s.shadow[a - Word(a) := value], bits := s.bits[a - Word(a) := true])
  }

  /** Makes room for a byte of another word. */
  function RoomStep(s: State, a: nat, f: Faults): (o: Outcome)
    requires WellFormed(s)
    ensures WellFormed(o.state) && o.state.locked == s.locked
    ensures o.ok ==> o.state.start == -1 || o.state.start == Word(a)
  {
    if s.start != -1 && s.start != Word(a) then FlushStep(s, f) else Outcome(s, true, [])
  }

  /** A word that is complete goes out at once. */
  function FullStep(s: State, f: Faults): (o: Outcome)
    requires WellFormed(s)
    ensures WellFormed(o.state) && o.state.locked == s.locked
  {
    if s.bits == ALL_SET then FlushStep(s, f) else Outcome(s, true, [])
  }

  function ByteStep(s: State, a: nat, value: nat, f: Faults): (o: Outcome)
    requires WellFormed(s) && a < SIZE && !Protected(a)
    ensures WellFormed(o.state) && o.state.locked == s.locked
  {
    var room := RoomStep(s, a, f);
    if !room.ok then room
    else
      CollectIsWellFormed(room.state, a, value);
      var full := FullStep(CollectStep(room.state, a, value), f);
      Outcome(full.state, full.ok, room.ops + full.ops)
  }

  lemma CollectIsWellFormed(s: State, a: nat, value: nat)
    requires WellFormed(s) && a < SIZE && !Protected(a) && (s.start == -1 || s.start == Word(a))
    ensures WellFormed(CollectStep(s, a, value))
  {
    WordInSector(Word(a), a);
    var c := CollectStep(s, a, value);
    assert c.bits[a - Word(a)];
    if Padded(s, 0) {
      assert Padded(c, 0);
    } else {
      assert Padded(c, 255);
    }
  }

  function UnlockStep(s: State): (r: State)
    requires WellFormed(s)
    ensures WellFormed(r)
  {
    s.(erased := seq(SECTORS, _ => false), locked := false)
  }

  function LockStep(s: State, f: Faults): (o: Outcome)
    requires WellFormed(s)
    ensures WellFormed(o.state)
  {
    if s.locked then Outcome(s, true, [])
    else
      var flushed := if s.bits != NONE_SET then FlushStep(s, f) else Outcome(s, true, []);
      if flushed.ok then flushed.(state := flushed.state.(locked := true)) else flushed
  }

  /** A byte of a write command; its place may be any, outside of flash too. */
  datatype Put = Put(a: int, value: nat, faults: Faults)

  function PutStep(s: State, p: Put): (o: Outcome)
    requires WellFormed(s)
    ensures WellFormed(o.state) && o.state.locked == s.locked
  {
    if s.locked || !Writable(p.a) then Outcome(s, false, [])
    else ByteStep(s, p.a, p.value, p.faults)
  }

  /** The place is in flash and outside the bootloader. */
  predicate Writable(a: int) {
    0 <= a < SIZE && !Protected(a)
  }

  /** Bytes one after the other until one fails. */
  function Puts(s: State, ps: seq<Put>): (o: Outcome)
    requires WellFormed(s)
    ensures WellFormed(o.state) && o.state.locked == s.locked
  {
    if ps == [] then Outcome(s, true, [])
    else
      var before := Puts(s, ps[..|ps| - 1]);
      if !before.ok then before
      else
        var o := PutStep(before.state, ps[|ps| - 1]);
        Outcome(o.state, o.ok, before.ops + o.ops)
  }

  /** An update: unlock, bytes, lock; given up at the first failure. */
  function Session(s: State, ps: seq<Put>, f: Faults): Outcome
    requires WellFormed(s)
  {
    var w := Puts(UnlockStep(s), ps);
    if !w.ok then w
    else
      var o := LockStep(w.state, f);
      Outcome(o.state, o.ok, w.ops + o.ops)
  }

  // In any order of calls.

  datatype Call = Unlock | Lock(faults: Faults) | Write(put: Put)

  function Apply(s: State, c: Call): (o: Outcome)
    requires WellFormed(s)
    ensures WellFormed(o.state)
  {
    match c
    case Unlock => Outcome(UnlockStep(s), true, [])
    case Lock(f) => LockStep(s, f)
    case Write(p) => PutStep(s, p)
  }

  function After(s: State, calls: seq<Call>): (r: State)
    requires WellFormed(s)
    ensures WellFormed(r)
  {
    if calls == [] then s else Apply(After(s, calls[..|calls| - 1]), calls[|calls| - 1]).state
  }

  /** What the hardware was asked to do since the last Unlock. */
  function SinceUnlock(s: State, calls: seq<Call>): seq<Op>
    requires WellFormed(s)
  {
    if calls == [] || calls[|calls| - 1].Unlock? then []
    else
      var before := calls[..|calls| - 1];
      SinceUnlock(s, before) + Apply(After(s, before), calls[|calls| - 1]).ops
  }

  lemma FlushKeepsProtected(s: State, f: Faults, a: nat)
    requires WellFormed(s) && s.start != -1 && Protected(a)
    ensures FlushStep(s, f).state.flash[a] == s.flash[a]
  {
    ProtectedBySector(a, s.start);
    assert EraseStep(s).flash[a] == s.flash[a];
    ProgramKeepsOthers(EraseStep(s), f.program, a);
  }

  lemma ProgramKeepsOthers(s: State, fault: bool, a: nat)
    requires WellFormed(s) && s.start != -1 && a < SIZE && Sector(a) != Sector(s.start)
    ensures ProgramStep(s, fault).state.flash[a] == s.flash[a]
  {
    var w: nat := s.start;
    if w <= a < w + 8 {
      WordInSector(w, a);
    }
    assert Programmed(s.flash, w, s.shadow)[a] == s.flash[a];
  }

  lemma ApplyKeepsProtected(s: State, c: Call, a: nat)
    requires WellFormed(s) && Protected(a)
    ensures Apply(s, c).state.flash[a] == s.flash[a]
  {
    if s.start != -1 {
      if c.Lock? {
        FlushKeepsProtected(s, c.faults, a);
      } else if c.Write? {
        FlushKeepsProtected(s, c.put.faults, a);
      }
    }
    if c.Write? && !s.locked && Writable(c.put.a) {
      ByteKeepsProtected(s, c.put.a, c.put.value, c.put.faults, a);
    }
  }

  lemma ByteKeepsProtected(s: State, a: nat, value: nat, f: Faults, p: nat)
    requires WellFormed(s) && a < SIZE && !Protected(a) && Protected(p)
    ensures ByteStep(s, a, value, f).state.flash[p] == s.flash[p]
  {
    if s.start != -1 {
      FlushKeepsProtected(s, f, p);
    }
    var room := RoomStep(s, a, f);
    if room.ok {
      CollectIsWellFormed(room.state, a, value);
      FlushKeepsProtected(CollectStep(room.state, a, value), f, p);
    }
  }

  /** The bootloader's own range never changes, whatever is called in whatever order. */
  lemma {:induction false} ProtectedNeverChanges(s: State, calls: seq<Call>, a: nat)
    requires WellFormed(s) && Protected(a)
    ensures After(s, calls).flash[a] == s.flash[a]
  {
    if calls != [] {
      var n := |calls| - 1;
      ProtectedNeverChanges(s, calls[..n], a);
      ApplyKeepsProtected(After(s, calls[..n]), calls[n], a);
    }
  }

  /** No sector is erased twice, and none before something in it is programmed. */
  predicate ErasedFirst(log: seq<Op>) {
    log == [] ||
    (ErasedFirst(log[..|log| - 1]) && Fits(log[..|log| - 1], log[|log| - 1]))
  }

  predicate Fits(log: seq<Op>, op: Op) {
    match op
    case Erase(s) => op !in log
    case Blocked(s) => Erase(s) !in log
    case Program(w) => Erase(Sector(w)) in log
  }

  lemma ErasedFirstAppend(log: seq<Op>, op: Op)
    requires ErasedFirst(log) && Fits(log, op)
    ensures ErasedFirst(log + [op])
  {
    assert (log + [op])[..|log|] == log;
  }

  lemma {:induction false} ErasedFirstMeans(log: seq<Op>, i: nat, j: nat)
    requires ErasedFirst(log) && i < j < |log|
    ensures log[i].Erase? ==> log[j] != log[i] && log[j] != Blocked(log[i].sector)
    ensures log[i].Program? && log[j].Erase? ==> Sector(log[i].word) != log[j].sector
    ensures log[j].Program? ==> Erase(Sector(log[j].word)) in log[..j]
  {
    var n := |log| - 1;
    if j == n {
      assert log[..n][i] == log[i];
      if log[i].Program? {
        ErasedBefore(log[..n], i);
      }
    } else {
      ErasedFirstMeans(log[..n], i, j);
      assert log[..n][..j] == log[..j];
    }
  }

  lemma {:induction false} ErasedBefore(log: seq<Op>, i: nat)
    requires ErasedFirst(log) && i < |log| && log[i].Program?
    ensures Erase(Sector(log[i].word)) in log
  {
    var n := |log| - 1;
    if i < n {
      ErasedBefore(log[..n], i);
    }
  }

  /** The erased flags say which sectors have been erased. */
  predicate Flagged(erased: seq<bool>, log: seq<Op>)
    requires |erased| == SECTORS
  {
    forall t :: 0 <= t < SECTORS ==> (erased[t] <==> Erase(t) in log)
  }

  /** The flags say what has been erased, and the log is in order. */
  predicate InOrder(erased: seq<bool>, log: seq<Op>)
    requires |erased| == SECTORS
  {
    Flagged(erased, log) && ErasedFirst(log)
  }

  lemma EraseKeepsOrder(erased: seq<bool>, log: seq<Op>, sector: nat)
    requires |erased| == SECTORS && sector < SECTORS && InOrder(erased, log) && !erased[sector]
    ensures InOrder(erased[sector := true], log + [Erase(sector)])
  {
    ErasedFirstAppend(log, Erase(sector));
  }

  lemma ProgramKeepsOrder(erased: seq<bool>, log: seq<Op>, word: nat)
    requires |erased| == SECTORS && Sector(word) < SECTORS && InOrder(erased, log) && erased[Sector(word)]
    ensures InOrder(erased, log + [Program(word)])
  {
    ErasedFirstAppend(log, Program(word));
  }

  lemma BlockedKeepsOrder(erased: seq<bool>, log: seq<Op>, sector: nat)
    requires |erased| == SECTORS && sector < SECTORS && InOrder(erased, log) && !erased[sector]
    ensures InOrder(erased, log + [Blocked(sector)])
  {
    ErasedFirstAppend(log, Blocked(sector));
  }

  lemma EraseStepKeepsOrder(s: State, log: seq<Op>)
    requires WellFormed(s) && s.start != -1 && InOrder(s.erased, log)
    ensures InOrder(EraseStep(s).erased, log + (if s.erased[Sector(s.start)] then [] else [Erase(Sector(s.start))]))
  {
    if s.erased[Sector(s.start)] {
      NothingKeepsOrder(s.erased, log);
    } else {
      EraseKeepsOrder(s.erased, log, Sector(s.start));
    }
  }

  lemma ProgramStepKeepsOrder(s: State, fault: bool, log: seq<Op>)
    requires WellFormed(s) && s.start != -1 && s.erased[Sector(s.start)] && InOrder(s.erased, log)
    ensures InOrder(s.erased, log + ProgramStep(s, fault).ops)
  {
    NothingKeepsOrder(s.erased, log);
    ProgramKeepsOrder(s.erased, log, s.start);
  }

  lemma FlushKeepsOrder(s: State, f: Faults, log: seq<Op>)
    requires WellFormed(s) && s.start != -1 && InOrder(s.erased, log)
    ensures InOrder(FlushStep(s, f).state.erased, log + FlushStep(s, f).ops)
  {
    var sector := Sector(s.start);
    if !s.erased[sector] && f.erase {
      BlockedKeepsOrder(s.erased, log, sector);
    } else {
      var first, ops := if s.erased[sector] then [] else [Erase(sector)], ProgramStep(EraseStep(s), f.program).ops;
      EraseStepKeepsOrder(s, log);
      ProgramStepKeepsOrder(EraseStep(s), f.program, log + first);
      FlushOpsAre(s, f);
      Associates(log, first, ops);
    }
  }

  lemma ByteKeepsOrder(s: State, a: nat, value: nat, f: Faults, log: seq<Op>)
    requires WellFormed(s) && a < SIZE && !Protected(a) && InOrder(s.erased, log)
    ensures InOrder(ByteStep(s, a, value, f).state.erased, log + ByteStep(s, a, value, f).ops)
  {
    assert log + [] == log;
    if s.start != -1 {
      FlushKeepsOrder(s, f, log);
    }
    var room := RoomStep(s, a, f);
    if room.ok {
      CollectIsWellFormed(room.state, a, value);
      FullKeepsOrder(CollectStep(room.state, a, value), f, log, room.ops);
    }
  }

  lemma FullKeepsOrder(s: State, f: Faults, log: seq<Op>, ops: seq<Op>)
    requires WellFormed(s) && InOrder(s.erased, log + ops)
    ensures InOrder(FullStep(s, f).state.erased, log + (ops + FullStep(s, f).ops))
  {
    if s.bits == ALL_SET {
      FlushKeepsOrder(s, f, log + ops);
    }
    assert log + (ops + FullStep(s, f).ops) == (log + ops) + FullStep(s, f).ops;
    assert log + ops + [] == log + ops;
  }

  lemma LockKeepsOrder(s: State, f: Faults, log: seq<Op>)
    requires WellFormed(s) && InOrder(s.erased, log)
    ensures InOrder(LockStep(s, f).state.erased, log + LockStep(s, f).ops)
  {
    assert log + [] == log;
    if s.start != -1 {
      FlushKeepsOrder(s, f, log);
    }
  }

  lemma NothingKeepsOrder(erased: seq<bool>, log: seq<Op>)
    requires |erased| == SECTORS && InOrder(erased, log)
    ensures InOrder(erased, log + [])
  {
    assert log + [] == log;
  }

  lemma PutKeepsOrder(s: State, p: Put, log: seq<Op>)
    requires WellFormed(s) && InOrder(s.erased, log)
    ensures InOrder(PutStep(s, p).state.erased, log + PutStep(s, p).ops)
  {
    if s.locked || !Writable(p.a) {
      NothingKeepsOrder(s.erased, log);
    } else {
      ByteKeepsOrder(s, p.a, p.value, p.faults, log);
    }
  }

  /** In any order of calls from power-on, with any failures and retries: since Unlock no sector
      is erased twice or tried again once erased, and nothing is programmed before its sector is
      erased. */
  lemma {:induction false} ErasedFirstAlways(s: State, calls: seq<Call>)
    requires WellFormed(s) && forall t :: 0 <= t < SECTORS ==> !s.erased[t]
    ensures ErasedFirst(SinceUnlock(s, calls)) && Flagged(After(s, calls).erased, SinceUnlock(s, calls))
  {
    if calls != [] && !calls[|calls| - 1].Unlock? {
      var before := calls[..|calls| - 1];
      ErasedFirstAlways(s, before);
      match calls[|calls| - 1]
      case Lock(f) => LockKeepsOrder(After(s, before), f, SinceUnlock(s, before));
      case Write(p) => PutKeepsOrder(After(s, before), p, SinceUnlock(s, before));
    }
  }

  // In ascending order.

  /** What an observer of a session knows: flash at Unlock, what filled the shadow then, the bytes
      accepted, the first address above them, the word that gets zeros for what is not written
      (-1 for none), and the first word above everything in flash. */
  datatype Record = Record(image: seq<nat>, fill: nat, written: map<nat, nat>, top: nat, zero: int, front: nat)

  predicate InZero(r: Record, a: nat) {
    r.zero != -1 && r.zero <= a < r.zero + 8
  }

  /** What flash reads at `a`. */
  function Expected(r: Record, erased: seq<bool>, a: nat): nat
    requires |r.image| == SIZE && |erased| == SECTORS && a < SIZE
  {
    if !erased[Sector(a)] then r.image[a]
    else if a >= r.front then 255
    else if a in r.written then r.written[a]
    else if InZero(r, a) then 0
    else 255
  }

  predicate Matches(s: State, r: Record)
    requires WellFormed(s) && |r.image| == SIZE
  {
    forall a :: 0 <= a < SIZE ==> s.flash[a] == Expected(r, s.erased, a)
  }

  function Filler(r: Record, start: int): nat {
    if r.fill == 0 && (r.zero == -1 || r.zero == start) then 0 else 255
  }

  /** The shadow holds the accepted bytes of its word, and the filler. */
  predicate Collecting(s: State, r: Record)
    requires WellFormed(s)
  {
    && r.front % 8 == 0 && r.front <= SIZE && |r.image| == SIZE
    && (s.start != -1 ==> r.front == s.start && (r.fill == 0 ==> r.zero != -1))
    && BitsAreAccepted(s, r)
    && Padded(s, Filler(r, s.start))
  }

  predicate BitsAreAccepted(s: State, r: Record)
    requires WellFormed(s)
  {
    forall i :: 0 <= i < 8 && s.bits[i] ==>
      s.start + i < r.top && s.start + i in r.written && r.written[s.start + i] == s.shadow[i]
  }

  /** An accepted byte waits in the shadow, or lies below the front in an erased sector. */
  predicate Held(s: State, r: Record, a: nat)
    requires WellFormed(s)
  {
    a < SIZE
    && if a < r.front || a < s.start then s.erased[Sector(a)] else s.start != -1 && a < s.start + 8 && s.bits[a - s.start]
  }

  predicate AllHeld(s: State, r: Record)
    requires WellFormed(s) && (s.start != -1 ==> r.front == s.start)
  {
    && (forall a :: a in r.written ==> Held(s, r, a))
    && (r.zero == -1 || (r.fill == 0 && 0 <= r.zero <= SIZE - 8 && r.zero % 8 == 0
                         && (r.zero == s.start || (r.zero + 8 <= r.front && s.erased[Sector(r.zero)]))))
  }

  /** Some byte of the sector has been accepted. */
  predicate Touched(written: map<nat, nat>, sector: nat) {
    exists a :: a in written && Sector(a) == sector
  }

  predicate OnlyTouched(s: State, r: Record)
    requires WellFormed(s)
  {
    forall t :: 0 <= t < SECTORS && s.erased[t] ==> Touched(r.written, t)
  }

  predicate Tidy(s: State, r: Record) {
    WellFormed(s) && Collecting(s, r) && AllHeld(s, r) && Matches(s, r) && OnlyTouched(s, r)
  }

  lemma ErasedByteIsExpected(s: State, r: Record, a: nat)
    requires Tidy(s, r) && s.start != -1 && !s.erased[Sector(s.start)] && a < SIZE
    ensures EraseStep(s).flash[a] == Expected(r, EraseStep(s).erased, a)
  {
    if Sector(a) == Sector(s.start) {
      if InZero(r, a) && a < r.front {
        WordInSector(r.zero, a);
      }
      assert a in r.written ==> Held(s, r, a);
    }
  }

  lemma ErasedMatches(s: State, r: Record)
    requires Tidy(s, r) && s.start != -1 && !s.erased[Sector(s.start)]
    ensures Matches(EraseStep(s), r)
  {
    var e := EraseStep(s);
    forall a | 0 <= a < SIZE
      ensures e.flash[a] == Expected(r, e.erased, a)
    {
      ErasedByteIsExpected(s, r, a);
    }
  }

  lemma ErasedHoldsByte(s: State, r: Record, a: nat)
    requires WellFormed(s) && s.start != -1 && Held(s, r, a)
    ensures Held(EraseStep(s), r, a)
  {
  }

  lemma ErasedHolds(s: State, r: Record)
    requires WellFormed(s) && s.start != -1 && r.front == s.start && AllHeld(s, r)
    ensures AllHeld(EraseStep(s), r)
  {
    forall a | a in r.written
      ensures Held(EraseStep(s), r, a)
    {
      ErasedHoldsByte(s, r, a);
    }
  }

  lemma ErasedCollects(s: State, r: Record)
    requires Tidy(s, r) && s.start != -1
    ensures Collecting(EraseStep(s), r)
  {
    assert EraseStep(s).shadow == s.shadow && EraseStep(s).bits == s.bits;
  }

  lemma ErasedTouches(s: State, r: Record)
    requires Tidy(s, r) && s.start != -1
    ensures OnlyTouched(EraseStep(s), r)
  {
    CollectedIsTouched(s, r);
  }

  lemma EraseKeepsTidy(s: State, r: Record)
    requires Tidy(s, r) && s.start != -1
    ensures Tidy(EraseStep(s), r)
  {
    if !s.erased[Sector(s.start)] {
      ErasedCollects(s, r);
      ErasedMatches(s, r);
      ErasedHolds(s, r);
      ErasedTouches(s, r);
    }
  }

  /** The word being collected holds an accepted byte. */
  lemma CollectedIsTouched(s: State, r: Record)
    requires Tidy(s, r) && s.start != -1
    ensures Touched(r.written, Sector(s.start))
  {
    var i :| 0 <= i < 8 && s.bits[i];
    WordInSector(s.start, s.start + i);
    assert s.start + i in r.written;
  }

  /** In order, the word about to be programmed is erased. */
  lemma CollectedWordIsErased(s: State, r: Record)
    requires Tidy(s, r) && s.start != -1 && s.erased[Sector(s.start)]
    ensures s.flash[s.start..s.start + 8] == ERASED
  {
    forall a | s.start <= a < s.start + 8
      ensures s.flash[a] == 255
    {
      WordInSector(s.start, a);
    }
  }

  function Passed(r: Record, start: nat): Record {
    r.(front := start + 8)
  }

  lemma ProgrammedByteIsExpected(s: State, r: Record, a: nat)
    requires Tidy(s, r) && s.start != -1 && s.erased[Sector(s.start)] && a < SIZE
    ensures Programmed(s.flash, s.start, s.shadow)[a] == Expected(Passed(r, s.start), s.erased, a)
  {
    if s.start <= a < s.start + 8 {
      WordInSector(s.start, a);
      var i := a - s.start;
      assert s.start + i == a;
      assert a in r.written ==> Held(s, r, a);
      if a !in r.written {
        assert s.shadow[i] == Filler(r, s.start);
      }
    }
  }

  lemma SameWordSameFlash(s: State, a: nat)
    requires WellFormed(s) && s.start != -1 && a < SIZE && s.flash[s.start..s.start + 8] == ERASED
    ensures ProgramStep(s, false).state.flash[a] == Programmed(s.flash, s.start, s.shadow)[a]
  {
    if s.flash[s.start..s.start + 8] == s.shadow && s.start <= a < s.start + 8 {
      assert s.flash[s.start..s.start + 8][a - s.start] == s.flash[a];
    }
  }

  lemma ProgrammedMatches(s: State, r: Record)
    requires Tidy(s, r) && s.start != -1 && s.erased[Sector(s.start)]
    ensures Matches(ProgramStep(s, false).state, Passed(r, s.start))
  {
    CollectedWordIsErased(s, r);
    var o, p := ProgramStep(s, false).state, Passed(r, s.start);
    forall a | 0 <= a < SIZE
      ensures o.flash[a] == Expected(p, o.erased, a)
    {
      ProgrammedByteIsExpected(s, r, a);
      SameWordSameFlash(s, a);
    }
  }

  lemma ProgrammedHolds(s: State, r: Record)
    requires Tidy(s, r) && s.start != -1 && s.erased[Sector(s.start)]
    ensures AllHeld(ProgramStep(s, false).state, Passed(r, s.start))
  {
    var o, p := ProgramStep(s, false).state, Passed(r, s.start);
    forall a | a in p.written
      ensures Held(o, p, a)
    {
      assert Held(s, r, a);
      if s.start <= a {
        WordInSector(s.start, a);
      }
    }
  }

  lemma ProgrammedCollects(s: State, r: Record)
    requires WellFormed(s) && s.start != -1 && Collecting(s, r)
    ensures Collecting(ProgramStep(s, false).state, Passed(r, s.start))
  {
    var o, p := ProgramStep(s, false).state, Passed(r, s.start);
    assert BitsAreAccepted(o, p);
    assert Filler(p, o.start) == 255;
  }

  lemma ProgramKeepsTidy(s: State, r: Record)
    requires Tidy(s, r) && s.start != -1 && s.erased[Sector(s.start)]
    ensures ProgramStep(s, false).ok && Tidy(ProgramStep(s, false).state, Passed(r, s.start))
  {
    CollectedWordIsErased(s, r);
    ProgrammedCollects(s, r);
    ProgrammedMatches(s, r);
    ProgrammedHolds(s, r);
  }

  /** A flush that succeeds moves the front behind the word; without faults it succeeds. */
  lemma FlushKeepsTidy(s: State, r: Record, f: Faults)
    requires Tidy(s, r) && s.start != -1
    ensures !f.erase && !f.program ==> FlushStep(s, f).ok
    ensures FlushStep(s, f).ok ==> Tidy(FlushStep(s, f).state, Passed(r, s.start))
  {
    EraseKeepsTidy(s, r);
    ProgramKeepsTidy(EraseStep(s), r);
    OkIsNoFault(s, f);
  }

  lemma OkIsNoFault(s: State, f: Faults)
    requires WellFormed(s) && s.start != -1
    ensures FlushStep(s, f).ok ==> FlushStep(s, f).state == ProgramStep(EraseStep(s), false).state
    ensures !f.erase && !f.program && ProgramStep(EraseStep(s), false).ok ==> FlushStep(s, f).ok
  {
  }

  lemma WaitedByteIsExpected(s: State, r: Record, front: nat, a: nat)
    requires Tidy(s, r) && s.start == -1 && r.front <= front <= SIZE && a < SIZE
    ensures s.flash[a] == Expected(r.(front := front), s.erased, a)
  {
    if r.front <= a {
      assert a in r.written ==> Held(s, r, a);
    }
  }

  /** With nothing being collected the front may move up. */
  lemma AdvanceKeepsTidy(s: State, r: Record, front: nat)
    requires Tidy(s, r) && s.start == -1 && r.front <= front <= SIZE && front % 8 == 0
    ensures Tidy(s, r.(front := front))
  {
    var p := r.(front := front);
    assert Matches(s, p) by {
      forall a | 0 <= a < SIZE
        ensures s.flash[a] == Expected(p, s.erased, a)
      {
        WaitedByteIsExpected(s, r, front, a);
      }
    }
    assert AllHeld(s, p) by {
      forall a | a in p.written
        ensures Held(s, p, a)
      {
        assert Held(s, r, a);
      }
    }
  }

  /** What is known after byte `a`. */
  function Accepted(r: Record, a: nat, value: nat): Record {
    r.(written := r.written[a := value], top := a + 1, zero := if r.fill == 0 && r.zero == -1 then Word(a) else r.zero)
  }

  /** The byte fits the word at the front. */
  predicate Fitting(s: State, r: Record, a: nat) {
    Tidy(s, r) && a < SIZE && !Protected(a) && r.top <= a && r.front == Word(a) && (s.start == -1 || s.start == Word(a))
  }

  lemma CollectedBits(s: State, r: Record, w: nat, k: nat, value: nat, c: State, q: Record)
    requires WellFormed(s) && BitsAreAccepted(s, r) && k < 8 && r.top <= w + k && (s.start == -1 || s.start == w)
    requires WellFormed(c) && c.start == w && c.shadow == s.shadow[k := value] && c.bits == s.bits[k := true]
    requires q.top == w + k + 1 && q.written == r.written[w + k := value]
    ensures BitsAreAccepted(c, q)
  {
    forall i | 0 <= i < 8 && c.bits[i]
      ensures w + i < q.top && w + i in q.written && q.written[w + i] == c.shadow[i]
    {
      if i != k {
        assert s.bits[i];
        assert s.start + i in r.written;
      }
    }
  }

  lemma CollectedCollects(s: State, r: Record, a: nat, value: nat)
    requires Fitting(s, r, a)
    ensures WellFormed(CollectStep(s, a, value)) && Collecting(CollectStep(s, a, value), Accepted(r, a, value))
  {
    CollectIsWellFormed(s, a, value);
    CollectedBits(s, r, Word(a), a - Word(a), value, CollectStep(s, a, value), Accepted(r, a, value));
    CollectedIsPadded(s, r, a, value);
  }

  lemma CollectedIsPadded(s: State, r: Record, a: nat, value: nat)
    requires Fitting(s, r, a)
    ensures Padded(CollectStep(s, a, value), Filler(Accepted(r, a, value), Word(a)))
  {
    assert Filler(Accepted(r, a, value), Word(a)) == Filler(r, s.start);
    assert Padded(s, Filler(r, s.start));
  }

  lemma CollectedHolds(s: State, r: Record, a: nat, value: nat)
    requires Fitting(s, r, a) && WellFormed(CollectStep(s, a, value))
    ensures AllHeld(CollectStep(s, a, value), Accepted(r, a, value))
  {
    var c, q := CollectStep(s, a, value), Accepted(r, a, value);
    forall b | b in q.written
      ensures Held(c, q, b)
    {
      assert b != a ==> Held(s, r, b);
    }
  }

  lemma CollectedMatches(s: State, r: Record, a: nat, value: nat)
    requires Fitting(s, r, a) && WellFormed(CollectStep(s, a, value))
    ensures Matches(CollectStep(s, a, value), Accepted(r, a, value))
  {
    var q := Accepted(r, a, value);
    forall b | 0 <= b < SIZE
      ensures s.flash[b] == Expected(q, s.erased, b)
    {
      assert s.flash[b] == Expected(r, s.erased, b);
    }
  }

  lemma CollectedTouches(s: State, r: Record, a: nat, value: nat)
    requires Fitting(s, r, a) && WellFormed(CollectStep(s, a, value))
    ensures OnlyTouched(CollectStep(s, a, value), Accepted(r, a, value))
  {
    forall t | 0 <= t < SECTORS && s.erased[t]
      ensures Touched(r.written[a := value], t)
    {
      assert Touched(r.written, t);
      var b :| b in r.written && Sector(b) == t;
      assert b in r.written[a := value];
    }
  }

  lemma CollectKeepsTidy(s: State, r: Record, a: nat, value: nat)
    requires Fitting(s, r, a)
    ensures Tidy(CollectStep(s, a, value), Accepted(r, a, value))
  {
    CollectedCollects(s, r, a, value);
    CollectedHolds(s, r, a, value);
    CollectedMatches(s, r, a, value);
    CollectedTouches(s, r, a, value);
  }

  /** Between calls the front is at most one word behind an ascending address. */
  predicate Rested(s: State, r: Record) {
    s.start == -1 ==> r.front <= r.top
  }

  /** The byte's word is the front once there is room for it. */
  lemma RoomIsFitting(s: State, r: Record, a: nat, f: Faults)
    requires Tidy(s, r) && Rested(s, r) && a < SIZE && !Protected(a) && r.top <= a
    ensures !f.erase && !f.program ==> RoomStep(s, a, f).ok
    ensures RoomStep(s, a, f).ok ==> Fitting(RoomStep(s, a, f).state, r.(front := Word(a)), a)
  {
    if s.start == -1 {
      FrontIsAligned(s, r, a);
      AdvanceKeepsTidy(s, r, Word(a));
    } else if s.start != Word(a) {
      RoomAfterFlush(s, r, a, f);
    } else {
      FrontIsAligned(s, r, a);
      assert r == r.(front := Word(a));
    }
  }

  lemma RoomAfterFlush(s: State, r: Record, a: nat, f: Faults)
    requires Tidy(s, r) && s.start != -1 && s.start != Word(a) && a < SIZE && r.top <= a
    ensures !f.erase && !f.program ==> FlushStep(s, f).ok
    ensures FlushStep(s, f).ok ==> Tidy(FlushStep(s, f).state, r.(front := Word(a)))
  {
    StartIsBelow(s, r);
    NextWord(s.start, a);
    FlushKeepsTidy(s, r, f);
    if FlushStep(s, f).ok {
      AdvanceKeepsTidy(FlushStep(s, f).state, Passed(r, s.start), Word(a));
    }
  }

  lemma NextWord(word: nat, a: nat)
    requires word % 8 == 0 && word <= a && word != Word(a)
    ensures word + 8 <= Word(a) <= a && Word(a) % 8 == 0
  {
  }

  lemma FrontIsAligned(s: State, r: Record, a: nat)
    requires Tidy(s, r)
    ensures s.start != -1 ==> r.front == s.start
    ensures r.front <= a ==> r.front <= Word(a)
  {
  }

  /** The word being collected starts below the first address still to come. */
  lemma StartIsBelow(s: State, r: Record)
    requires Tidy(s, r) && s.start != -1
    ensures s.start < r.top && s.start % 8 == 0
  {
    var i :| 0 <= i < 8 && s.bits[i];
  }

  /** The front after byte `a`. */
  function Next(r: Record, a: nat, value: nat, after: State): Record {
    Accepted(r, a, value).(front := if after.start == -1 then Word(a) + 8 else Word(a))
  }

  lemma ByteKeepsTidy(s: State, r: Record, a: nat, value: nat, f: Faults)
    requires Tidy(s, r) && Rested(s, r) && a < SIZE && !Protected(a) && r.top <= a
    ensures !f.erase && !f.program ==> ByteStep(s, a, value, f).ok
    ensures var o := ByteStep(s, a, value, f);
      o.ok ==> Tidy(o.state, Next(r, a, value, o.state)) && Rested(o.state, Next(r, a, value, o.state))
  {
    RoomIsFitting(s, r, a, f);
    var room := RoomStep(s, a, f);
    if room.ok {
      var p := r.(front := Word(a));
      CollectKeepsTidy(room.state, p, a, value);
      FullIsNext(CollectStep(room.state, a, value), r, a, value, f);
    }
  }

  lemma FullIsNext(s: State, r: Record, a: nat, value: nat, f: Faults)
    requires Tidy(s, Accepted(r.(front := Word(a)), a, value)) && s.start == Word(a)
    ensures !f.erase && !f.program ==> FullStep(s, f).ok
    ensures var o := FullStep(s, f);
      o.ok ==> Tidy(o.state, Next(r, a, value, o.state)) && Rested(o.state, Next(r, a, value, o.state))
  {
    var q := Accepted(r.(front := Word(a)), a, value);
    FullKeepsTidy(s, q, f);
    assert Passed(q, s.start) == Accepted(r, a, value).(front := Word(a) + 8);
    assert q == Accepted(r, a, value).(front := Word(a));
  }

  lemma FullKeepsTidy(s: State, r: Record, f: Faults)
    requires Tidy(s, r) && s.start != -1
    ensures !f.erase && !f.program ==> FullStep(s, f).ok
    ensures FullStep(s, f).ok ==>
      && Tidy(FullStep(s, f).state, if FullStep(s, f).state.start == -1 then Passed(r, s.start) else r)
      && (FullStep(s, f).state.start == -1 ==> s.start + 8 <= r.top)
  {
    if s.bits == ALL_SET {
      assert s.bits[7];
      FlushKeepsTidy(s, r, f);
    }
  }

  // The log of such a session is disciplined.

  predicate Logged(erased: seq<bool>, log: seq<Op>, front: nat)
    requires |erased| == SECTORS
  {
    && Disciplined(log) && Flagged(erased, log)
    && forall i :: 0 <= i < |log| && log[i].Program? ==>
         log[i].word < SIZE && log[i].word < front && erased[Sector(log[i].word)]
  }

  lemma EraseKeepsLogged(erased: seq<bool>, log: seq<Op>, sector: nat, front: nat)
    requires |erased| == SECTORS && sector < SECTORS && !erased[sector] && Logged(erased, log, front)
    ensures Logged(erased[sector := true], log + [Erase(sector)], front)
  {
    DisciplinedAppend(log, Erase(sector));
  }

  lemma BlockedKeepsLogged(erased: seq<bool>, log: seq<Op>, sector: nat, front: nat)
    requires |erased| == SECTORS && sector < SECTORS && !erased[sector] && Logged(erased, log, front)
    ensures Logged(erased, log + [Blocked(sector)], front)
  {
    DisciplinedAppend(log, Blocked(sector));
  }

  lemma ProgramKeepsLogged(erased: seq<bool>, log: seq<Op>, word: nat)
    requires |erased| == SECTORS && word < SIZE && erased[Sector(word)] && Logged(erased, log, word)
    ensures Logged(erased, log + [Program(word)], word + 8)
  {
    DisciplinedAppend(log, Program(word));
  }

  lemma LoggedRises(erased: seq<bool>, log: seq<Op>, front: nat, higher: nat)
    requires |erased| == SECTORS && front <= higher && Logged(erased, log, front)
    ensures Logged(erased, log, higher)
  {
  }

  lemma FlushKeepsLogged(s: State, f: Faults, log: seq<Op>)
    requires WellFormed(s) && s.start != -1 && Logged(s.erased, log, s.start)
    ensures Logged(FlushStep(s, f).state.erased, log + FlushStep(s, f).ops, s.start + 8)
  {
    var sector := Sector(s.start);
    if !s.erased[sector] && f.erase {
      BlockedKeepsLogged(s.erased, log, sector, s.start);
      LoggedRises(s.erased, log + [Blocked(sector)], s.start, s.start + 8);
    } else {
      var first, ops := if s.erased[sector] then [] else [Erase(sector)], ProgramStep(EraseStep(s), f.program).ops;
      ErasedIsLogged(s, log);
      ProgramIsLogged(EraseStep(s), f.program, log + first);
      FlushOpsAre(s, f);
      Associates(log, first, ops);
    }
  }

  lemma Associates(a: seq<Op>, b: seq<Op>, c: seq<Op>)
    ensures a + (b + c) == a + b + c
  {
  }

  lemma FlushOpsAre(s: State, f: Faults)
    requires WellFormed(s) && s.start != -1 && (s.erased[Sector(s.start)] || !f.erase)
    ensures FlushStep(s, f).state.erased == EraseStep(s).erased
    ensures FlushStep(s, f).ops ==
      (if s.erased[Sector(s.start)] then [] else [Erase(Sector(s.start))]) + ProgramStep(EraseStep(s), f.program).ops
  {
  }

  lemma ErasedIsLogged(s: State, log: seq<Op>)
    requires WellFormed(s) && s.start != -1 && Logged(s.erased, log, s.start)
    ensures Logged(EraseStep(s).erased, log + (if s.erased[Sector(s.start)] then [] else [Erase(Sector(s.start))]), s.start)
  {
    if !s.erased[Sector(s.start)] {
      EraseKeepsLogged(s.erased, log, Sector(s.start), s.start);
    }
    assert log + [] == log;
  }

  lemma ProgramIsLogged(s: State, fault: bool, log: seq<Op>)
    requires WellFormed(s) && s.start != -1 && s.erased[Sector(s.start)] && Logged(s.erased, log, s.start)
    ensures Logged(s.erased, log + ProgramStep(s, fault).ops, s.start + 8)
  {
    LoggedRises(s.erased, log, s.start, s.start + 8);
    ProgramKeepsLogged(s.erased, log, s.start);
    assert log + [] == log;
  }

  lemma RoomKeepsLogged(s: State, r: Record, a: nat, f: Faults, log: seq<Op>)
    requires Tidy(s, r) && Rested(s, r) && a < SIZE && r.top <= a && Logged(s.erased, log, r.front)
    ensures Disciplined(log + RoomStep(s, a, f).ops)
    ensures RoomStep(s, a, f).ok ==> Logged(RoomStep(s, a, f).state.erased, log + RoomStep(s, a, f).ops, Word(a))
  {
    FrontIsAligned(s, r, a);
    if s.start != -1 && s.start != Word(a) {
      StartIsBelow(s, r);
      NextWord(s.start, a);
      FlushKeepsLogged(s, f, log);
      LoggedRises(FlushStep(s, f).state.erased, log + FlushStep(s, f).ops, s.start + 8, Word(a));
    } else {
      LoggedRises(s.erased, log, r.front, Word(a));
      assert log + [] == log;
    }
  }

  lemma FullKeepsLogged(s: State, f: Faults, log: seq<Op>)
    requires WellFormed(s) && s.start != -1 && Logged(s.erased, log, s.start)
    ensures var o := FullStep(s, f);
      Logged(o.state.erased, log + o.ops, if s.bits == ALL_SET then s.start + 8 else s.start)
  {
    if s.bits == ALL_SET {
      FlushKeepsLogged(s, f, log);
    }
    assert log + [] == log;
  }

  lemma ByteKeepsLogged(s: State, r: Record, a: nat, value: nat, f: Faults, log: seq<Op>)
    requires Tidy(s, r) && Rested(s, r) && a < SIZE && !Protected(a) && r.top <= a && Logged(s.erased, log, r.front)
    ensures Disciplined(log + ByteStep(s, a, value, f).ops)
    ensures var o := ByteStep(s, a, value, f); o.ok ==> Logged(o.state.erased, log + o.ops, Next(r, a, value, o.state).front)
  {
    RoomKeepsLogged(s, r, a, f, log);
    var room := RoomStep(s, a, f);
    if room.ok {
      CollectIsWellFormed(room.state, a, value);
      var c := CollectStep(room.state, a, value);
      FullKeepsLogged(c, f, log + room.ops);
      Associates(log, room.ops, FullStep(c, f).ops);
    }
  }

  // Whole sessions.

  predicate Ascending(ps: seq<Put>) {
    forall i, j :: 0 <= i < j < |ps| ==> ps[i].a < ps[j].a
  }

  predicate AllWritable(ps: seq<Put>) {
    forall i :: 0 <= i < |ps| ==> Writable(ps[i].a)
  }

  predicate Faultless(ps: seq<Put>) {
    forall i :: 0 <= i < |ps| ==> !ps[i].faults.erase && !ps[i].faults.program
  }

  function Written(ps: seq<Put>): map<nat, nat>
    requires AllWritable(ps)
  {
    if ps == [] then map[] else Written(ps[..|ps| - 1])[ps[|ps| - 1].a := ps[|ps| - 1].value]
  }

  function TopOf(ps: seq<Put>): nat
    requires AllWritable(ps)
  {
    if ps == [] then 0 else ps[|ps| - 1].a + 1
  }

  /** The word whose unwritten bytes become 0: the first one, when nothing was flushed before. */
  function ZeroWord(s: State, ps: seq<Put>): int
    requires AllWritable(ps)
  {
    if ps == [] || s.shadow != ZEROS then -1 else Word(ps[0].a)
  }

  /** Just unlocked, with nothing being collected. */
  predicate Ready(s: State) {
    WellFormed(s) && !s.locked && s.start == -1 && s.erased == seq(SECTORS, _ => false)
  }

  function RecordOf(s: State, ps: seq<Put>): Record
    requires WellFormed(s) && AllWritable(ps)
  {
    if ps == [] then Record(s.flash, if s.shadow == ZEROS then 0 else 255, map[], 0, -1, 0)
    else
      var p := ps[|ps| - 1];
      Next(RecordOf(s, ps[..|ps| - 1]), p.a, p.value, Puts(s, ps).state)
  }

  lemma {:induction false} RecordIs(s: State, ps: seq<Put>)
    requires WellFormed(s) && AllWritable(ps)
    ensures var r := RecordOf(s, ps);
      && r.image == s.flash && r.fill == (if s.shadow == ZEROS then 0 else 255)
      && r.written == Written(ps) && r.top == TopOf(ps) && r.zero == ZeroWord(s, ps)
  {
    if ps != [] {
      RecordIs(s, ps[..|ps| - 1]);
    }
  }

  /** The invariant of a session. */
  predicate TidyAfter(o: Outcome, r: Record) {
    Tidy(o.state, r) && Rested(o.state, r) && Logged(o.state.erased, o.ops, r.front)
  }

  lemma ReadyIsTidy(s: State)
    requires Ready(s)
    ensures TidyAfter(Outcome(s, true, []), RecordOf(s, []))
  {
    var r := RecordOf(s, []);
    assert Padded(s, Filler(r, s.start)) by {
      if Padded(s, 0) {
        assert s.shadow == ZEROS;
      } else {
        assert s.shadow == ERASED && s.shadow[0] != ZEROS[0];
      }
    }
  }

  lemma PutKeepsTidy(o: Outcome, r: Record, p: Put)
    requires TidyAfter(o, r) && !o.state.locked && (Writable(p.a) ==> r.top <= p.a)
    ensures var n := PutStep(o.state, p);
      && Disciplined(o.ops + n.ops)
      && (Writable(p.a) && !p.faults.erase && !p.faults.program ==> n.ok)
      && (n.ok ==> Writable(p.a) && TidyAfter(Outcome(n.state, true, o.ops + n.ops), Next(r, p.a, p.value, n.state)))
  {
    if Writable(p.a) {
      ByteKeepsTidy(o.state, r, p.a, p.value, p.faults);
      ByteKeepsLogged(o.state, r, p.a, p.value, p.faults, o.ops);
    } else {
      assert o.ops + [] == o.ops;
    }
  }

  lemma AllButLast(ps: seq<Put>)
    requires ps != []
    ensures AllWritable(ps) <==> AllWritable(ps[..|ps| - 1]) && Writable(ps[|ps| - 1].a)
    ensures Faultless(ps) ==> Faultless(ps[..|ps| - 1])
  {
    assert ps == ps[..|ps| - 1] + [ps[|ps| - 1]];
  }

  lemma LastRecord(s: State, ps: seq<Put>)
    requires WellFormed(s) && ps != [] && AllWritable(ps)
    ensures AllWritable(ps[..|ps| - 1])
    ensures RecordOf(s, ps) == Next(RecordOf(s, ps[..|ps| - 1]), ps[|ps| - 1].a, ps[|ps| - 1].value, Puts(s, ps).state)
  {
  }

  /** The last byte of a session. */
  lemma LastPut(s: State, ps: seq<Put>)
    requires WellFormed(s) && ps != [] && Puts(s, ps[..|ps| - 1]).ok
    ensures var o, n := Puts(s, ps[..|ps| - 1]), PutStep(Puts(s, ps[..|ps| - 1]).state, ps[|ps| - 1]);
      Puts(s, ps) == Outcome(n.state, n.ok, o.ops + n.ops)
  {
  }

  lemma LastIsAbove(s: State, ps: seq<Put>)
    requires Ready(s) && ps != [] && Ascending(ps) && AllWritable(ps[..|ps| - 1])
    ensures Ascending(ps[..|ps| - 1])
    ensures Writable(ps[|ps| - 1].a) ==> RecordOf(s, ps[..|ps| - 1]).top <= ps[|ps| - 1].a
  {
    RecordIs(s, ps[..|ps| - 1]);
  }

  /** In ascending order: a session's log is disciplined, it succeeds without faults, and as long
      as it does the invariant holds. */
  lemma {:induction false} PutsAreTidy(s: State, ps: seq<Put>)
    requires Ready(s) && Ascending(ps)
    ensures Disciplined(Puts(s, ps).ops)
    ensures AllWritable(ps) && Faultless(ps) ==> Puts(s, ps).ok
    ensures Puts(s, ps).ok ==> AllWritable(ps) && TidyAfter(Puts(s, ps), RecordOf(s, ps))
  {
    if ps == [] {
      ReadyIsTidy(s);
    } else {
      var before, p := ps[..|ps| - 1], ps[|ps| - 1];
      PutsAreTidy(s, before);
      AllButLast(ps);
      if Puts(s, before).ok {
        LastIsAbove(s, ps);
        PutKeepsTidy(Puts(s, before), RecordOf(s, before), p);
        LastPut(s, ps);
        if Puts(s, ps).ok {
          LastRecord(s, ps);
        }
      }
    }
  }
  /** The front behind a word that Lock has to flush. */
  function Settled(s: State, r: Record): Record
    requires -1 <= s.start
  {
    if s.start != -1 then Passed(r, s.start) else r
  }

  /** Lock brings what is left of the last word to flash; `u` is the state before the lock bit is set. */
  lemma LockKeepsTidy(o: Outcome, r: Record, f: Faults) returns (u: State)
    requires TidyAfter(o, r) && !o.state.locked
    ensures var n := LockStep(o.state, f);
      && Disciplined(o.ops + n.ops)
      && (!f.erase && !f.program ==> n.ok)
      && (n.ok ==> n.state == u.(locked := true) && u.start == -1 && Tidy(u, Settled(o.state, r))
                   && Flagged(u.erased, o.ops + n.ops))
  {
    if o.state.start != -1 {
      FlushKeepsTidy(o.state, r, f);
      FlushKeepsLogged(o.state, f, o.ops);
      u := FlushStep(o.state, f).state;
    } else {
      assert o.ops + [] == o.ops;
      u := o.state;
    }
  }

  /** With nothing left in the shadow, erased is what was touched, and flash is what was written,
      blank beside it but for the zero word, and as before elsewhere. */
  lemma SettledByte(s: State, r: Record, a: nat)
    requires Tidy(s, r) && s.start == -1 && a < SIZE
    ensures s.erased[Sector(a)] <==> Touched(r.written, Sector(a))
    ensures s.flash[a] == if a in r.written then r.written[a]
                          else if !Touched(r.written, Sector(a)) then r.image[a]
                          else if InZero(r, a) then 0 else 255
  {
    assert a in r.written ==> Held(s, r, a) && Touched(r.written, Sector(a));
    if Touched(r.written, Sector(a)) {
      var b :| b in r.written && Sector(b) == Sector(a);
      assert Held(s, r, b);
    }
  }

  /** What flash reads at `a` after a session. */
  function Result(s: State, ps: seq<Put>, a: nat): nat
    requires WellFormed(s) && AllWritable(ps) && a < SIZE
  {
    if a in Written(ps) then Written(ps)[a]
    else if !Touched(Written(ps), Sector(a)) then s.flash[a]
    else if Word(a) == ZeroWord(s, ps) then 0
    else 255
  }

  /** Flash holds the result, and exactly the sectors touched were erased. */
  predicate Committed(s: State, ps: seq<Put>, o: Outcome)
    requires WellFormed(s) && |o.state.flash| == SIZE && AllWritable(ps)
  {
    && (forall a :: 0 <= a < SIZE ==> o.state.flash[a] == Result(s, ps, a))
    && (forall a :: 0 <= a < SIZE ==> (Erase(Sector(a)) in o.ops <==> Touched(Written(ps), Sector(a))))
  }

  lemma ZeroWordIs(s: State, ps: seq<Put>, a: nat)
    requires WellFormed(s) && AllWritable(ps)
    ensures InZero(RecordOf(s, ps), a) <==> Word(a) == ZeroWord(s, ps)
  {
    RecordIs(s, ps);
  }

  lemma UnlockIsReady(s: State)
    requires WellFormed(s) && s.start == -1
    ensures Ready(UnlockStep(s))
  {
  }

  /** The main theorem: whatever bytes are written in ascending order, in one command or many,
      from any state with nothing being collected. The log is disciplined in any case; without
      faults the session succeeds; and when it succeeds, flash is exactly the result. */
  lemma SessionCommits(s: State, ps: seq<Put>, f: Faults)
    requires WellFormed(s) && s.start == -1 && Ascending(ps)
    ensures Disciplined(Session(s, ps, f).ops)
    ensures AllWritable(ps) && Faultless(ps) && !f.erase && !f.program ==> Session(s, ps, f).ok
    ensures Session(s, ps, f).ok ==>
      && AllWritable(ps) && Committed(s, ps, Session(s, ps, f))
      && Session(s, ps, f).state.locked && Session(s, ps, f).state.start == -1
  {
    var u := UnlockStep(s);
    UnlockIsReady(s);
    PutsAreTidy(u, ps);
    var w := Puts(u, ps);
    if w.ok {
      var t := LockKeepsTidy(w, RecordOf(u, ps), f);
      if LockStep(w.state, f).ok {
        SettledIsCommitted(s, ps, t, w.ops + LockStep(w.state, f).ops, w.state);
      }
    }
  }

  lemma SettledIsCommitted(s: State, ps: seq<Put>, t: State, ops: seq<Op>, w: State)
    requires WellFormed(s) && s.start == -1 && AllWritable(ps) && -1 <= w.start
    requires t.start == -1 && Tidy(t, Settled(w, RecordOf(UnlockStep(s), ps))) && Flagged(t.erased, ops)
    ensures Committed(s, ps, Outcome(t, true, ops))
  {
    var r := RecordOf(UnlockStep(s), ps);
    RecordIs(UnlockStep(s), ps);
    forall a | 0 <= a < SIZE
      ensures t.flash[a] == Result(s, ps, a) && (Erase(Sector(a)) in ops <==> Touched(Written(ps), Sector(a)))
    {
      SettledByte(t, Settled(w, r), a);
      ZeroWordIs(UnlockStep(s), ps, a);
    }
  }

  /** Unwritten bytes of the touched sectors all read as erased. */
  predicate BlankAround(ps: seq<Put>, flash: seq<nat>)
    requires AllWritable(ps) && |flash| == SIZE
  {
    forall a :: 0 <= a < SIZE && a !in Written(ps) && Touched(Written(ps), Sector(a)) ==> flash[a] == 255
  }

  /** The first word has no holes. */
  ghost predicate FillsFirstWord(ps: seq<Put>)
    requires AllWritable(ps) && ps != []
  {
    forall a: nat :: Word(a) == Word(ps[0].a) ==> a in Written(ps)
  }

  /** When the bytes beside the written ones are blank: unless the first word ever collected
      is left with holes. */
  lemma BlankAroundIff(s: State, ps: seq<Put>, f: Faults)
    requires WellFormed(s) && s.start == -1 && Ascending(ps) && Session(s, ps, f).ok
    ensures AllWritable(ps)
    ensures BlankAround(ps, Session(s, ps, f).state.flash)
      <==> ps == [] || s.shadow != ZEROS || FillsFirstWord(ps)
  {
    SessionCommits(s, ps, f);
    var flash := Session(s, ps, f).state.flash;
    if ps != [] && s.shadow == ZEROS {
      FirstIsWritten(ps);
      if a: nat :| Word(a) == Word(ps[0].a) && a !in Written(ps) {
        SameWordSameSector(a, ps[0].a);
        assert flash[a] == Result(s, ps, a) == 0;
      }
    }
    forall a | 0 <= a < SIZE && a !in Written(ps) && Touched(Written(ps), Sector(a))
      ensures flash[a] == if Word(a) == ZeroWord(s, ps) then 0 else 255
    {
    }
  }

  lemma SameWordSameSector(a: nat, b: nat)
    requires Word(a) == Word(b) && b < SIZE
    ensures Sector(a) == Sector(b) && a < SIZE
  {
    WordOf(a);
    WordOf(b);
    WordInSector(Word(b), a);
    WordInSector(Word(b), b);
    InFlash(Word(b), b);
  }

  lemma InFlash(word: nat, b: nat)
    requires word % 8 == 0 && word <= b < SIZE
    ensures word + 8 <= SIZE
  {
  }

  lemma {:induction false} WrittenKeys(ps: seq<Put>, i: nat)
    requires AllWritable(ps) && i < |ps|
    ensures ps[i].a in Written(ps)
    ensures Ascending(ps) ==> Written(ps)[ps[i].a] == ps[i].value
  {
    if i < |ps| - 1 {
      WrittenKeys(ps[..|ps| - 1], i);
    }
  }

  lemma FirstIsWritten(ps: seq<Put>)
    requires AllWritable(ps) && ps != []
    ensures ps[0].a in Written(ps) && Touched(Written(ps), Sector(ps[0].a))
  {
    WrittenKeys(ps, 0);
  }

  // One run of consecutive bytes.

  function Run(start: int, data: seq<nat>, faults: seq<Faults>): seq<Put>
    requires |faults| == |data|
  {
    seq(|data|, i requires 0 <= i < |data| => Put(start + i, data[i], faults[i]))
  }

  predicate IsRun(ps: seq<Put>, start: int, data: seq<nat>, faults: seq<Faults>)
    requires |faults| == |data|
  {
    |ps| == |data| && forall i :: 0 <= i < |data| ==> ps[i] == Put(start + i, data[i], faults[i])
  }

  lemma RunIsRun(ps: seq<Put>, start: int, data: seq<nat>, faults: seq<Faults>)
    requires |faults| == |data|
    ensures IsRun(ps, start, data, faults) <==> ps == Run(start, data, faults)
  {
  }

  /** The run of bytes reaches into the sector. */
  predicate Covers(start: nat, count: nat, sector: nat) {
    count > 0 && Sector(start) <= sector <= Sector(start + count - 1)
  }

  lemma {:induction false} RunKeys(start: nat, data: seq<nat>, faults: seq<Faults>, a: nat)
    requires |faults| == |data| && AllWritable(Run(start, data, faults))
    ensures a in Written(Run(start, data, faults)) <==> start <= a < start + |data|
    ensures start <= a < start + |data| ==> Written(Run(start, data, faults))[a] == data[a - start]
  {
    if data != [] {
      var n := |data| - 1;
      assert Run(start, data, faults)[..n] == Run(start, data[..n], faults[..n]);
      RunKeys(start, data[..n], faults[..n], a);
    }
  }

  lemma RunTouches(start: nat, data: seq<nat>, faults: seq<Faults>, sector: nat)
    requires |faults| == |data| && AllWritable(Run(start, data, faults))
    ensures Touched(Written(Run(start, data, faults)), sector) <==> Covers(start, |data|, sector)
  {
    var written := Written(Run(start, data, faults));
    if Touched(written, sector) {
      var a :| a in written && Sector(a) == sector;
      RunKeys(start, data, faults, a);
    }
    if Covers(start, |data|, sector) {
      var a := if start < sector * 2048 then sector * 2048 else start;
      RunKeys(start, data, faults, a);
      assert a in written && Sector(a) == sector;
    }
  }

  /** The byte at `a` after an update of one run. */
  function RunByte(s: State, start: nat, data: seq<nat>, a: nat): nat
    requires WellFormed(s) && a < SIZE
  {
    if start <= a < start + |data| then data[a - start]
    else if !Covers(start, |data|, Sector(a)) then s.flash[a]
    else if s.shadow == ZEROS && Word(a) == Word(start) then 0
    else 255
  }

  /** An update of one run: what was written reads back; around it, in the sectors it reaches,
      flash is blank, but zero in the first word when nothing had been flushed since construction;
      elsewhere it is as before. */
  lemma RunCommits(s: State, start: nat, data: seq<nat>, faults: seq<Faults>, f: Faults, a: nat)
    requires WellFormed(s) && s.start == -1 && |faults| == |data| && a < SIZE
    requires Session(s, Run(start, data, faults), f).ok
    ensures Session(s, Run(start, data, faults), f).state.flash[a] == RunByte(s, start, data, a)
  {
    SessionCommits(s, Run(start, data, faults), f);
    RunResult(s, start, data, faults, a);
  }

  /** Flash after an update of one run of bytes from `start` on. */
  predicate Updated(s: State, flash: seq<nat>, start: nat, data: seq<nat>)
    requires WellFormed(s)
  {
    |flash| == SIZE && forall a :: 0 <= a < SIZE ==> flash[a] == RunByte(s, start, data, a)
  }

  lemma UpdateCommits(s: State, start: int, data: seq<nat>, faults: seq<Faults>, f: Faults)
    requires WellFormed(s) && s.start == -1 && |faults| == |data|
    ensures var o := Session(s, Run(start, data, faults), f);
      o.ok ==> (0 <= start || data == []) && (0 <= start ==> Updated(s, o.state.flash, start, data))
  {
    var ps := Run(start, data, faults);
    var o := Session(s, ps, f);
    if o.ok {
      SessionCommits(s, ps, f);
      assert data != [] ==> Writable(ps[0].a);
      if 0 <= start {
        forall a | 0 <= a < SIZE ensures o.state.flash[a] == RunByte(s, start, data, a) {
          RunCommits(s, start, data, faults, f, a);
        }
      }
    }
  }

  lemma RunResult(s: State, start: nat, data: seq<nat>, faults: seq<Faults>, a: nat)
    requires WellFormed(s) && |faults| == |data| && a < SIZE && AllWritable(Run(start, data, faults))
    ensures Result(s, Run(start, data, faults), a) == RunByte(s, start, data, a)
  {
    RunKeys(start, data, faults, a);
    RunTouches(start, data, faults, Sector(a));
    assert data != [] ==> Run(start, data, faults)[0].a == start;
  }

  lemma FirstWordIsFull(start: nat, count: nat, a: nat)
    requires start % 8 == 0 && 8 <= count && Word(a) == Word(start)
    ensures start <= a < start + count
  {
  }

  lemma FirstWordHasHole(start: nat, count: nat) returns (a: nat)
    requires 0 < count && !(start % 8 == 0 && 8 <= count)
    ensures Word(a) == Word(start) && !(start <= a < start + count)
  {
    a := if start % 8 != 0 then Word(start) else start + count;
  }

  lemma RunFillsFirstWord(start: nat, data: seq<nat>, faults: seq<Faults>)
    requires |faults| == |data| && data != [] && AllWritable(Run(start, data, faults))
    ensures FillsFirstWord(Run(start, data, faults)) <==> start % 8 == 0 && 8 <= |data|
  {
    assert Run(start, data, faults)[0].a == start;
    if start % 8 == 0 && 8 <= |data| {
      forall a: nat | Word(a) == Word(start)
        ensures a in Written(Run(start, data, faults))
      {
        RunKeys(start, data, faults, a);
        FirstWordIsFull(start, |data|, a);
      }
    } else {
      var a := FirstWordHasHole(start, |data|);
      RunKeys(start, data, faults, a);
    }
  }

  /** For a run: the bytes around it are blank unless it is the first since construction and does
      not fill its first word. */
  lemma RunBlankIff(s: State, start: nat, data: seq<nat>, faults: seq<Faults>, f: Faults)
    requires WellFormed(s) && s.start == -1 && |faults| == |data| && Session(s, Run(start, data, faults), f).ok
    ensures AllWritable(Run(start, data, faults))
    ensures BlankAround(Run(start, data, faults), Session(s, Run(start, data, faults), f).state.flash)
      <==> data == [] || s.shadow != ZEROS || (start % 8 == 0 && 8 <= |data|)
  {
    BlankAroundIff(s, Run(start, data, faults), f);
    if data != [] {
      RunFillsFirstWord(start, data, faults);
    }
  }

  const NO_FAULTS := Faults(false, false)

  /** The very first update after construction: one byte leaves seven zeros beside it in its word,
      where the same update afterwards leaves blank bytes. */
  lemma FirstUpdateLeavesZeros(s: State)
    requires WellFormed(s) && s.start == -1
    ensures var o := Session(s, Run(0x1_0000, [7], [NO_FAULTS]), NO_FAULTS);
      && o.ok && o.state.flash[0x1_0000] == 7 && o.state.flash[0x1_0008] == 255
      && o.state.flash[0x1_0001] == (if s.shadow == ZEROS then 0 else 255)
  {
    var ps := Run(0x1_0000, [7], [NO_FAULTS]);
    SessionCommits(s, ps, NO_FAULTS);
    RunCommits(s, 0x1_0000, [7], [NO_FAULTS], NO_FAULTS, 0x1_0000);
    RunCommits(s, 0x1_0000, [7], [NO_FAULTS], NO_FAULTS, 0x1_0001);
    RunCommits(s, 0x1_0000, [7], [NO_FAULTS], NO_FAULTS, 0x1_0008);
  }

  // The writer itself, in place.

  class Writer {
    const flash: array<nat>
    const sectorsErased: array<bool>
    var locked: bool
    var shadowStart: int
    var shadow: seq<nat>
    var shadowBits: seq<bool>
    ghost var log: seq<Op>          // what the hardware was asked to do; only its two operations add to it

    ghost function View(): State
      reads this, flash, sectorsErased
    {
      State(flash[..], sectorsErased[..], locked, shadowStart, shadow, shadowBits)
    }

    ghost predicate Valid()
      reads this, flash, sectorsErased
    {
      WellFormed(View())
    }

    /** A call has come out as `o` says, the log being `before` at its start. */
    ghost predicate Did(before: seq<Op>, ok: bool, o: Outcome)
      reads this, flash, sectorsErased
    {
      ok == o.ok && View() == o.state && log == before + o.ops
    }

    constructor ()
      ensures Valid() && locked && shadowStart == -1 && shadow == ZEROS && log == []
      ensures forall t :: 0 <= t < SECTORS ==> !sectorsErased[t]
      ensures fresh(flash) && fresh(sectorsErased)
    {
      flash := new nat[0x8_0000];
      sectorsErased := new bool[256](i => false);
      locked, shadowStart := true, -1;
      shadow, shadowBits := ZEROS, NONE_SET;
      log := [];
    }

    method Unlock()
      requires Valid()
      modifies this`locked, sectorsErased
      ensures Valid() && View() == UnlockStep(old(View()))
    {
      var i := 0;
      while i < SECTORS
        invariant 0 <= i <= SECTORS
        invariant forall s :: 0 <= s < i ==> !sectorsErased[s]
      {
        sectorsErased[i] := false;
        i := i + 1;
      }
      locked := false;
      assert sectorsErased[..] == seq(SECTORS, _ => false);
    }

    /** Hardware: a whole sector becomes erased. */
    method EraseSector(sector: nat)
      requires flash.Length == SIZE && sector < SECTORS
      modifies this`log, flash
      ensures log == old(log) + [Erase(sector)] && flash[..] == Erased(old(flash[..]), sector)
    {
      log := log + [Erase(sector)];
      forall a | 0 <= a < flash.Length && Sector(a) == sector {
        flash[a] := 255;
      }
    }

    /** Hardware: a double-word is programmed, if it is erased and nothing goes wrong. */
    method ProgramWord(word: nat, bytes: seq<nat>, fault: bool) returns (done: bool)
      requires flash.Length == SIZE && word <= SIZE - 8 && |bytes| == 8
      modifies this`log, flash
      ensures log == old(log) + [Program(word)]
      ensures done == (old(flash[word..word + 8]) == ERASED && !fault)
      ensures flash[..] == if done then Programmed(old(flash[..]), word, bytes) else old(flash[..])
    {
      log := log + [Program(word)];
      done := flash[word..word + 8] == ERASED && !fault;
      if done {
        forall a | word <= a < word + 8 {
          flash[a] := bytes[a - word];
        }
      }
    }

    /** True when the error code, 0 for success, says that the sector is erased. */
    method MaybeEraseSector(fault: bool) returns (ok: bool)
      requires Valid() && shadowStart != -1
      modifies this`log, flash, sectorsErased
      ensures Valid() && ok == (old(sectorsErased[Sector(shadowStart)]) || !fault)
      ensures View() == if ok then EraseStep(old(View())) else old(View())
      ensures log == old(log) + if !ok then [Blocked(Sector(shadowStart))]
        else if old(sectorsErased[Sector(shadowStart)]) then [] else [Erase(Sector(shadowStart))]
    {
      var sector := if shadowStart < 0x4_0000 then shadowStart / 2048 else 128 + (shadowStart - 0x4_0000) / 2048;
      SectorByBank(shadowStart);
      if sectorsErased[sector] {
        return true;
      }
      if fault {
        log := log + [Blocked(sector)];
        return false;
      }
      EraseSector(sector);
      sectorsErased[sector] := true;
      return true;
    }

    /** Programs the collected word behind its sector's erasure, unless it is there, and starts afresh. */
    method FlushWord(f: Faults) returns (ok: bool)
      requires Valid() && shadowStart != -1
      modifies this`log, this`shadowStart, this`shadow, this`shadowBits, flash, sectorsErased
      ensures Valid() && Did(old(log), ok, FlushStep(old(View()), f))
    {
      ok := MaybeEraseSector(f.erase);
      if !ok {
        return;
      }
      ok := ProgramCollected(f.program);
    }

    method ProgramCollected(fault: bool) returns (ok: bool)
      requires Valid() && shadowStart != -1
      modifies this`log, this`shadowStart, this`shadow, this`shadowBits, flash
      ensures Valid() && Did(old(log), ok, ProgramStep(old(View()), fault))
    {
      ghost var before, start := flash[..], shadowStart;
      assert before[start..start + 8] == flash[start..start + 8];
      ok := true;
      if flash[shadowStart..shadowStart + 8] != shadow {
        ok := ProgramWord(shadowStart, shadow, fault);
      } else {
        assert log + [] == log;
      }
      shadowStart, shadow, shadowBits := -1, ERASED, NONE_SET;
    }

    /** A word that another byte does not belong to goes out first. */
    method MakeRoom(a: nat, f: Faults) returns (ok: bool)
      requires Valid()
      modifies this`log, this`shadowStart, this`shadow, this`shadowBits, flash, sectorsErased
      ensures Valid() && Did(old(log), ok, RoomStep(old(View()), a, f))
    {
      ok := true;
      if Word(a) != shadowStart && shadowStart != -1 {
        ok := FlushWord(f);
      }
    }

    /** Puts a byte into the shadow, and flushes a word that is complete. */
    method Collect(a: nat, value: nat, f: Faults) returns (ok: bool)
      requires Valid() && WellFormed(CollectStep(View(), a, value))
      modifies this`log, this`shadowStart, this`shadow, this`shadowBits, flash, sectorsErased
      ensures Valid() && Did(old(log), ok, FullStep(CollectStep(old(View()), a, value), f))
    {
      shadowStart := Word(a);
      shadow, shadowBits := shadow[a - Word(a) := value], shadowBits[a - Word(a) := true];
      assert View() == CollectStep(old(View()), a, value);
      ok := true;
      if shadowBits == ALL_SET {
        ok := FlushWord(f);
      }
    }

    method ProgramByte(a: nat, value: nat, f: Faults) returns (ok: bool)
      requires Valid() && a < SIZE && !Protected(a)
      modifies this`log, this`shadowStart, this`shadow, this`shadowBits, flash, sectorsErased
      ensures Valid() && Did(old(log), ok, ByteStep(old(View()), a, value, f))
    {
      ghost var start, room := log, RoomStep(View(), a, f);
      ok := MakeRoom(a, f);
      if ok {
        CollectIsWellFormed(View(), a, value);
        Associates(start, room.ops, FullStep(CollectStep(View(), a, value), f).ops);
        ok := Collect(a, value, f);
      }
    }

    method Lock(f: Faults) returns (ok: bool)
      requires Valid()
      modifies this, flash, sectorsErased
      ensures Valid() && Did(old(log), ok, LockStep(old(View()), f))
    {
      if locked {
        return true;
      }
      if shadowBits != NONE_SET {
        ok := FlushWord(f);
        if !ok {
          return;
        }
      }
      locked := true;
      return true;
    }

    /** The command handler's checks. */
    method WriteByte(address: nat, value: nat, f: Faults, ghost p: Put) returns (ok: bool)
      requires Valid() && p == Put(address - BASE, value, f)
      modifies this`log, this`shadowStart, this`shadow, this`shadowBits, flash, sectorsErased
      ensures Valid() && Did(old(log), ok, PutStep(old(View()), p))
    {
      if locked {
        return false;
      }
      if address < 0x0800_0000 || address >= 0x0808_0000 {
        return false;
      }
      if address >= 0x0800_c000 && address < 0x0801_0000 {
        return false;
      }
      ok := ProgramByte(address - BASE, value, f);
    }

    /** An update of one run of bytes: its three commands, given up at the first that fails. */
    method Update(address: nat, data: seq<nat>, faults: seq<Faults>, f: Faults) returns (ok: bool)
      requires Valid() && shadowStart == -1 && |faults| == |data|
      modifies this, flash, sectorsErased
      ensures Valid() && Did(old(log), ok, Session(old(View()), Run(address - BASE, data, faults), f))
      ensures ok ==> BASE <= address || data == []
      ensures ok && BASE <= address ==> Updated(old(View()), flash[..], address - BASE, data)
    {
      ghost var s, ps, start := View(), Run(address - BASE, data, faults), log;
      RunIsRun(ps, address - BASE, data, faults);
      Unlock();
      ok := WriteFlash(address, data, faults, ps);
      if ok {
        Associates(start, Puts(UnlockStep(s), ps).ops, LockStep(View(), f).ops);
        ok := Lock(f);
      }
      UpdateCommits(s, address - BASE, data, faults, f);
    }

    /** The write command: consecutive bytes until one fails. */
    method WriteFlash(address: nat, data: seq<nat>, faults: seq<Faults>, ghost ps: seq<Put>) returns (ok: bool)
      requires Valid() && |faults| == |data| && IsRun(ps, address - BASE, data, faults)
      modifies this`log, this`shadowStart, this`shadow, this`shadowBits, flash, sectorsErased
      ensures Valid() && Did(old(log), ok, Puts(old(View()), ps))
    {
      ghost var s := View();
      var i := 0;
      ok := true;
      while i < |data|
        invariant 0 <= i <= |data| && ok && Valid()
        invariant Did(old(log), true, Puts(s, ps[..i]))
      {
        ok := WriteNext(address + i, data[i], faults[i], ps[i], s, ps[..i], old(log));
        assert ps[..i + 1] == ps[..i] + [ps[i]];
        if !ok {
          PutsStops(s, ps, i + 1);
          return;
        }
        i := i + 1;
      }
      assert ps[..|data|] == ps;
    }

    method WriteNext(address: nat, value: nat, f: Faults, ghost p: Put, ghost s: State, ghost before: seq<Put>,
                     ghost start: seq<Op>)
      returns (ok: bool)
      requires Valid() && p == Put(address - BASE, value, f) && WellFormed(s) && Did(start, true, Puts(s, before))
      modifies this`log, this`shadowStart, this`shadow, this`shadowBits, flash, sectorsErased
      ensures Valid() && Did(start, ok, Puts(s, before + [p]))
    {
      PutsAppend(s, before, p);
      Associates(start, Puts(s, before).ops, PutStep(View(), p).ops);
      ok := WriteByte(address, value, f, p);
    }
  }

  lemma PutsAppend(s: State, before: seq<Put>, p: Put)
    requires WellFormed(s) && Puts(s, before).ok
    ensures var o, n := Puts(s, before), PutStep(Puts(s, before).state, p);
      Puts(s, before + [p]) == Outcome(n.state, n.ok, o.ops + n.ops)
  {
    assert (before + [p])[..|before|] == before;
  }

  /** Nothing happens after a failure. */
  lemma {:induction false} PutsStops(s: State, ps: seq<Put>, i: nat)
    requires WellFormed(s) && i <= |ps| && !Puts(s, ps[..i]).ok
    ensures Puts(s, ps) == Puts(s, ps[..i])
  {
    if i < |ps| {
      assert ps[..|ps| - 1][..i] == ps[..i];
      PutsStops(s, ps[..|ps| - 1], i);
    } else {
      assert ps[..i] == ps;
    }
  }
}
