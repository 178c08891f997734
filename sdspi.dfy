/** The SD-card SPI master of the C model: a byte-shift state machine that
    walks `state` from 7 down to 0, raising and lowering `SCLK`, driving bit
    `state` of `data_in` on `MOSI` and sampling `MISO` into bit `state` of
    `data_out`, most significant bit first. */
module SdSpi {
  import opened Numbers

  /** Ticks of the SPI clock per instruction of the emulated processor. */
  const CPI := 3

  /** The largest number of instructions one `Advance` accounts for. */
  const MaxInstructions := 100

  // ---------------------------------------------------------------------
  // The registers as a value

  /** A C `uint8_t`. */
  newtype Byte = x: int | 0 <= x < 0x100

  /** A C `unsigned`. */
  newtype Word = x: int | 0 <= x < 0x1_0000_0000

  /** The level of a data line. */
  newtype Wire = x: int | 0 <= x < 2

  /** All fields of the SPI object. `w`, `ready`, `SCLK`, `MOSI`,
      `rcounter`, `state`, `ww` and `divider` are C `int`s; `data_in` and
      `data_out` are bytes; `chip_select` is an unsigned word; `MISO` is the
      data line from the card. */
  datatype Regs = Regs(
    chipSelect: Word,
    w: int,
    ready: int,
    dataOut: Byte,
    divider: int,
    dataIn: Byte,
    sclk: int,
    mosi: int,
    miso: Wire,
    rcounter: int,
    state: int,
    ww: int)

  /** `state` names a bit of a byte. */
  predicate Valid(r: Regs) {
    0 <= r.state <= 7
  }

  /** The fields as the object is constructed. */
  function InitialRegs(): (r: Regs)
    ensures Valid(r) && r.state == 7 && r.sclk == 0 && r.ready == 0
  {
    Regs(0xff, 0, 0, 0, 2, 0, 0, 1, 0, 0, 7, 0)
  }

  /** Bit `k` of `x`, counting from the least significant. */
  function BitOf(x: nat, k: nat): Wire
  {
    if k == 0 then (x % 2) as Wire else BitOf(x / 2, k - 1)
  }

  /** `x` with bit `k` replaced by `v`. */
  function WithBit(x: nat, k: nat, v: Wire): nat
  {
    if k == 0 then x - x % 2 + v as nat else 2 * WithBit(x / 2, k - 1, v) + x % 2
  }

  /** Replacing bit `k` gives bit `k` the new value and keeps every other
      bit. */
  lemma {:induction false} WithBitIs(x: nat, k: nat, v: Wire, j: nat)
    ensures BitOf(WithBit(x, k, v), j) == if j == k then v else BitOf(x, j)
    decreases k
  {
    if k == 0 {
      if j > 0 {
        assert (x - x % 2 + v as nat) / 2 == x / 2;
      }
    } else if j > 0 {
      var s := WithBit(x / 2, k - 1, v);
      assert (2 * s + x % 2) / 2 == s;
      WithBitIs(x / 2, k - 1, v, j - 1);
    }
  }

  /** Replacing a bit of an `n`-bit number gives an `n`-bit number. */
  lemma {:induction false} WithBitBound(x: nat, k: nat, v: Wire, n: nat)
    requires x < Pow2(n) && k < n
    ensures WithBit(x, k, v) < Pow2(n)
    decreases k
  {
    var half := Pow2(n - 1);
    assert Pow2(n) == 2 * half;
    assert x / 2 < half && x == 2 * (x / 2) + x % 2;
    if k > 0 {
      WithBitBound(x / 2, k - 1, v, n - 1);
      assert WithBit(x, k, v) == 2 * WithBit(x / 2, k - 1, v) + x % 2;
    } else {
      assert WithBit(x, k, v) == 2 * (x / 2) + v as nat;
    }
  }

  /** Bit `k` of a byte: `(b >> k) & 1` in the C code. */
  function Bit(b: Byte, k: nat): Wire
    requires k < 8
  {
    BitOf(b as nat, k)
  }

  /** A byte with bit `k` replaced by `v`: `(b & ~(1 << k)) | (v << k)` in
      the C code, which stays a byte. */
  function SetBit(b: Byte, k: nat, v: Wire): (r: Byte)
    requires k < 8
    ensures r as nat == WithBit(b as nat, k, v)
  {
    assert Pow2(8) == 0x100;
    WithBitBound(b as nat, k, v, 8);
    WithBit(b as nat, k, v) as Byte
  }

  /** Replacing bit `k` of a byte sets that bit and no other. */
  lemma SetBitAt(b: Byte, k: nat, v: Wire)
    requires k < 8
    ensures Bit(SetBit(b, k, v), k) == v
    ensures forall j :: 0 <= j < 8 && j != k ==> Bit(SetBit(b, k, v), j) == Bit(b, j)
  {
    WithBitIs(b as nat, k, v, k);
    forall j | 0 <= j < 8 && j != k
      ensures Bit(SetBit(b, k, v), j) == Bit(b, j)
    {
      WithBitIs(b as nat, k, v, j);
    }
  }

  /** The clock divider has run out, or a write has just been requested
      while no transfer is running: the state machine moves this tick. */
  predicate Enabled(r: Regs) {
    r.rcounter >= r.divider || (r.ww == 0 && r.w == 1 && r.ready == 0)
  }

  /** The move of the state machine on an enabled tick, on every field but
      the counter and the two data lines. */
  function Fire(r: Regs): (n: Regs)
    requires Valid(r)
    ensures Valid(n)
    ensures n == r.(ready := n.ready, sclk := n.sclk, ww := n.ww, state := n.state, dataOut := n.dataOut)
  {
    if r.state == 7 && r.sclk == 0 && r.ww == 0 && r.w == 1 then
      r.(ready := 1, sclk := 1, ww := r.w)
    else if r.sclk == 1 && r.state >= 1 then
      r.(state := r.state - 1, dataOut := SetBit(r.dataOut, r.state, r.miso), sclk := 0)
    else if r.sclk == 0 && r.state <= 6 then
      r.(sclk := 1)
    else if r.sclk == 1 && r.state == 0 then
      r.(dataOut := SetBit(r.dataOut, 0, r.miso), sclk := 0, state := 7, ready := 0, ww := r.w)
    else
      r.(sclk := 0, ready := 0, ww := r.w)
  }

  /** One call of the object: the counter and the state machine move, `MOSI`
      takes bit `state` of `data_in`, and `MISO` takes the answer of the card
      selected by bit 0 of `chip_select` (`miso0` when that bit is clear,
      else `miso1`). Everything is computed from the old fields. */
  function Step(r: Regs, miso0: Wire, miso1: Wire): (n: Regs)
    requires Valid(r)
    ensures Valid(n)
  {
    var moved := if Enabled(r) then Fire(r).(rcounter := 0) else r.(rcounter := r.rcounter + 1);
    moved.(mosi := Bit(r.dataIn, r.state) as int, miso := if r.chipSelect % 2 == 0 then miso0 else miso1)
  }

  /** The registers after one call per element of `answers`, each call
      answered by the two cards as that element says. */
  function Steps(r: Regs, answers: seq<(Wire, Wire)>): (s: Regs)
    requires Valid(r)
    ensures Valid(s)
    decreases |answers|
  {
    if answers == [] then r
    else
      var last := answers[|answers| - 1];
      Step(Steps(r, answers[..|answers| - 1]), last.0, last.1)
  }

  /** The first `n` answers of the cards. */
  function Answers(card: nat -> (Wire, Wire), n: nat): (s: seq<(Wire, Wire)>)
    ensures |s| == n && forall i :: 0 <= i < n ==> s[i] == card(i)
  {
    seq(n, i requires 0 <= i < n => card(i))
  }

  /** How many calls one `Advance` makes: none the first time, else three
      per instruction between the two program counters, the distance taken
      as an unsigned 32-bit number and clamped to 1..100. */
  function TickCount(prevPc: int, pc: int): (n: nat)
  {
    if prevPc == 0 then 0
    else
      var distance := (if prevPc < pc then pc - prevPc else prevPc - pc) % 0x1_0000_0000;
      var instructions := if distance == 0 then 1 else if distance > MaxInstructions then MaxInstructions else distance;
      instructions * CPI
  }

  // ---------------------------------------------------------------------
  // Properties of one step

  /** Running two stretches of calls one after the other is running them
      together. */
  lemma {:induction false} StepsSplit(r: Regs, first: seq<(Wire, Wire)>, second: seq<(Wire, Wire)>)
    requires Valid(r)
    ensures Steps(r, first + second) == Steps(Steps(r, first), second)
    decreases |second|
  {
    if second != [] {
      var all := first + second;
      assert all[..|all| - 1] == first + second[..|second| - 1];
      StepsSplit(r, first, second[..|second| - 1]);
    } else {
      assert first + second == first;
    }
  }

  /** An enabled step clears the counter; any other step counts up and
      leaves the state machine, its clock and `data_out` as they were. */
  lemma CounterAndEnable(r: Regs, miso0: Wire, miso1: Wire)
    requires Valid(r)
    ensures var n := Step(r, miso0, miso1);
            (Enabled(r) ==> n.rcounter == 0)
            && (!Enabled(r) ==>
                  n.rcounter == r.rcounter + 1 && n.state == r.state && n.sclk == r.sclk
                  && n.ready == r.ready && n.ww == r.ww && n.dataOut == r.dataOut)
  {
  }

  /** A step either leaves `data_out` alone, or replaces bit `state` by the
      sampled `MISO` and keeps every other bit. */
  lemma SamplesOneBit(r: Regs, miso0: Wire, miso1: Wire)
    requires Valid(r)
    ensures var n := Step(r, miso0, miso1);
            n.dataOut == r.dataOut
            || (Bit(n.dataOut, r.state) == r.miso
                && forall j :: 0 <= j < 8 && j != r.state ==> Bit(n.dataOut, j) == Bit(r.dataOut, j))
  {
    SetBitAt(r.dataOut, r.state, r.miso);
  }

  /** After every step `MOSI` carries bit (old `state`) of `data_in`. */
  lemma DrivesDataBit(r: Regs, miso0: Wire, miso1: Wire)
    requires Valid(r)
    ensures Step(r, miso0, miso1).mosi == Bit(r.dataIn, r.state) as int
  {
  }

  /** A write request in the idle state starts a transfer: `ready` and the
      clock rise, the request is latched, and `state` stays 7. */
  lemma StartsTransfer(r: Regs, miso0: Wire, miso1: Wire)
    requires Valid(r) && r.state == 7 && r.sclk == 0 && r.ww == 0 && r.w == 1
    requires r.ready == 0 || r.rcounter >= r.divider
    ensures var n := Step(r, miso0, miso1);
            n.ready == 1 && n.sclk == 1 && n.ww == r.w && n.state == 7 && n.rcounter == 0
  {
  }

  /** Inside a transfer an enabled step raises a low clock, or lowers a high
      clock and moves to the next lower bit after sampling the current one;
      after bit 0 the machine returns to state 7, drops `ready` and latches
      the write request. */
  lemma ShiftsOneBit(r: Regs, miso0: Wire, miso1: Wire)
    requires Valid(r) && Enabled(r)
    ensures var n := Step(r, miso0, miso1);
            (r.state <= 6 && r.sclk == 0 ==> n.sclk == 1 && n.state == r.state && n.dataOut == r.dataOut)
            && (r.state >= 1 && r.sclk == 1 ==>
                  n.sclk == 0 && n.state == r.state - 1 && n.dataOut == SetBit(r.dataOut, r.state, r.miso))
            && (r.state == 0 && r.sclk == 1 ==>
                  n.sclk == 0 && n.state == 7 && n.ready == 0 && n.ww == r.w
                  && n.dataOut == SetBit(r.dataOut, 0, r.miso))
  {
  }

  /** An idle machine whose write request is not new stays idle with the
      clock low. */
  lemma StaysIdle(r: Regs, miso0: Wire, miso1: Wire)
    requires Valid(r) && Enabled(r) && r.state == 7 && r.sclk == 0 && !(r.ww == 0 && r.w == 1)
    ensures var n := Step(r, miso0, miso1);
            n.state == 7 && n.sclk == 0 && n.ready == 0 && n.ww == r.w && n.dataOut == r.dataOut
  {
  }

  /** Every call moves the state machine: the divider is zero (or below)
      and the counter has reached it. */
  predicate FullSpeed(r: Regs) {
    r.divider <= 0 && r.rcounter >= r.divider
  }

  /** At full speed, the falling clock edge in state `k` (1 to 7) samples
      `MISO` into bit `k` and the next call raises the clock in state
      `k - 1`. */
  lemma {:induction false} ShiftPair(r: Regs, answers: seq<(Wire, Wire)>)
    requires Valid(r) && FullSpeed(r) && r.sclk == 1 && 1 <= r.state && |answers| == 2
    ensures var n := Steps(r, answers);
            FullSpeed(n) && n.state == r.state - 1 && n.sclk == 1 && n.ready == r.ready && n.w == r.w
            && n.dataOut == SetBit(r.dataOut, r.state, r.miso)
  {
    assert answers[..1][..0] == [] && answers[..1] == [answers[0]];
    var r1 := Step(r, answers[0].0, answers[0].1);
    assert Steps(r, answers[..1]) == r1;
  }

  /** A whole transfer at full speed: from the falling edge of bit `k`, after
      `2 * k + 1` calls the machine is idle again in state 7 with the clock
      low, and bit `j` of `data_out`, for every `j` up to `k`, holds the
      `MISO` level seen at the falling edge of bit `j`, which is `2 * (k - j)`
      calls in; the higher bits are as they were. */
  lemma {:induction false} Transfer(r: Regs, answers: seq<(Wire, Wire)>, k: nat)
    requires Valid(r) && FullSpeed(r) && r.state == k && r.sclk == 1 && |answers| == 2 * k + 1
    ensures var e := Steps(r, answers);
            e.state == 7 && e.sclk == 0 && e.ready == 0 && e.ww == r.w
            && (forall j :: 0 <= j <= k ==> Bit(e.dataOut, j) == Steps(r, answers[..2 * (k - j)]).miso)
            && (forall j :: k < j < 8 ==> Bit(e.dataOut, j) == Bit(r.dataOut, j))
    decreases k
  {
    var e := Steps(r, answers);
    if k == 0 {
      assert answers[..0] == [];
      SetBitAt(r.dataOut, 0, r.miso);
    } else {
      var head, tail := answers[..2], answers[2..];
      assert answers == head + tail;
      StepsSplit(r, head, tail);
      ShiftPair(r, head);
      var r2 := Steps(r, head);
      Transfer(r2, tail, k - 1);
      SetBitAt(r.dataOut, k, r.miso);
      assert answers[..0] == [];
      forall j | 0 <= j < k
        ensures Bit(e.dataOut, j) == Steps(r, answers[..2 * (k - j)]).miso
      {
        var m := 2 * (k - 1 - j);
        assert answers[..2 * (k - j)] == head + tail[..m];
        StepsSplit(r, head, tail[..m]);
      }
    }
  }

  /** The first `Advance` makes no call; every later one makes between 3
      and 300 calls, three per instruction. */
  lemma TickCountBounds(prevPc: int, pc: int)
    ensures prevPc == 0 ==> TickCount(prevPc, pc) == 0
    ensures prevPc != 0 ==>
              CPI <= TickCount(prevPc, pc) <= MaxInstructions * CPI && TickCount(prevPc, pc) % CPI == 0
    ensures prevPc != 0 && 0 < pc - prevPc <= MaxInstructions ==> TickCount(prevPc, pc) == (pc - prevPc) * CPI
    ensures prevPc != 0 && 0 < prevPc - pc <= MaxInstructions ==> TickCount(prevPc, pc) == (prevPc - pc) * CPI
  {
  }

  // ---------------------------------------------------------------------
  // The object

  /** The `SDSPI` object; the card simulators are not part of this model:
      their answers are the arguments of `Tick`. */
  class Spi {
    var chipSelect: Word
    var w: int
    var ready: int
    var dataOut: Byte
    var divider: int
    var dataIn: Byte
    var sclk: int
    var mosi: int
    var miso: Wire
    var rcounter: int
    var state: int
    var ww: int

    function Snapshot(): (r: Regs)
      reads this
      ensures r.state == state && r.sclk == sclk && r.dataOut == dataOut && r.ready == ready
    {
      Regs(chipSelect, w, ready, dataOut, divider, dataIn, sclk, mosi, miso, rcounter, state, ww)
    }

    constructor ()
      ensures Snapshot() == InitialRegs()
    {
      chipSelect := 0xff;
      w := 0;
      ready := 0;
      dataOut := 0;
      divider := 2;
      dataIn := 0;
      sclk := 0;
      mosi := 1;
      miso := 0;
      rcounter := 0;
      state := 7;
      ww := 0;
    }

    /** `operator()`: compute every new field from the old ones, then commit
        them together. */
    method Tick(miso0: Wire, miso1: Wire)
      requires Valid(Snapshot())
      modifies this
      ensures Snapshot() == Step(old(Snapshot()), miso0, miso1)
    {
      var rcounter', ready', sclk', ww', state', mosi', miso' := rcounter, ready, sclk, ww, state, mosi, miso;
      var dataOut' := dataOut;
      rcounter' := rcounter + 1;
      mosi' := Bit(dataIn, state) as int;
      if rcounter >= divider || (ww == 0 && w == 1 && ready == 0) {
        rcounter' := 0;
        ready', sclk', ww', state', dataOut' := MoveMachine();
      }
      if chipSelect % 2 == 0 {
        miso' := miso0;
      } else {
        miso' := miso1;
      }
      mosi := mosi';
      rcounter := rcounter';
      ready := ready';
      sclk := sclk';
      ww := ww';
      state := state';
      miso := miso';
      dataOut := dataOut';
    }

    /** The branch chain of `operator()` on an enabled tick: the new values
        of `ready`, `SCLK`, `ww`, `state` and `data_out`. */
    method MoveMachine() returns (ready': int, sclk': int, ww': int, state': int, dataOut': Byte)
      requires Valid(Snapshot())
      ensures var f := Fire(Snapshot());
              ready' == f.ready && sclk' == f.sclk && ww' == f.ww && state' == f.state && dataOut' == f.dataOut
    {
      ready', sclk', ww', state', dataOut' := ready, sclk, ww, state, dataOut;
      if state == 7 && sclk == 0 && ww == 0 && w == 1 {
        ready' := 1;
        sclk' := 1;
        ww' := w;
      } else if state == 7 && sclk == 1 {
        state' := 6;
        dataOut' := SetBit(dataOut, state, miso);
        sclk' := 0;
      } else if state == 6 && sclk == 0 {
        sclk' := 1;
      } else if state == 6 && sclk == 1 {
        state' := 5;
        dataOut' := SetBit(dataOut, state, miso);
        sclk' := 0;
      } else if state == 5 && sclk == 0 {
        sclk' := 1;
      } else if state == 5 && sclk == 1 {
        state' := 4;
        dataOut' := SetBit(dataOut, state, miso);
        sclk' := 0;
      } else if state == 4 && sclk == 0 {
        sclk' := 1;
      } else if state == 4 && sclk == 1 {
        state' := 3;
        dataOut' := SetBit(dataOut, state, miso);
        sclk' := 0;
      } else if state == 3 && sclk == 0 {
        sclk' := 1;
      } else if state == 3 && sclk == 1 {
        state' := 2;
        dataOut' := SetBit(dataOut, state, miso);
        sclk' := 0;
      } else if state == 2 && sclk == 0 {
        sclk' := 1;
      } else if state == 2 && sclk == 1 {
        state' := 1;
        dataOut' := SetBit(dataOut, state, miso);
        sclk' := 0;
      } else if state == 1 && sclk == 0 {
        sclk' := 1;
      } else if state == 1 && sclk == 1 {
        state' := 0;
        dataOut' := SetBit(dataOut, state, miso);
        sclk' := 0;
      } else if state == 0 && sclk == 0 {
        sclk' := 1;
      } else if state == 0 && sclk == 1 {
        dataOut' := SetBit(dataOut, state, miso);
        sclk' := 0;
        state' := 7;
        ready' := 0;
        ww' := w;
      } else {
        sclk' := 0;
        ready' := 0;
        ww' := w;
      }
    }
  }

  /** The globals of the C model: the one SPI object and the program
      counter seen by the previous call (0 before the first). */
  class Port {
    const spi: Spi
    var prevPc: int

    constructor ()
      ensures fresh(spi) && spi.Snapshot() == InitialRegs() && prevPc == 0
    {
      spi := new Spi();
      prevPc := 0;
    }

    /** `Advance`: catch the SPI object up with the processor, which has
        reached `pc`; the `k`-th call is answered by `card(k)`. */
    method Advance(pc: int, card: nat -> (Wire, Wire))
      requires Valid(spi.Snapshot())
      modifies this, spi
      ensures prevPc == pc
      ensures spi.Snapshot() == Steps(old(spi.Snapshot()), Answers(card, TickCount(old(prevPc), pc)))
    {
      ghost var start := spi.Snapshot();
      var ticks := 0;
      if prevPc != 0 {
        var distance := (if prevPc < pc then pc - prevPc else prevPc - pc) % 0x1_0000_0000;
        if distance == 0 {
          distance := 1;
        }
        if distance > MaxInstructions {
          distance := MaxInstructions;
        }
        ticks := distance * CPI;
      }
      assert ticks == TickCount(prevPc, pc);
      for i := 0 to ticks
        invariant spi.Snapshot() == Steps(start, Answers(card, i))
      {
        assert Answers(card, i + 1)[..i] == Answers(card, i);
        spi.Tick(card(i).0, card(i).1);
      }
      prevPc := pc;
    }

    /** `SDSPI_SetChipSelect`. */
    method SetChipSelect(cs: Word, pc: int, card: nat -> (Wire, Wire))
      requires Valid(spi.Snapshot())
      modifies this, spi
      ensures prevPc == pc
      ensures spi.Snapshot() == Steps(old(spi.Snapshot()), Answers(card, TickCount(old(prevPc), pc))).(chipSelect := cs)
    {
      Advance(pc, card);
      spi.chipSelect := cs;
    }

    /** `SDSPI_SetDataIn`. */
    method SetDataIn(data: Byte, pc: int, card: nat -> (Wire, Wire))
      requires Valid(spi.Snapshot())
      modifies this, spi
      ensures prevPc == pc
      ensures spi.Snapshot() == Steps(old(spi.Snapshot()), Answers(card, TickCount(old(prevPc), pc))).(dataIn := data)
    {
      Advance(pc, card);
      spi.dataIn := data;
    }

    /** `SDSPI_SetDivider`: the byte becomes the divider. */
    method SetDivider(div: Byte, pc: int, card: nat -> (Wire, Wire))
      requires Valid(spi.Snapshot())
      modifies this, spi
      ensures prevPc == pc
      ensures spi.Snapshot() == Steps(old(spi.Snapshot()), Answers(card, TickCount(old(prevPc), pc))).(divider := div as int)
    {
      Advance(pc, card);
      spi.divider := div as int;
    }

    /** `SDSPI_SetWriteEnable`. */
    method SetWriteEnable(enable: int, pc: int, card: nat -> (Wire, Wire))
      requires Valid(spi.Snapshot())
      modifies this, spi
      ensures prevPc == pc
      ensures spi.Snapshot() == Steps(old(spi.Snapshot()), Answers(card, TickCount(old(prevPc), pc))).(w := enable)
    {
      Advance(pc, card);
      spi.w := enable;
    }

    /** `SDSPI_GetDataOut`: the received byte after catching up. */
    method GetDataOut(pc: int, card: nat -> (Wire, Wire)) returns (data: Byte)
      requires Valid(spi.Snapshot())
      modifies this, spi
      ensures prevPc == pc
      ensures spi.Snapshot() == Steps(old(spi.Snapshot()), Answers(card, TickCount(old(prevPc), pc)))
      ensures data == spi.dataOut
    {
      Advance(pc, card);
      data := spi.dataOut;
    }

    /** `SDSPI_GetReady`: whether a transfer is running, after catching up. */
    method GetReady(pc: int, card: nat -> (Wire, Wire)) returns (ready: int)
      requires Valid(spi.Snapshot())
      modifies this, spi
      ensures prevPc == pc
      ensures spi.Snapshot() == Steps(old(spi.Snapshot()), Answers(card, TickCount(old(prevPc), pc)))
      ensures ready == spi.ready
    {
      Advance(pc, card);
      ready := spi.ready;
    }
  }
}
