/** What the transitions of `Machine` mean: the value each handler stores,
    what it leaves alone, how handlers undo or complete one another, and the
    invariants every instruction keeps. */
module Properties {
  import opened Bits
  import opened Machine
  import I = Instructions
  import OpCode

  // ---------------------------------------------------------------------------
  // Initialisation and loading.

  /** After `initialize` the font is at 0..80, the rest of RAM is zero, the
      program counter is 0x200 and every other field is zero or false. */
  lemma InitializeState()
    ensures var r := Initialize();
      && r.ram[..FontSetSize] == FontSet
      && (forall a :: FontSetSize <= a < RamSize ==> r.ram[a] == 0)
      && (forall k :: 0 <= k < RegisterCount ==> r.v[k] == 0)
      && r.i == 0 && r.pc == ProgramStart
      && (forall k :: 0 <= k < StackDepth ==> r.stack[k] == 0) && r.sp == 0
      && (forall p :: 0 <= p < ScreenSize ==> !r.gfx[p]) && !r.redraw
      && r.delayTimer == 0 && r.soundTimer == 0
      && (forall k :: 0 <= k < KeyCount ==> !r.keys[k])
  {
    var r := Initialize();
    forall a | FontSetSize <= a < RamSize
      ensures r.ram[a] == 0
    {
      assert r.ram[a] == Zeroed().ram[FontSetSize..][a - FontSetSize];
    }
  }

  /** `load_font_set` changes exactly `ram[0..80]`. */
  lemma LoadFontSetChangesOnlyFont(s: State)
    requires WellFormed(s)
    ensures var r := LoadFontSet(s);
      r.ram[..FontSetSize] == FontSet && r.ram[FontSetSize..] == s.ram[FontSetSize..] && r.(ram := s.ram) == s
  {
  }

  /** `load_rom` changes exactly `ram[512..4096]`, which then holds the image. */
  lemma LoadRomChangesOnlyProgram(s: State, rom: seq<u8>)
    requires WellFormed(s) && |rom| == RomSize
    ensures var r := LoadRom(s, rom);
      r.ram[..ProgramStart] == s.ram[..ProgramStart] && r.ram[ProgramStart..] == rom && r.(ram := s.ram) == s
  {
  }

  /** Loading a program after `initialize` keeps the font. */
  lemma LoadRomKeepsFont(rom: seq<u8>)
    requires |rom| == RomSize
    ensures LoadRom(Initialize(), rom).ram[..FontSetSize] == FontSet
  {
    var s := Initialize();
    LoadFontSetChangesOnlyFont(Zeroed());
    assert LoadRom(s, rom).ram[..FontSetSize] == s.ram[..ProgramStart][..FontSetSize];
  }

  // ---------------------------------------------------------------------------
  // Register VF.

  /** The VF getter reads back what the setter wrote; nothing else changes. */
  lemma RegisterVFRoundTrip(s: State, value: u8)
    requires WellFormed(s)
    ensures var r := SetRegisterVFValue(s, value);
      && GetRegisterVFValue(r) == value
      && (forall k :: 0 <= k < VF ==> r.v[k] == s.v[k])
      && r.(v := s.v) == s
  {
  }

  /** Only register `x` may differ between `s` and `r`. */
  predicate OnlyRegisterChanged(s: State, r: State, x: I.Nibble)
    requires WellFormed(s) && WellFormed(r)
  {
    && (forall k :: 0 <= k < RegisterCount && k != x ==> r.v[k] == s.v[k])
    && r.(v := s.v) == s
  }

  /** Only register `x` and the flag VF may differ between `s` and `r`. */
  predicate OnlyRegisterAndFlagChanged(s: State, r: State, x: I.Nibble)
    requires WellFormed(s) && WellFormed(r)
  {
    && (forall k :: 0 <= k < VF && k != x ==> r.v[k] == s.v[k])
    && r.(v := s.v) == s
  }

  // ---------------------------------------------------------------------------
  // Call and return.

  /** The live part of the stack, bottom first. */
  function CallStack(s: State): seq<u16>
    requires WellFormed(s) && s.sp <= StackDepth
  {
    s.stack[..s.sp]
  }

  /** `2nnn` pushes the old program counter and jumps; nothing else changes. */
  lemma CallSubroutinePushes(s: State, nnn: I.Addr)
    requires WellFormed(s) && CanCall(s)
    ensures var r := CallSubroutine(s, nnn);
      && r.pc == nnn && r.sp == s.sp + 1
      && CallStack(r) == CallStack(s) + [s.pc]
      && (forall k :: 0 <= k < StackDepth && k != s.sp ==> r.stack[k] == s.stack[k])
      && r.(stack := s.stack, sp := s.sp, pc := s.pc) == s
  {
    var r := CallSubroutine(s, nnn);
    assert CallStack(r) == CallStack(s) + [s.pc];
  }

  /** `00EE` pops the stack into the program counter; nothing else changes. */
  lemma ReturnFromSubroutinePops(s: State)
    requires WellFormed(s) && CanReturn(s)
    ensures var r := ReturnFromSubroutine(s);
      && r.sp == s.sp - 1 && r.pc == s.stack[s.sp - 1]
      && CallStack(s) == CallStack(r) + [r.pc]
      && r.(sp := s.sp, pc := s.pc) == s
  {
    var r := ReturnFromSubroutine(s);
    assert CallStack(s) == CallStack(r) + [r.pc];
  }

  /** A call immediately followed by a return restores the program counter
      and the stack pointer; the only trace left is the stack cell written. */
  lemma CallThenReturn(s: State, nnn: I.Addr, random: u8)
    requires WellFormed(s) && CanCall(s)
    ensures var c := CallSubroutine(s, nnn);
      && Execute(c, I.ReturnFromSubroutine, random) == Next(s.(stack := s.stack[s.sp := s.pc]))
      && CallStack(ReturnFromSubroutine(c)) == CallStack(s)
  {
    var c := CallSubroutine(s, nnn);
    CallSubroutinePushes(s, nnn);
    ReturnFromSubroutinePops(c);
  }

  /** A call on a full stack and a return on an empty one index out of
      bounds. */
  lemma StackBoundsPanic(s: State, nnn: I.Addr, random: u8)
    requires WellFormed(s)
    ensures Execute(s, I.CallSubroutine(nnn), random) == Panic <==> s.sp >= StackDepth
    ensures Execute(s, I.ReturnFromSubroutine, random) == Panic <==> s.sp == 0 || s.sp > StackDepth
  {
  }

  /** `Dxyn` panics exactly when a row of its sprite lies past the end of RAM. */
  lemma SpriteBoundsPanic(s: State, x: I.Nibble, y: I.Nibble, n: I.Nibble, random: u8)
    requires WellFormed(s)
    ensures Execute(s, I.DrawSprite(x, y, n), random) == Panic <==> !SpriteReadable(s, s.v[n])
  {
  }

  /** The stack pointer never runs past the 16 entries of the stack. */
  predicate StackInRange(s: State)
  {
    s.sp <= StackDepth
  }

  /** `initialize` starts with an empty stack. */
  lemma InitializeStackInRange()
    ensures Initialize().sp == 0 && StackInRange(Initialize())
  {
  }

  /** Every instruction that continues keeps the stack pointer in range: a
      call only pushes below 16 entries and a return only pops a live one. */
  lemma ExecuteKeepsStackInRange(s: State, ins: I.Instruction, random: u8)
    requires WellFormed(s) && StackInRange(s)
    ensures var o := Execute(s, ins, random); o.Next? ==> StackInRange(o.next)
  {
  }

  /** So from `initialize` on, every cycle that continues keeps it, and a
      return panics only on an empty stack. */
  lemma CycleKeepsStackInRange(s: State, random: u8)
    requires WellFormed(s) && StackInRange(s)
    ensures var o := EmulateCycle(s, random); o.Next? ==> StackInRange(o.next)
    ensures Execute(s, I.ReturnFromSubroutine, random) == Panic <==> s.sp == 0
  {
    if CanFetch(s) {
      ExecuteKeepsStackInRange(s, I.Decode(FetchOpCode(s)), random);
    }
    StackBoundsPanic(s, 0, random);
  }

  // ---------------------------------------------------------------------------
  // Jumps and skips.

  /** `1nnn` and `Bnnn` set only the program counter, `Annn` sets `I` and
      advances by 2; every other field is unchanged. */
  lemma JumpsAndAddressLoad(s: State, nnn: I.Addr)
    requires WellFormed(s)
    ensures var r := JumpToLocation(s, nnn); r.pc == nnn && r.(pc := s.pc) == s
    ensures var r := JumpToLocationPlusV0(s, nnn); r.pc == nnn + s.v[0] < 0x1100 && r.(pc := s.pc) == s
    ensures var r := SetRegisterIAddress(s, nnn); r.i == nnn && r.pc == (s.pc + 2) % 0x1_0000 && r.(i := s.i, pc := s.pc) == s
  {
  }

  /** The skip condition of the opcodes `3xkk`, `4xkk`, `5xy?` and `9xy?`. */
  predicate SkipCondition(s: State, op: u16)
    requires WellFormed(s)
  {
    var x, y, kk := I.X(op), I.Y(op), I.Byte(op);
    if op < 0x4000 then s.v[x] == kk
    else if op < 0x5000 then s.v[x] != kk
    else if op < 0x9000 then s.v[x] == s.v[y]
    else s.v[x] != s.v[y]
  }

  /** The conditional skips add 2 to the program counter when their
      condition holds and change nothing at all otherwise. */
  lemma SkipOpCodes(s: State, op: u16, random: u8)
    requires WellFormed(s)
    requires 0x3000 <= op <= 0x4FFF || 0x5000 <= op <= 0x5FF0 || 0x9000 <= op <= 0x9FFF
    ensures ExecuteOpCode(s, op, random) == Next(if SkipCondition(s, op) then s.(pc := (s.pc + 2) % 0x1_0000) else s)
  {
  }

  /** `Ex9E` and `ExA1` look up key `x` (the nibble, not `Vx`) and add 4 or
      2; no other field changes. */
  lemma KeySkipOpCodes(s: State, op: u16, random: u8)
    requires WellFormed(s) && 0xE000 <= op <= 0xEFFF && (I.Y(op) == 0x9 || I.Y(op) == 0xA)
    ensures var pressed := s.keys[I.X(op)];
      var skip := if I.Y(op) == 0x9 then pressed else !pressed;
      ExecuteOpCode(s, op, random) == Next(s.(pc := (s.pc + if skip then 4 else 2) % 0x1_0000))
  {
  }

  // ---------------------------------------------------------------------------
  // Loads, timers and the index register.

  /** `6xkk`, `7xkk`, `8xy0` and `Fx07` change only `Vx`; `7xkk` wraps and
      sets no flag. */
  lemma RegisterLoads(s: State, x: I.Nibble, y: I.Nibble, kk: u8)
    requires WellFormed(s)
    ensures var r := SetVxTo(s, x, kk); r.v[x] == kk && OnlyRegisterChanged(s, r, x)
    ensures var r := AddKkToVx(s, x, kk); r.v[x] == (s.v[x] as int + kk) % 0x100 && OnlyRegisterChanged(s, r, x)
    ensures var r := SetVxToVy(s, x, y); r.v[x] == s.v[y] && OnlyRegisterChanged(s, r, x)
    ensures var r := SetVxToDelayTimer(s, x); r.v[x] == s.delayTimer && OnlyRegisterChanged(s, r, x)
  {
  }

  /** `Fx15`, `Fx18` and `Fx1E` change only their destination. */
  lemma TimerAndIndexLoads(s: State, x: I.Nibble)
    requires WellFormed(s)
    ensures var r := SetDelayTimerToVx(s, x); r.delayTimer == s.v[x] && r.(delayTimer := s.delayTimer) == s
    ensures var r := SetSoundTimerToVx(s, x); r.soundTimer == s.v[x] && r.(soundTimer := s.soundTimer) == s
    ensures var r := SetIToSumOfIAndVx(s, x); r.i == (s.i + s.v[x]) % 0x1_0000 && r.(i := s.i) == s
  {
  }

  /** Writing the delay timer from `Vx` and reading it into `Vy` copies `Vx`
      to `Vy`. */
  lemma DelayTimerRoundTrip(s: State, x: I.Nibble, y: I.Nibble)
    requires WellFormed(s)
    ensures var r := SetVxToDelayTimer(SetDelayTimerToVx(s, x), y);
      r.v[y] == s.v[x] && r.delayTimer == s.v[x] && OnlyRegisterChanged(s.(delayTimer := s.v[x]), r, y)
  {
  }

  /** `Annn` then `Fx1E` points `I` at `nnn + Vx`. */
  lemma IndexOffset(s: State, nnn: I.Addr, x: I.Nibble)
    requires WellFormed(s)
    ensures SetIToSumOfIAndVx(SetRegisterIAddress(s, nnn), x).i == nnn + s.v[x]
  {
  }

  // ---------------------------------------------------------------------------
  // Arithmetic and logic.

  /** `8xy4` with `x != F`: the low byte of the sum in `Vx`, the carry in VF. */
  lemma AddWithCarry(s: State, x: I.Nibble, y: I.Nibble)
    requires WellFormed(s) && x != VF
    ensures var r := SetVxToVxAndVySum(s, x, y);
      && r.v[x] == (s.v[x] as int + s.v[y]) % 0x100
      && (r.v[VF] == 1 <==> s.v[x] as int + s.v[y] > 0xFF) && r.v[VF] <= 1
      && r.v[x] as int + 0x100 * (r.v[VF] as int) == s.v[x] as int + s.v[y]
      && OnlyRegisterAndFlagChanged(s, r, x)
  {
  }

  /** `8xy5` and `8xy7` with `x != F`: the wrapped difference in `Vx`, VF set
      exactly when the minuend is at least the subtrahend. */
  lemma SubtractWithBorrow(s: State, x: I.Nibble, y: I.Nibble)
    requires WellFormed(s) && x != VF
    ensures var r := SetVxToVxAndVyDifference(s, x, y);
      && r.v[x] == (s.v[x] as int - s.v[y]) % 0x100
      && (r.v[VF] == 1 <==> s.v[x] >= s.v[y]) && r.v[VF] <= 1
      && r.v[x] == s.v[x] as int - s.v[y] + 0x100 * (1 - r.v[VF] as int)
      && OnlyRegisterAndFlagChanged(s, r, x)
    ensures var r := SetVxToVyAndVxDifference(s, x, y);
      && r.v[x] == (s.v[y] as int - s.v[x]) % 0x100
      && (r.v[VF] == 1 <==> s.v[y] >= s.v[x]) && r.v[VF] <= 1
      && r.v[x] == s.v[y] as int - s.v[x] + 0x100 * (1 - r.v[VF] as int)
      && OnlyRegisterAndFlagChanged(s, r, x)
  {
  }

  /** With `x == F` the flag is written first and the result overwrites it. */
  lemma ArithmeticIntoFlag(s: State, y: I.Nibble)
    requires WellFormed(s)
    ensures var r := SetVxToVxAndVySum(s, VF, y); r.v[VF] == (s.v[VF] as int + s.v[y]) % 0x100 && OnlyRegisterChanged(s, r, VF)
    ensures var r := SetVxToVxAndVyDifference(s, VF, y); r.v[VF] == (s.v[VF] as int - s.v[y]) % 0x100 && OnlyRegisterChanged(s, r, VF)
    ensures var r := SetVxToVyAndVxDifference(s, VF, y); r.v[VF] == (s.v[y] as int - s.v[VF]) % 0x100 && OnlyRegisterChanged(s, r, VF)
  {
  }

  /** `8xy6` with `x != F`: VF gets the bit shifted out, `Vx` is halved;
      `Vy` and the program counter are untouched. */
  lemma ShiftRightMeaning(s: State, x: I.Nibble)
    requires WellFormed(s) && x != VF
    ensures var r := SetVxToVxShiftRight(s, x);
      r.v[x] == s.v[x] / 2 && r.v[VF] == s.v[x] % 2 && OnlyRegisterAndFlagChanged(s, r, x)
  {
    AndOne(s.v[x]);
    assert Pow2(1) == 2;
  }

  /** `8xyE` with `x != F`: VF gets the top bit, `Vx` is doubled modulo 256. */
  lemma ShiftLeftMeaning(s: State, x: I.Nibble)
    requires WellFormed(s) && x != VF
    ensures var r := SetVxToVxShiftLeft(s, x);
      r.v[x] == 2 * (s.v[x] as int) % 0x100 && r.v[VF] == s.v[x] / 0x80 && OnlyRegisterAndFlagChanged(s, r, x)
  {
    assert Pow2(1) == 2;
    assert Pow2(7) == 0x80;
  }

  /** With `x == F` the shifts act on the flag just written: `8Fy6` always
      leaves 0 in VF, `8FyE` leaves twice the old top bit. */
  lemma ShiftIntoFlag(s: State)
    requires WellFormed(s)
    ensures var r := SetVxToVxShiftRight(s, VF); r.v[VF] == 0 && OnlyRegisterChanged(s, r, VF)
    ensures var r := SetVxToVxShiftLeft(s, VF); r.v[VF] == 2 * (s.v[VF] / 0x80) && OnlyRegisterChanged(s, r, VF)
  {
    AndOne(s.v[VF]);
    assert Pow2(1) == 2;
    assert Pow2(7) == 0x80;
  }

  /** `8xy1`, `8xy2`, `8xy3` and `Cxkk` bit by bit: each bit of the new `Vx`
      is the or, and, xor of the operands' bits. */
  lemma BitwiseMeaning(s: State, x: I.Nibble, y: I.Nibble, kk: u8, random: u8, j: nat)
    requires WellFormed(s)
    ensures var a, b := Bit(s.v[x], j), Bit(s.v[y], j);
      && Bit(SetVxToVxOrVy(s, x, y).v[x], j) == (if a == 1 || b == 1 then 1 else 0)
      && Bit(SetVxToVxAndVy(s, x, y).v[x], j) == a * b
      && Bit(SetVxToVxXorVy(s, x, y).v[x], j) == (if a != b then 1 else 0)
      && Bit(SetVxToRandomAndKk(s, x, kk, random).v[x], j) == Bit(kk, j) * Bit(random, j)
  {
    OrBit(s.v[x], s.v[y], j);
    AndBit(s.v[x], s.v[y], j);
    XorBit(s.v[x], s.v[y], j);
    AndBit(kk, random, j);
  }

  /** `8xy1`, `8xy2`, `8xy3` and `Cxkk` change only `Vx`, and `Cxkk` never
      stores more than `kk`. */
  lemma BitwiseFrame(s: State, x: I.Nibble, y: I.Nibble, kk: u8, random: u8)
    requires WellFormed(s)
    ensures OnlyRegisterChanged(s, SetVxToVxOrVy(s, x, y), x)
    ensures OnlyRegisterChanged(s, SetVxToVxAndVy(s, x, y), x)
    ensures OnlyRegisterChanged(s, SetVxToVxXorVy(s, x, y), x)
    ensures var r := SetVxToRandomAndKk(s, x, kk, random); r.v[x] <= kk && OnlyRegisterChanged(s, r, x)
  {
  }

  /** `8xy3` twice with `x != y` gives the state back. */
  lemma XorTwiceRestores(s: State, x: I.Nibble, y: I.Nibble)
    requires WellFormed(s) && x != y
    ensures SetVxToVxXorVy(SetVxToVxXorVy(s, x, y), x, y) == s
  {
    var r := SetVxToVxXorVy(SetVxToVxXorVy(s, x, y), x, y);
    assert r.v == s.v;
  }

  /** `8xx1` and `8xx2` change nothing. */
  lemma OrAndWithItself(s: State, x: I.Nibble)
    requires WellFormed(s)
    ensures SetVxToVxOrVy(s, x, x) == s && SetVxToVxAndVy(s, x, x) == s
  {
    AndOrSelf(s.v[x]);
    assert s.v[x := s.v[x]] == s.v;
  }

  // ---------------------------------------------------------------------------
  // Drawing.

  /** The skip test `ram[i + ay] & (0x80 >> ax) == 1` can only hold for the
      last column, where the mask is 1, and then holds when the row byte is
      odd. */
  lemma MemoryPixelIsOnIff(ram: seq<u8>, registerI: u16, axisX: nat, axisY: nat)
    requires |ram| == RamSize && RowAddress(registerI, axisY) < RamSize && axisX < 8
    ensures MemoryPixelIsOn(ram, registerI, axisX, axisY) <==> axisX == 7 && ram[RowAddress(registerI, axisY)] % 2 == 1
  {
    var b := ram[RowAddress(registerI, axisY)];
    var j := 7 - axisX;
    assert Pow2(7) == 0x80;
    ShiftLeftIsMul(1, 7);
    ShiftRightOfBit(7, axisX);
    SingleBit(b, j);
    var bit := ShiftRight(b, j) % 2;
    ShiftLeftIsMul(bit, j);
    if j > 0 {
      assert Pow2(j) == 2 * Pow2(j - 1);
      assert bit * Pow2(j) != 1 by {
        if bit == 1 {
          assert bit * Pow2(j) == Pow2(j);
        }
      }
    }
  }

  lemma ModAdd(a: int, b: int, m: int)
    requires m > 0
    ensures (a % m + b % m) % m == (a + b) % m
  {
    var t := a % m + b % m;
    assert a + b == m * (a / m + b / m + t / m) + t % m;
    DivModUnique(a + b, m, a / m + b / m + t / m, t % m);
  }

  lemma ModScale(b: int)
    ensures (b % 0x100 * 64) % 0x100 == (b * 64) % 0x100
  {
    var t := b % 0x100 * 64;
    assert b * 64 == 0x100 * (64 * (b / 0x100) + t / 0x100) + t % 0x100;
    DivModUnique(b * 64, 0x100, 64 * (b / 0x100) + t / 0x100, t % 0x100);
  }

  /** The display index is the usual `x + 64 y` reduced modulo 256: only the
      first 256 of the 2048 cells are ever consulted. */
  lemma PixelIndexWraps(coordX: u8, axisX: u8, coordY: u8, axisY: u8)
    ensures PixelIndex(coordX, axisX, coordY, axisY) == (coordX + axisX + 64 * (coordY + axisY)) % 0x100
  {
    var a, b := coordX as int + axisX, coordY as int + axisY;
    ModScale(b);
    ModAdd(a, b * 64, 0x100);
    assert PixelIndex(coordX, axisX, coordY, axisY) == (a % 0x100 + (b * 64) % 0x100) % 0x100;
  }

  lemma {:induction false} RowCollidesIff(s: State, coordX: u8, coordY: u8, axisY: nat, count: nat)
    requires WellFormed(s) && count <= 8 && axisY < 0x100 && RowAddress(s.i, axisY) < RamSize
    ensures RowCollides(s, coordX, coordY, axisY, count) <==>
            exists axisX :: 0 <= axisX < count && CellCollides(s, coordX, coordY, axisX, axisY)
    decreases count
  {
    if count > 0 {
      RowCollidesIff(s, coordX, coordY, axisY, count - 1);
    }
  }

  /** The row-by-row recursion of the sprite loop finds a collision exactly
      when some cell of the sprite collides. */
  lemma {:induction false} RowsCollideIff(s: State, coordX: u8, coordY: u8, rows: nat)
    requires WellFormed(s) && rows <= 0x100 && SpriteReadable(s, rows)
    ensures RowsCollide(s, coordX, coordY, rows) <==> Collision(s, coordX, coordY, rows)
    decreases rows
  {
    if rows > 0 {
      RowsCollideIff(s, coordX, coordY, rows - 1);
      RowCollidesIff(s, coordX, coordY, rows - 1, 8);
      if Collision(s, coordX, coordY, rows) && !Collision(s, coordX, coordY, rows - 1) {
        var axisY, axisX :| 0 <= axisY < rows && 0 <= axisX < 8 && CellCollides(s, coordX, coordY, axisX, axisY);
        assert axisY == rows - 1;
      }
    }
  }

  /** `Dxyn`: VF ends 1 exactly when some cell of the `v[n]`-row sprite
      collides, the screen and the redraw flag are unchanged, the program
      counter advances by 2, and nothing else changes. */
  lemma DrawSpriteMeaning(s: State, x: I.Nibble, y: I.Nibble, n: I.Nibble)
    requires WellFormed(s) && SpriteReadable(s, s.v[n])
    ensures var r := DrawSprite(s, x, y, n);
      && r.v[VF] == (if Collision(s, s.v[x], s.v[y], s.v[n]) then 1 else 0)
      && r.pc == (s.pc + 2) % 0x1_0000
      && r.gfx == s.gfx && r.redraw == s.redraw
      && OnlyRegisterChanged(s.(pc := r.pc), r, VF)
  {
    RowsCollideIff(s, s.v[x], s.v[y], s.v[n]);
  }

  /** On a blank screen no sprite collides. */
  lemma DrawOnBlankScreen(s: State, x: I.Nibble, y: I.Nibble, n: I.Nibble)
    requires WellFormed(s) && SpriteReadable(s, s.v[n])
    requires forall p :: 0 <= p < ScreenSize ==> !s.gfx[p]
    ensures GetRegisterVFValue(DrawSprite(s, x, y, n)) == 0
  {
    DrawSpriteMeaning(s, x, y, n);
  }

  /** A lit display cell under any of the first seven columns of the sprite
      is a collision, whatever the sprite's bits. */
  lemma DrawSeesLitCell(s: State, x: I.Nibble, y: I.Nibble, n: I.Nibble, axisX: u8, axisY: u8)
    requires WellFormed(s) && SpriteReadable(s, s.v[n])
    requires axisX < 7 && axisY < s.v[n] && GraphicsPixelIsOn(s.gfx, s.v[x], axisX, s.v[y], axisY)
    ensures GetRegisterVFValue(DrawSprite(s, x, y, n)) == 1
  {
    MemoryPixelIsOnIff(s.ram, s.i, axisX, axisY);
    assert CellCollides(s, s.v[x], s.v[y], axisX, axisY);
    DrawSpriteMeaning(s, x, y, n);
  }

  /** `clear_screen` blanks every cell and changes nothing else; it is
      idempotent, and `00E0` does not reach it. */
  lemma ClearScreenMeaning(s: State, random: u8)
    requires WellFormed(s)
    ensures var r := ClearScreen(s);
      && (forall p :: 0 <= p < ScreenSize ==> !r.gfx[p])
      && r.(gfx := s.gfx) == s
      && ClearScreen(r) == r
    ensures ExecuteOpCode(s, 0x00E0, random) == Next(s)
  {
  }

  // ---------------------------------------------------------------------------
  // Invariants of every instruction.

  /** No instruction writes RAM, the screen, the redraw flag or the keys. */
  lemma ExecuteKeepsMemoryAndScreen(s: State, ins: I.Instruction, random: u8)
    requires WellFormed(s)
    ensures var o := Execute(s, ins, random);
      o.Next? ==> o.next.ram == s.ram && o.next.gfx == s.gfx && o.next.redraw == s.redraw && o.next.keys == s.keys
  {
    match ins
    case Arithmetic(op, x, y) =>
    case DrawSprite(x, y, n) =>
      if SpriteReadable(s, s.v[n]) {
        DrawSpriteMeaning(s, x, y, n);
      }
    case _ =>
  }

  /** Only an out-of-bounds call, return or sprite read panics, and only
      `Fx0A` with no key down hangs. */
  lemma PanicAndHangCauses(s: State, op: u16, random: u8)
    requires WellFormed(s)
    ensures ExecuteOpCode(s, op, random) == Panic ==>
      || (I.Decode(op) == I.ReturnFromSubroutine && !CanReturn(s))
      || (I.Decode(op).CallSubroutine? && !CanCall(s))
      || (I.Decode(op).DrawSprite? && !SpriteReadable(s, s.v[I.N(op)]))
    ensures ExecuteOpCode(s, op, random) == Hang <==>
      0xF000 <= op && op % 0x100 == 0x0A && forall k :: 0 <= k < KeyCount ==> !s.keys[k]
  {
    I.DecodeNoOpIff(op);
    if 0xF000 <= op {
      OpCode.LowDigits(op);
    }
  }

  /** `Fx0A` hangs exactly when no key is down; otherwise it stores 1 in
      `Vx`, whichever key it was, and leaves the program counter alone. */
  lemma AwaitKey(s: State, x: I.Nibble, random: u8)
    requires WellFormed(s)
    ensures var o := Execute(s, I.Misc(I.AwaitKeyAndStoreToVx, x), random);
      && (o.Hang? <==> forall k :: 0 <= k < KeyCount ==> !s.keys[k])
      && (o.Next? ==> o.next.v[x] == 1 && OnlyRegisterChanged(s, o.next, x))
  {
  }

  /** An unmatched opcode changes nothing (there is no default advance). */
  lemma UnmatchedChangesNothing(s: State, op: u16, random: u8)
    requires WellFormed(s) && I.Unmatched(op)
    ensures ExecuteOpCode(s, op, random) == Next(s)
  {
    I.DecodeNoOpIff(op);
  }

  /** So a cycle on an unmatched opcode leaves the machine where it was, and
      the next cycle fetches the same opcode again. */
  lemma UnknownOpCodeStalls(s: State, random: u8)
    requires WellFormed(s) && CanFetch(s) && I.Unmatched(FetchOpCode(s))
    ensures EmulateCycle(s, random) == Next(s)
  {
    UnmatchedChangesNothing(s, FetchOpCode(s), random);
  }

  // ---------------------------------------------------------------------------
  // Fetch.

  /** An instruction stored big-endian at the program counter is fetched
      and decoded back, and a cycle executes it. */
  lemma FetchDecodesStoredInstruction(s: State, ins: I.Instruction, random: u8)
    requires WellFormed(s) && CanFetch(s)
    requires s.ram[s.pc] == I.Encode(ins) / 0x100 && s.ram[s.pc + 1] == I.Encode(ins) % 0x100
    ensures I.Decode(FetchOpCode(s)) == ins
    ensures EmulateCycle(s, random) == Execute(s, ins, random)
  {
    I.DecodeEncode(ins);
  }

  /** The fetch as written or-s the two bytes together; it agrees with the
      intended fetch only when the high byte is zero, and what it yields
      decodes to nothing but `00EE` and no-ops. */
  lemma FetchAsWrittenDropsHighByte(s: State)
    requires WellFormed(s) && CanFetch(s)
    ensures FetchOpCodeAsWritten(s) == Or(s.ram[s.pc], s.ram[s.pc + 1])
    ensures FetchOpCodeAsWritten(s) == FetchOpCode(s) <==> s.ram[s.pc] == 0
    ensures var ins := I.Decode(FetchOpCodeAsWritten(s)); ins == I.ReturnFromSubroutine || ins == I.NoOp
  {
  }

  /** The bytes `12 00` (jump to 0x200) are fetched as written as `0x0012`. */
  lemma FetchAsWrittenCounterexample(s: State)
    requires WellFormed(s) && CanFetch(s) && s.ram[s.pc] == 0x12 && s.ram[s.pc + 1] == 0x00
    ensures FetchOpCode(s) == 0x1200 && I.Decode(FetchOpCode(s)) == I.JumpToLocation(0x200)
    ensures FetchOpCodeAsWritten(s) == 0x0012 && I.Decode(FetchOpCodeAsWritten(s)) == I.NoOp
  {
    assert FetchOpCode(s) == 0x1200;
    assert I.Decode(0x1200) == I.JumpToLocation(0x200);
    assert FetchOpCodeAsWritten(s) == Or(0x12, 0x00) == 0x12;
    assert I.Decode(0x0012) == I.NoOp;
  }

  // ---------------------------------------------------------------------------
  // The unit tests of src/main.rs, as lemmas over any state that matches
  // their set-up.

  /** `can_process_op_00ee`: a call to 0x001 and a return restore pc and sp. */
  lemma CallReturnScenario(s: State, random: u8)
    requires WellFormed(s) && s.pc == 0x2DAB && s.sp == 3
    ensures var o := ExecuteOpCode(s, 0x2001, random);
      o.Next? && var p := ExecuteOpCode(o.next, 0x00EE, random);
      p.Next? && p.next.pc == 0x2DAB && p.next.sp == 3
  {
  }

  /** `can_process_op_8_xy_4`: 0xFF + 0x03 gives 0x02 with carry, then 0x02
      + 0x03 gives 0x05 without. */
  lemma AddScenario(s: State, random: u8)
    requires WellFormed(s) && s.v[2] == 0xFF && s.v[5] == 0x03
    ensures var o := ExecuteOpCode(s, 0x8254, random);
      && o.Next? && o.next.v[2] == 0x02 && o.next.v[VF] == 1 && o.next.v[5] == 0x03
      && var p := ExecuteOpCode(o.next, 0x8254, random);
      p.Next? && p.next.v[2] == 0x05 && p.next.v[VF] == 0
  {
  }

  /** `can_process_op_8_xy_5`: 0xAA - 0xBB gives 0xEF with borrow, then
      0xEF - 0xBB gives 0x34 without. */
  lemma SubtractScenario(s: State, random: u8)
    requires WellFormed(s) && s.v[2] == 0xAA && s.v[5] == 0xBB
    ensures var o := ExecuteOpCode(s, 0x8255, random);
      && o.Next? && o.next.v[2] == 0xEF && o.next.v[VF] == 0 && o.next.v[5] == 0xBB
      && var p := ExecuteOpCode(o.next, 0x8255, random);
      p.Next? && p.next.v[2] == 0x34 && p.next.v[VF] == 1
  {
  }

  /** `can_process_op_8_xy_6`: 0xA1 shifts to 0x50 with VF 1, then to 0x28
      with VF 0. */
  lemma ShiftRightScenario(s: State, random: u8)
    requires WellFormed(s) && s.v[2] == 0xA1
    ensures var o := ExecuteOpCode(s, 0x8256, random);
      && o.Next? && o.next.v[2] == 0x50 && o.next.v[VF] == 1
      && var p := ExecuteOpCode(o.next, 0x8256, random);
      p.Next? && p.next.v[2] == 0x28 && p.next.v[VF] == 0
  {
    ShiftRightMeaning(s, 2);
    ShiftRightMeaning(ExecuteOpCode(s, 0x8256, random).next, 2);
  }

  /** `can_process_op_b_nnn`: 0x123 + 0xAA is 0x1CD. */
  lemma JumpPlusV0Scenario(s: State, random: u8)
    requires WellFormed(s) && s.v[0] == 0xAA
    ensures var o := ExecuteOpCode(s, 0xB123, random); o.Next? && o.next.pc == 0x01CD
  {
  }

  /** `can_process_op_e_x_9e`: with keys 2 and F down, `E29E` skips, `E19F`
      (key 1 up) does not, and `EF90` (nibble 3 is 9) skips on key F. */
  lemma KeyPressedScenario(s: State, random: u8)
    requires WellFormed(s) && s.pc == 0xA2 && s.keys[0x2] && !s.keys[0x1] && s.keys[0xF]
    ensures var o := ExecuteOpCode(s, 0xE29E, random);
      && o.Next? && o.next.pc == 0xA6
      && var p := ExecuteOpCode(o.next, 0xE19F, random);
      && p.Next? && p.next.pc == 0xA8
      && var q := ExecuteOpCode(p.next, 0xEF90, random);
      q.Next? && q.next.pc == 0xAC
  {
  }

  /** `can_process_op_f_x_0a`: with key 2 down, `F50A` stores 1 in V5. */
  lemma AwaitKeyScenario(s: State, random: u8)
    requires WellFormed(s) && s.keys[0x2]
    ensures var o := ExecuteOpCode(s, 0xF50A, random); o.Next? && o.next.v[5] == 1
  {
  }
}
