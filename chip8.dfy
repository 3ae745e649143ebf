/** `struct Chip8` as an object: the fixed-size arrays of `Memory`,
    `Registers`, `Graphics`, `Stack` and `Keypad` are arrays updated in place,
    the scalars are mutable fields, and every handler of `impl Chip8` is a
    method that changes the object exactly as the transition of the same
    name in `Machine` changes the state value. */
module Interpreter {
  import opened Bits
  import opened OpCode
  import I = Instructions
  import M = Machine
  import P = Properties

  class Chip8 {
    const ram: array<u8>
    const v: array<u8>
    var i: u16
    var programCounter: u16
    const stack: array<u16>
    var stackPointer: u16
    const gfx: array<bool>
    var redraw: bool
    var delayTimer: u8
    var soundTimer: u8
    const keys: array<bool>

    /** The array sizes of the Rust struct; the two byte arrays and the two
        flag arrays are distinct objects. */
    ghost predicate Valid()
    {
      && ram.Length == M.RamSize && v.Length == M.RegisterCount && stack.Length == M.StackDepth
      && gfx.Length == M.ScreenSize && keys.Length == M.KeyCount
      && ram != v && gfx != keys
    }

    /** The object's contents as a `Machine.State`. */
    ghost function State(): (s: M.State)
      requires Valid()
      reads this, ram, v, stack, gfx, keys
      ensures M.WellFormed(s)
    {
      M.State(ram[..], v[..], i, programCounter, stack[..], stackPointer, gfx[..], redraw, delayTimer, soundTimer, keys[..])
    }

    /** `Chip8::initialize`: everything zero or false, the program counter at
        0x200, then the font loaded. */
    constructor Initialize()
      ensures Valid() && State() == M.Initialize()
      ensures fresh(ram) && fresh(v) && fresh(stack) && fresh(gfx) && fresh(keys)
    {
      ram := new u8[M.RamSize](_ => 0);
      v := new u8[M.RegisterCount](_ => 0);
      i := 0;
      programCounter := 0x200;
      stack := new u16[M.StackDepth](_ => 0);
      stackPointer := 0;
      gfx := new bool[M.ScreenSize](_ => false);
      redraw := false;
      delayTimer := 0;
      soundTimer := 0;
      keys := new bool[M.KeyCount](_ => false);
      new;
      assert State() == M.Zeroed();
      LoadFontSet();
    }

    /** `Memory::load_font_set`: copies the 80 font bytes to `ram[0..80]`. */
    method LoadFontSet()
      requires Valid()
      modifies ram
      ensures State() == M.LoadFontSet(old(State()))
    {
      for k := 0 to M.FontSetSize
        invariant ram[..k] == M.FontSet[..k]
        invariant ram[k..] == old(ram[k..])
      {
        ram[k] := M.FontSet[k];
      }
    }

    /** `Memory::load_rom`: copies the 3584-byte image to `ram[512..]`. */
    method LoadRom(rom: array<u8>)
      requires Valid() && rom.Length == M.RomSize
      modifies ram
      ensures State() == M.LoadRom(old(State()), old(rom[..]))
    {
      for k := 0 to M.RomSize
        invariant ram[..M.ProgramStart] == old(ram[..M.ProgramStart])
        invariant ram[M.ProgramStart..M.ProgramStart + k] == rom[..k]
      {
        ram[M.ProgramStart + k] := rom[k];
      }
    }

    /** `Registers::set_register_v_f_value`. */
    method SetRegisterVFValue(value: u8)
      requires Valid()
      modifies v
      ensures State() == M.SetRegisterVFValue(old(State()), value)
    {
      v[M.VF] := value;
    }

    /** `Registers::get_register_v_f_value`. */
    function GetRegisterVFValue(): (r: u8)
      requires Valid()
      reads this, v
      ensures r == v[..][M.VF]
    {
      v[M.VF]
    }

    /** `Memory::current_pixel_is_on`. */
    function MemoryPixelIsOn(registerI: u16, axisX: nat, axisY: nat): (r: bool)
      requires Valid() && axisX < 8 && M.RowAddress(registerI, axisY) < M.RamSize
      reads this, ram
      ensures r == M.MemoryPixelIsOn(ram[..], registerI, axisX, axisY)
      ensures r <==> axisX == 7 && ram[M.RowAddress(registerI, axisY)] % 2 == 1
    {
      P.MemoryPixelIsOnIff(ram[..], registerI, axisX, axisY);
      M.MemoryPixelIsOn(ram[..], registerI, axisX, axisY)
    }

    /** `Graphics::current_pixel_is_on`. */
    function GraphicsPixelIsOn(coordX: u8, axisX: u8, coordY: u8, axisY: u8): (r: bool)
      requires Valid()
      reads this, gfx
      ensures r == M.GraphicsPixelIsOn(gfx[..], coordX, axisX, coordY, axisY)
      ensures r == gfx[(coordX as int + axisX + 64 * (coordY as int + axisY)) % 0x100]
    {
      P.PixelIndexWraps(coordX, axisX, coordY, axisY);
      M.GraphicsPixelIsOn(gfx[..], coordX, axisX, coordY, axisY)
    }

    /** `Graphics::change_pixel_value`: negates a local copy of the cell, so
        the screen is left as it was. */
    method ChangePixelValue(coordX: u8, axisX: u8, coordY: u8, axisY: u8)
      requires Valid()
      ensures State() == old(State())
    {
      var pixel := gfx[M.PixelIndex(coordX, axisX, coordY, axisY)];
      pixel := !pixel;
    }

    /** `Chip8::fetch_op_code` as evidently intended (see `Machine`). */
    function FetchOpCode(): (op: u16)
      requires Valid() && programCounter as int + 1 < M.RamSize
      reads this, ram
      ensures op == 0x100 * (ram[programCounter] as int) + ram[programCounter + 1]
    {
      M.JoinBytes(ram[programCounter], ram[programCounter + 1]);
      Or(ShiftLeft(ram[programCounter], 8), ram[programCounter + 1])
    }

    // -------------------------------------------------------------------------
    // Control flow.

    /** `return_from_subroutine` (00EE). */
    method ReturnFromSubroutine()
      requires Valid() && 1 <= stackPointer as int <= M.StackDepth
      modifies this
      ensures State() == M.ReturnFromSubroutine(old(State()))
    {
      stackPointer := stackPointer - 1;
      programCounter := stack[stackPointer];
    }

    /** `jump_to_location` (1nnn). */
    method JumpToLocation(op: u16)
      requires Valid()
      modifies this
      ensures State() == M.JumpToLocation(old(State()), I.Address(op))
    {
      programCounter := Nnn(op);
    }

    /** `call_subroutine` (2nnn). */
    method CallSubroutine(op: u16)
      requires Valid() && stackPointer as int < M.StackDepth
      modifies this, stack
      ensures State() == M.CallSubroutine(old(State()), I.Address(op))
    {
      stack[stackPointer] := programCounter;
      stackPointer := stackPointer + 1;
      programCounter := Nnn(op);
    }

    /** `skip_next_if_vx_eq_kk` (3xkk). */
    method SkipNextIfVxEqKk(op: u16)
      requires Valid()
      modifies this
      ensures State() == M.SkipNextIfVxEqKk(old(State()), I.X(op), I.Byte(op))
    {
      if v[ExtractNibbleValue(op, 2)] == Kk(op) {
        programCounter := M.Advance(programCounter, 2);
      }
    }

    /** `skip_next_if_vx_neq_kk` (4xkk). */
    method SkipNextIfVxNeqKk(op: u16)
      requires Valid()
      modifies this
      ensures State() == M.SkipNextIfVxNeqKk(old(State()), I.X(op), I.Byte(op))
    {
      if v[ExtractNibbleValue(op, 2)] != Kk(op) {
        programCounter := M.Advance(programCounter, 2);
      }
    }

    /** `skip_next_if_vx_eq_vy` (5xy0). */
    method SkipNextIfVxEqVy(op: u16)
      requires Valid()
      modifies this
      ensures State() == M.SkipNextIfVxEqVy(old(State()), I.X(op), I.Y(op))
    {
      if v[ExtractNibbleValue(op, 2)] == v[ExtractNibbleValue(op, 3)] {
        programCounter := M.Advance(programCounter, 2);
      }
    }

    /** `skip_next_if_vx_neq_vy` (9xy0). */
    method SkipNextIfVxNeqVy(op: u16)
      requires Valid()
      modifies this
      ensures State() == M.SkipNextIfVxNeqVy(old(State()), I.X(op), I.Y(op))
    {
      if v[ExtractNibbleValue(op, 2)] != v[ExtractNibbleValue(op, 3)] {
        programCounter := M.Advance(programCounter, 2);
      }
    }

    /** `set_register_i_address` (Annn). */
    method SetRegisterIAddress(op: u16)
      requires Valid()
      modifies this
      ensures State() == M.SetRegisterIAddress(old(State()), I.Address(op))
    {
      i := Nnn(op);
      programCounter := M.Advance(programCounter, 2);
    }

    /** `jump_to_location_plus_v_0` (Bnnn). */
    method JumpToLocationPlusV0(op: u16)
      requires Valid()
      modifies this
      ensures State() == M.JumpToLocationPlusV0(old(State()), I.Address(op))
    {
      programCounter := Nnn(op) + v[0];
    }

    // -------------------------------------------------------------------------
    // Loads and arithmetic.

    /** `set_vx_to` (6xkk). */
    method SetVxTo(op: u16)
      requires Valid()
      modifies v
      ensures State() == M.SetVxTo(old(State()), I.X(op), I.Byte(op))
    {
      v[ExtractNibbleValue(op, 2)] := Kk(op);
    }

    /** `add_kk_to_vx` (7xkk). */
    method AddKkToVx(op: u16)
      requires Valid()
      modifies v
      ensures State() == M.AddKkToVx(old(State()), I.X(op), I.Byte(op))
    {
      var x := ExtractNibbleValue(op, 2);
      v[x] := (v[x] as int + Kk(op)) % 0x100;
    }

    /** `set_vx_to_vy` (8xy0). */
    method SetVxToVy(op: u16)
      requires Valid()
      modifies v
      ensures State() == M.SetVxToVy(old(State()), I.X(op), I.Y(op))
    {
      v[ExtractNibbleValue(op, 2)] := v[ExtractNibbleValue(op, 3)];
    }

    /** `set_vx_to_vx_and_vy_bitwise_or` (8xy1). */
    method SetVxToVxOrVy(op: u16)
      requires Valid()
      modifies v
      ensures State() == M.SetVxToVxOrVy(old(State()), I.X(op), I.Y(op))
    {
      var x := ExtractNibbleValue(op, 2);
      v[x] := Or8(v[x], v[ExtractNibbleValue(op, 3)]);
    }

    /** `set_vx_to_vx_and_vy_bitwise_and` (8xy2). */
    method SetVxToVxAndVy(op: u16)
      requires Valid()
      modifies v
      ensures State() == M.SetVxToVxAndVy(old(State()), I.X(op), I.Y(op))
    {
      var x := ExtractNibbleValue(op, 2);
      v[x] := And8(v[x], v[ExtractNibbleValue(op, 3)]);
    }

    /** `set_vx_to_vx_and_vy_bitwise_xor` (8xy3). */
    method SetVxToVxXorVy(op: u16)
      requires Valid()
      modifies v
      ensures State() == M.SetVxToVxXorVy(old(State()), I.X(op), I.Y(op))
    {
      var x := ExtractNibbleValue(op, 2);
      v[x] := Xor8(v[x], v[ExtractNibbleValue(op, 3)]);
    }

    /** `set_vx_to_vx_and_vy_sum` (8xy4). */
    method SetVxToVxAndVySum(op: u16)
      requires Valid()
      modifies v
      ensures State() == M.SetVxToVxAndVySum(old(State()), I.X(op), I.Y(op))
    {
      var sum := OverflowingAdd(v[ExtractNibbleValue(op, 2)], v[ExtractNibbleValue(op, 3)]);
      if sum.1 {
        SetRegisterVFValue(1);
      } else {
        SetRegisterVFValue(0);
      }
      v[ExtractNibbleValue(op, 2)] := sum.0;
    }

    /** `set_vx_to_vx_and_vy_difference` (8xy5). */
    method SetVxToVxAndVyDifference(op: u16)
      requires Valid()
      modifies v
      ensures State() == M.SetVxToVxAndVyDifference(old(State()), I.X(op), I.Y(op))
    {
      var difference := OverflowingSub(v[ExtractNibbleValue(op, 2)], v[ExtractNibbleValue(op, 3)]);
      if difference.1 {
        SetRegisterVFValue(0);
      } else {
        SetRegisterVFValue(1);
      }
      v[ExtractNibbleValue(op, 2)] := difference.0;
    }

    /** `set_vx_to_vx_shift_right` (8xy6). */
    method SetVxToVxShiftRight(op: u16)
      requires Valid()
      modifies v
      ensures State() == M.SetVxToVxShiftRight(old(State()), I.X(op))
    {
      SetRegisterVFValue(And8(v[ExtractNibbleValue(op, 2)], 1));
      var x := ExtractNibbleValue(op, 2);
      v[x] := ShiftRight8(v[x], 1);
    }

    /** `set_vx_to_vy_and_vx_difference` (8xy7). */
    method SetVxToVyAndVxDifference(op: u16)
      requires Valid()
      modifies v
      ensures State() == M.SetVxToVyAndVxDifference(old(State()), I.X(op), I.Y(op))
    {
      var difference := OverflowingSub(v[ExtractNibbleValue(op, 3)], v[ExtractNibbleValue(op, 2)]);
      if difference.1 {
        SetRegisterVFValue(0);
      } else {
        SetRegisterVFValue(1);
      }
      v[ExtractNibbleValue(op, 2)] := difference.0;
    }

    /** `set_vx_to_vx_shift_left` (8xyE). */
    method SetVxToVxShiftLeft(op: u16)
      requires Valid()
      modifies v
      ensures State() == M.SetVxToVxShiftLeft(old(State()), I.X(op))
    {
      SetRegisterVFValue(ShiftRight8(v[ExtractNibbleValue(op, 2)], 7));
      var x := ExtractNibbleValue(op, 2);
      v[x] := ShiftLeft8(v[x], 1);
    }

    /** `set_vx_to_random_and_kk` (Cxkk); `random` stands for `rng.gen()`. */
    method SetVxToRandomAndKk(op: u16, random: u8)
      requires Valid()
      modifies v
      ensures State() == M.SetVxToRandomAndKk(old(State()), I.X(op), I.Byte(op), random)
    {
      v[ExtractNibbleValue(op, 2)] := And8(Kk(op), random);
    }

    // -------------------------------------------------------------------------
    // Keypad, timers and the screen.

    /** `skip_next_if_key_pressed` (Ex9E). */
    method SkipNextIfKeyPressed(op: u16)
      requires Valid()
      modifies this
      ensures State() == M.SkipNextIfKeyPressed(old(State()), I.X(op))
    {
      if keys[ExtractNibbleValue(op, 2)] {
        programCounter := M.Advance(programCounter, 4);
      } else {
        programCounter := M.Advance(programCounter, 2);
      }
    }

    /** `skip_next_if_key_not_pressed` (ExA1). */
    method SkipNextIfKeyNotPressed(op: u16)
      requires Valid()
      modifies this
      ensures State() == M.SkipNextIfKeyNotPressed(old(State()), I.X(op))
    {
      if !keys[ExtractNibbleValue(op, 2)] {
        programCounter := M.Advance(programCounter, 4);
      } else {
        programCounter := M.Advance(programCounter, 2);
      }
    }

    /** `set_vx_to_delay_timer` (Fx07). */
    method SetVxToDelayTimer(op: u16)
      requires Valid()
      modifies v
      ensures State() == M.SetVxToDelayTimer(old(State()), I.X(op))
    {
      v[ExtractNibbleValue(op, 2)] := delayTimer;
    }

    /** `await_key_and_store_to_value_vx` (Fx0A): scans the keys in order and
        stores 1 at the first one down.  The source repeats the scan for
        ever; with a key down the first scan already finds it. */
    method AwaitKeyAndStoreToValueVx(op: u16)
      requires Valid() && M.SomeKeyPressed(State())
      modifies v
      ensures State() == M.AwaitKeyAndStoreToValueVx(old(State()), I.X(op))
    {
      for k := 0 to M.KeyCount
        invariant forall j :: 0 <= j < k ==> !keys[j]
      {
        if keys[k] {
          v[ExtractNibbleValue(op, 2)] := 1;
          return;
        }
      }
      assert false;
    }

    /** `set_delay_timer_to_vx` (Fx15). */
    method SetDelayTimerToVx(op: u16)
      requires Valid()
      modifies this
      ensures State() == M.SetDelayTimerToVx(old(State()), I.X(op))
    {
      delayTimer := v[ExtractNibbleValue(op, 2)];
    }

    /** `set_sound_timer_to_vx` (Fx18). */
    method SetSoundTimerToVx(op: u16)
      requires Valid()
      modifies this
      ensures State() == M.SetSoundTimerToVx(old(State()), I.X(op))
    {
      soundTimer := v[ExtractNibbleValue(op, 2)];
    }

    /** `set_i_to_sum_of_i_and_vx` (Fx1E). */
    method SetIToSumOfIAndVx(op: u16)
      requires Valid()
      modifies this
      ensures State() == M.SetIToSumOfIAndVx(old(State()), I.X(op))
    {
      i := (i as int + v[ExtractNibbleValue(op, 2)]) % 0x1_0000;
    }

    /** `clear_screen`. */
    method ClearScreen()
      requires Valid()
      modifies gfx
      ensures State() == M.ClearScreen(old(State()))
    {
      forall p | 0 <= p < M.ScreenSize {
        gfx[p] := false;
      }
    }

    /** `draw_sprite` (Dxyn): for each of the `v[n]` rows and each of the 8
        columns, skip the cell if the memory test holds, else raise VF when
        the display cell is on, then call `change_pixel_value`. */
    method DrawSprite(op: u16)
      requires Valid() && M.SpriteReadable(State(), v[ExtractNibbleValue(op, 4)])
      modifies this, v
      ensures State() == M.DrawSprite(old(State()), I.X(op), I.Y(op), I.N(op))
    {
      var coordX := v[ExtractNibbleValue(op, 2)];
      var coordY := v[ExtractNibbleValue(op, 3)];
      var height := v[ExtractNibbleValue(op, 4)];
      ghost var s := State();
      SetRegisterVFValue(0);
      for axisY := 0 to height
        invariant v[..] == s.v[M.VF := if M.RowsCollide(s, coordX, coordY, axisY) then 1 else 0]
        invariant State() == s.(v := v[..])
      {
        DrawRow(s, coordX, coordY, axisY, M.RowsCollide(s, coordX, coordY, axisY));
      }
      programCounter := M.Advance(programCounter, 2);
    }

    /** The inner loop of `draw_sprite` over the 8 columns of row `axisY`;
        `s` is the state the sprite loop started from and `collided` whether
        an earlier row raised VF. */
    method DrawRow(ghost s: M.State, coordX: u8, coordY: u8, axisY: u8, ghost collided: bool)
      requires Valid() && M.WellFormed(s) && M.RowAddress(s.i, axisY) < M.RamSize
      requires State() == s.(v := v[..]) && v[..] == s.v[M.VF := if collided then 1 else 0]
      modifies v
      ensures State() == s.(v := v[..])
      ensures v[..] == s.v[M.VF := if collided || M.RowCollides(s, coordX, coordY, axisY, 8) then 1 else 0]
    {
      for axisX := 0 to 8
        invariant v[..] == s.v[M.VF := if collided || M.RowCollides(s, coordX, coordY, axisY, axisX) then 1 else 0]
        invariant State() == s.(v := v[..])
      {
        if MemoryPixelIsOn(i, axisX, axisY) {
          continue;
        }
        if GraphicsPixelIsOn(coordX, axisX, coordY, axisY) {
          SetRegisterVFValue(1);
        }
        ChangePixelValue(coordX, axisX, coordY, axisY);
      }
    }

    // -------------------------------------------------------------------------
    // Dispatch.

    /** `Chip8::execute_op_code`: the same ranges in the same order; an
        opcode no arm matches returns without changing anything.  The
        precondition excludes an index out of bounds and the endless wait of
        `Fx0A`. */
    method ExecuteOpCode(op: u16, random: u8)
      requires Valid() && M.ExecuteOpCode(State(), op, random).Next?
      modifies this, v, stack
      ensures State() == M.ExecuteOpCode(old(State()), op, random).next
    {
      I.FieldsAreExtracted(op);
      ghost var s := State();
      if op == 0x00EE {
        M.ControlArms(s, op, random);
        ReturnFromSubroutine();
      } else if 0x1000 <= op <= 0x1FFF {
        M.ControlArms(s, op, random);
        JumpToLocation(op);
      } else if 0x2000 <= op <= 0x2FFF {
        M.ControlArms(s, op, random);
        CallSubroutine(op);
      } else if 0x3000 <= op <= 0x3FFF {
        M.ControlArms(s, op, random);
        SkipNextIfVxEqKk(op);
      } else if 0x4000 <= op <= 0x4FFF {
        M.ControlArms(s, op, random);
        SkipNextIfVxNeqKk(op);
      } else if 0x5000 <= op <= 0x5FF0 {
        M.ControlArms(s, op, random);
        SkipNextIfVxEqVy(op);
      } else if 0x6000 <= op <= 0x6FFF {
        M.LoadArms(s, op, random);
        SetVxTo(op);
      } else if 0x7000 <= op <= 0x7FFF {
        M.LoadArms(s, op, random);
        AddKkToVx(op);
      } else if 0x8000 <= op <= 0x8FFF {
        M.FamilyArms(s, op, random);
        ExecuteArithmetic(op);
      } else if 0x9000 <= op <= 0x9FFF {
        M.ControlArms(s, op, random);
        SkipNextIfVxNeqVy(op);
      } else if 0xA000 <= op <= 0xAFFF {
        M.LoadArms(s, op, random);
        SetRegisterIAddress(op);
      } else if 0xB000 <= op <= 0xBFFF {
        M.ControlArms(s, op, random);
        JumpToLocationPlusV0(op);
      } else if 0xC000 <= op <= 0xCFFF {
        M.LoadArms(s, op, random);
        SetVxToRandomAndKk(op, random);
      } else if 0xD000 <= op <= 0xDFFF {
        M.LoadArms(s, op, random);
        DrawSprite(op);
      } else if 0xE000 <= op <= 0xEFFF {
        M.FamilyArms(s, op, random);
        ExecuteKeypad(op);
      } else if 0xF000 <= op {
        M.FamilyArms(s, op, random);
        ExecuteMisc(op);
      }
    }

    /** The `0x8000...0x8FFF` arm, on nibble 4. */
    method ExecuteArithmetic(op: u16)
      requires Valid() && 0x8000 <= op <= 0x8FFF
      modifies v
      ensures State() == M.Execute(old(State()), I.DecodeArithmetic(op), 0).next
    {
      M.LogicArms(State(), op);
      M.ArithmeticArms(State(), op);
      match ExtractNibbleValue(op, 4)
      case 0 => SetVxToVy(op);
      case 1 => SetVxToVxOrVy(op);
      case 2 => SetVxToVxAndVy(op);
      case 3 => SetVxToVxXorVy(op);
      case 4 => SetVxToVxAndVySum(op);
      case 5 => SetVxToVxAndVyDifference(op);
      case 6 => SetVxToVxShiftRight(op);
      case 7 => SetVxToVyAndVxDifference(op);
      case 0xE => SetVxToVxShiftLeft(op);
      case _ => return;
    }

    /** The `0xE000...0xEFFF` arm, on nibble 3 only. */
    method ExecuteKeypad(op: u16)
      requires Valid() && 0xE000 <= op <= 0xEFFF
      modifies this
      ensures State() == M.Execute(old(State()), I.DecodeKeypad(op), 0).next
    {
      match ExtractNibbleValue(op, 3)
      case 9 => SkipNextIfKeyPressed(op);
      case 0xA => SkipNextIfKeyNotPressed(op);
      case _ => return;
    }

    /** The `0xF000...0xFFFF` arm, on nibble 3 and then nibble 4. */
    method ExecuteMisc(op: u16)
      requires Valid() && 0xF000 <= op && M.Execute(State(), I.DecodeMisc(op), 0).Next?
      modifies this, v
      ensures State() == M.Execute(old(State()), I.DecodeMisc(op), 0).next
    {
      match ExtractNibbleValue(op, 3)
      case 0 =>
        {
          match ExtractNibbleValue(op, 4)
          case 7 => SetVxToDelayTimer(op);
          case 0xA => AwaitKeyAndStoreToValueVx(op);
          case _ => return;
        }
      case 1 =>
        {
          match ExtractNibbleValue(op, 4)
          case 5 => SetDelayTimerToVx(op);
          case 8 => SetSoundTimerToVx(op);
          case 0xE => SetIToSumOfIAndVx(op);
          case _ => return;
        }
      case _ => return;
    }

    /** `Chip8::emulate_cycle`: fetch, execute, and nothing more. */
    method EmulateCycle(random: u8)
      requires Valid() && M.EmulateCycle(State(), random).Next?
      modifies this, v, stack
      ensures State() == M.EmulateCycle(old(State()), random).next
    {
      var op := FetchOpCode();
      ExecuteOpCode(op, random);
    }
  }
}
