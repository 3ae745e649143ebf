/** The state of `struct Chip8` (src/main.rs:5-42) as a value, and one pure
    state transition per handler of `impl Chip8` (src/main.rs:130-418).

    Every transition is written the way its handler is: the same reads, the
    same order of writes (VF before Vx), the same wrap-around of a build
    without overflow checks.  An array access out of bounds, which would
    panic, is excluded by a precondition on the handler and reported as
    `Panic` by `Execute`. */
module Machine {
  import opened Bits
  import I = Instructions

  const RamSize := 4096
  const RegisterCount := 16
  const StackDepth := 16
  const ScreenSize := 64 * 32
  const KeyCount := 16
  const FontSetSize := 80
  const ProgramStart := 0x200
  const RomSize := 4096 - 512
  /** Index of the flag register VF. */
  const VF := 0xF

  /** The sixteen 5-byte digit glyphs of `load_font_set`. */
  const FontSet: seq<u8> := [
    0xF0, 0x90, 0x90, 0x90, 0xF0, // 0
    0x20, 0x60, 0x20, 0x20, 0x70, // 1
    0xF0, 0x10, 0xF0, 0x80, 0xF0, // 2
    0xF0, 0x10, 0xF0, 0x10, 0xF0, // 3
    0x90, 0x90, 0xF0, 0x10, 0x10, // 4
    0xF0, 0x80, 0xF0, 0x10, 0xF0, // 5
    0xF0, 0x80, 0xF0, 0x90, 0xF0, // 6
    0xF0, 0x10, 0x20, 0x40, 0x40, // 7
    0xF0, 0x90, 0xF0, 0x90, 0xF0, // 8
    0xF0, 0x90, 0xF0, 0x10, 0xF0, // 9
    0xF0, 0x90, 0xF0, 0x90, 0x90, // A
    0xE0, 0x90, 0xE0, 0x90, 0xE0, // B
    0xF0, 0x80, 0x80, 0x80, 0xF0, // C
    0xE0, 0x90, 0x90, 0x90, 0xE0, // D
    0xF0, 0x80, 0xF0, 0x80, 0xF0, // E
    0xF0, 0x80, 0xF0, 0x80, 0x80  // F
  ]

  /** `Memory`, `Registers`, `Graphics`, `Timers`, `Stack` and `Keypad`,
      flattened into one record (the random-number generator is not state
      here: `Cxkk` takes the random byte as a parameter). */
  datatype State = State(
    ram: seq<u8>,
    v: seq<u8>,
    i: u16,
    pc: u16,
    stack: seq<u16>,
    sp: u16,
    gfx: seq<bool>,
    redraw: bool,
    delayTimer: u8,
    soundTimer: u8,
    keys: seq<bool>)

  /** The fixed array sizes of the Rust struct. */
  predicate WellFormed(s: State)
  {
    && |s.ram| == RamSize
    && |s.v| == RegisterCount
    && |s.stack| == StackDepth
    && |s.gfx| == ScreenSize
    && |s.keys| == KeyCount
  }

  /** What one instruction does: a next state, an index out of bounds (a
      panic), or the endless busy-wait of `Fx0A` with no key down. */
  datatype Outcome = Next(next: State) | Panic | Hang

  /** `program_counter += n` on a `u16`. */
  function Advance(pc: u16, n: nat): u16
  {
    (pc + n) % 0x1_0000
  }

  // ---------------------------------------------------------------------------
  // Initialisation and loading.

  /** `load_font_set`: `ram[..80].copy_from_slice(&font_set)`. */
  function LoadFontSet(s: State): (r: State)
    requires WellFormed(s)
    ensures WellFormed(r)
  {
    s.(ram := FontSet + s.ram[FontSetSize..])
  }

  /** `load_rom`: `ram[512..].copy_from_slice(rom)` with a 3584-byte image. */
  function LoadRom(s: State, rom: seq<u8>): (r: State)
    requires WellFormed(s) && |rom| == RomSize
    ensures WellFormed(r)
  {
    s.(ram := s.ram[..ProgramStart] + rom)
  }

  /** The struct literal of `Chip8::initialize`, before the font is loaded. */
  function Zeroed(): (r: State)
    ensures WellFormed(r)
  {
    State(seq(RamSize, _ => 0), seq(RegisterCount, _ => 0), 0, 0x200,
          seq(StackDepth, _ => 0), 0, seq(ScreenSize, _ => false), false, 0, 0,
          seq(KeyCount, _ => false))
  }

  /** `Chip8::initialize`. */
  function Initialize(): (r: State)
    ensures WellFormed(r)
  {
    LoadFontSet(Zeroed())
  }

  // ---------------------------------------------------------------------------
  // Register VF.

  /** `Registers::set_register_v_f_value`. */
  function SetRegisterVFValue(s: State, value: u8): (r: State)
    requires WellFormed(s)
    ensures WellFormed(r)
  {
    s.(v := s.v[VF := value])
  }

  /** `Registers::get_register_v_f_value`. */
  function GetRegisterVFValue(s: State): u8
    requires WellFormed(s)
  {
    s.v[VF]
  }

  /** Writes register `x`. */
  function SetV(s: State, x: I.Nibble, value: u8): (r: State)
    requires WellFormed(s)
    ensures WellFormed(r)
  {
    s.(v := s.v[x := value])
  }

  // ---------------------------------------------------------------------------
  // Fetch.

  /** Both bytes of the instruction at the program counter can be read. */
  predicate CanFetch(s: State)
  {
    s.pc + 1 < RamSize
  }

  /** `fetch_op_code` as evidently intended: the byte at `pc` widened to 16
      bits, shifted into the high half, or-ed with the byte at `pc + 1`. */
  function FetchOpCode(s: State): (op: u16)
    requires WellFormed(s) && CanFetch(s)
    ensures op == 0x100 * (s.ram[s.pc] as int) + s.ram[s.pc + 1]
  {
    var high, low := s.ram[s.pc], s.ram[s.pc + 1];
    JoinBytes(high, low);
    Or(ShiftLeft(high, 8), low)
  }

  /** Shifting a byte up by 8 leaves room for the low byte: or is addition. */
  lemma JoinBytes(high: u8, low: u8)
    ensures Or(ShiftLeft(high, 8), low) == 0x100 * (high as int) + low
  {
    assert Pow2(8) == 0x100;
    OrShifted(high, low, 8);
    ShiftLeftIsMul(high, 8);
  }

  /** `fetch_op_code` as written, read with an unchecked shift:
      `ram[pc] << 8` shifts a `u8` by its full width. rustc rejects such a
      constant shift by default (the `arithmetic_overflow` lint); were the
      lint allowed, the unchecked shift would take the amount modulo 8, and
      only the or-ed byte is widened. */
  function FetchOpCodeAsWritten(s: State): (op: u16)
    requires WellFormed(s) && CanFetch(s)
    ensures op < 0x100
  {
    Or8(WrappingShl8(s.ram[s.pc], 8), s.ram[s.pc + 1])
  }

  // ---------------------------------------------------------------------------
  // Control flow.

  predicate CanReturn(s: State)
  {
    1 <= s.sp <= StackDepth
  }

  predicate CanCall(s: State)
  {
    s.sp < StackDepth
  }

  /** `return_from_subroutine` (00EE): decrement, then load. */
  function ReturnFromSubroutine(s: State): (r: State)
    requires WellFormed(s) && CanReturn(s)
    ensures WellFormed(r)
  {
    var sp := s.sp - 1;
    s.(sp := sp, pc := s.stack[sp])
  }

  /** `jump_to_location` (1nnn). */
  function JumpToLocation(s: State, nnn: I.Addr): (r: State)
    requires WellFormed(s)
    ensures WellFormed(r)
  {
    s.(pc := nnn)
  }

  /** `call_subroutine` (2nnn): store, then increment, then jump. */
  function CallSubroutine(s: State, nnn: I.Addr): (r: State)
    requires WellFormed(s) && CanCall(s)
    ensures WellFormed(r)
  {
    s.(stack := s.stack[s.sp := s.pc], sp := s.sp + 1, pc := nnn)
  }

  /** Adds 2 to the program counter when `skip` holds. */
  function SkipIf(s: State, skip: bool): (r: State)
    requires WellFormed(s)
    ensures WellFormed(r)
  {
    if skip then s.(pc := Advance(s.pc, 2)) else s
  }

  /** `skip_next_if_vx_eq_kk` (3xkk). */
  function SkipNextIfVxEqKk(s: State, x: I.Nibble, kk: u8): (r: State)
    requires WellFormed(s)
    ensures WellFormed(r)
  {
    SkipIf(s, s.v[x] == kk)
  }

  /** `skip_next_if_vx_neq_kk` (4xkk). */
  function SkipNextIfVxNeqKk(s: State, x: I.Nibble, kk: u8): (r: State)
    requires WellFormed(s)
    ensures WellFormed(r)
  {
    SkipIf(s, s.v[x] != kk)
  }

  /** `skip_next_if_vx_eq_vy` (5xy0). */
  function SkipNextIfVxEqVy(s: State, x: I.Nibble, y: I.Nibble): (r: State)
    requires WellFormed(s)
    ensures WellFormed(r)
  {
    SkipIf(s, s.v[x] == s.v[y])
  }

  /** `skip_next_if_vx_neq_vy` (9xy0). */
  function SkipNextIfVxNeqVy(s: State, x: I.Nibble, y: I.Nibble): (r: State)
    requires WellFormed(s)
    ensures WellFormed(r)
  {
    SkipIf(s, s.v[x] != s.v[y])
  }

  /** `set_register_i_address` (Annn): the only load that also advances. */
  function SetRegisterIAddress(s: State, nnn: I.Addr): (r: State)
    requires WellFormed(s)
    ensures WellFormed(r)
  {
    s.(i := nnn, pc := Advance(s.pc, 2))
  }

  /** `jump_to_location_plus_v_0` (Bnnn); the sum is below 0x1100, so it
      never wraps. */
  function JumpToLocationPlusV0(s: State, nnn: I.Addr): (r: State)
    requires WellFormed(s)
    ensures WellFormed(r)
  {
    s.(pc := nnn + s.v[0])
  }

  // ---------------------------------------------------------------------------
  // Loads and arithmetic.

  /** `set_vx_to` (6xkk). */
  function SetVxTo(s: State, x: I.Nibble, kk: u8): (r: State)
    requires WellFormed(s)
    ensures WellFormed(r)
  {
    SetV(s, x, kk)
  }

  /** `add_kk_to_vx` (7xkk): `+=` on a `u8`, no flag. */
  function AddKkToVx(s: State, x: I.Nibble, kk: u8): (r: State)
    requires WellFormed(s)
    ensures WellFormed(r)
  {
    SetV(s, x, (s.v[x] as int + kk) % 0x100)
  }

  /** `set_vx_to_vy` (8xy0). */
  function SetVxToVy(s: State, x: I.Nibble, y: I.Nibble): (r: State)
    requires WellFormed(s)
    ensures WellFormed(r)
  {
    SetV(s, x, s.v[y])
  }

  /** `set_vx_to_vx_and_vy_bitwise_or` (8xy1). */
  function SetVxToVxOrVy(s: State, x: I.Nibble, y: I.Nibble): (r: State)
    requires WellFormed(s)
    ensures WellFormed(r)
  {
    SetV(s, x, Or8(s.v[x], s.v[y]))
  }

  /** `set_vx_to_vx_and_vy_bitwise_and` (8xy2). */
  function SetVxToVxAndVy(s: State, x: I.Nibble, y: I.Nibble): (r: State)
    requires WellFormed(s)
    ensures WellFormed(r)
  {
    SetV(s, x, And8(s.v[x], s.v[y]))
  }

  /** `set_vx_to_vx_and_vy_bitwise_xor` (8xy3). */
  function SetVxToVxXorVy(s: State, x: I.Nibble, y: I.Nibble): (r: State)
    requires WellFormed(s)
    ensures WellFormed(r)
  {
    SetV(s, x, Xor8(s.v[x], s.v[y]))
  }

  /** `set_vx_to_vx_and_vy_sum` (8xy4): VF from the overflow, then Vx. */
  function SetVxToVxAndVySum(s: State, x: I.Nibble, y: I.Nibble): (r: State)
    requires WellFormed(s)
    ensures WellFormed(r)
  {
    var sum := OverflowingAdd(s.v[x], s.v[y]);
    var flagged := SetRegisterVFValue(s, if sum.1 then 1 else 0);
    SetV(flagged, x, sum.0)
  }

  /** `set_vx_to_vx_and_vy_difference` (8xy5): VF is "no borrow", then Vx. */
  function SetVxToVxAndVyDifference(s: State, x: I.Nibble, y: I.Nibble): (r: State)
    requires WellFormed(s)
    ensures WellFormed(r)
  {
    var difference := OverflowingSub(s.v[x], s.v[y]);
    var flagged := SetRegisterVFValue(s, if difference.1 then 0 else 1);
    SetV(flagged, x, difference.0)
  }

  /** `set_vx_to_vy_and_vx_difference` (8xy7): Vy - Vx into Vx. */
  function SetVxToVyAndVxDifference(s: State, x: I.Nibble, y: I.Nibble): (r: State)
    requires WellFormed(s)
    ensures WellFormed(r)
  {
    var difference := OverflowingSub(s.v[y], s.v[x]);
    var flagged := SetRegisterVFValue(s, if difference.1 then 0 else 1);
    SetV(flagged, x, difference.0)
  }

  /** `set_vx_to_vx_shift_right` (8xy6): VF := Vx & 1, then `Vx >>= 1` on the
      register as it is after the flag was written. */
  function SetVxToVxShiftRight(s: State, x: I.Nibble): (r: State)
    requires WellFormed(s)
    ensures WellFormed(r)
  {
    var flagged := SetRegisterVFValue(s, And8(s.v[x], 1));
    SetV(flagged, x, ShiftRight8(flagged.v[x], 1))
  }

  /** `set_vx_to_vx_shift_left` (8xyE): VF := Vx >> 7, then `Vx <<= 1` on the
      register as it is after the flag was written. */
  function SetVxToVxShiftLeft(s: State, x: I.Nibble): (r: State)
    requires WellFormed(s)
    ensures WellFormed(r)
  {
    var flagged := SetRegisterVFValue(s, ShiftRight8(s.v[x], 7));
    SetV(flagged, x, ShiftLeft8(flagged.v[x], 1))
  }

  /** `set_vx_to_random_and_kk` (Cxkk), with the generator's byte given. */
  function SetVxToRandomAndKk(s: State, x: I.Nibble, kk: u8, random: u8): (r: State)
    requires WellFormed(s)
    ensures WellFormed(r)
  {
    SetV(s, x, And8(kk, random))
  }

  // ---------------------------------------------------------------------------
  // Keypad and timers.

  /** `skip_next_if_key_pressed` (Ex9E): the key is the nibble `x` itself. */
  function SkipNextIfKeyPressed(s: State, x: I.Nibble): (r: State)
    requires WellFormed(s)
    ensures WellFormed(r)
  {
    s.(pc := if s.keys[x] then Advance(s.pc, 4) else Advance(s.pc, 2))
  }

  /** `skip_next_if_key_not_pressed` (ExA1). */
  function SkipNextIfKeyNotPressed(s: State, x: I.Nibble): (r: State)
    requires WellFormed(s)
    ensures WellFormed(r)
  {
    s.(pc := if !s.keys[x] then Advance(s.pc, 4) else Advance(s.pc, 2))
  }

  /** `set_vx_to_delay_timer` (Fx07). */
  function SetVxToDelayTimer(s: State, x: I.Nibble): (r: State)
    requires WellFormed(s)
    ensures WellFormed(r)
  {
    SetV(s, x, s.delayTimer)
  }

  predicate SomeKeyPressed(s: State)
    requires WellFormed(s)
  {
    exists k :: 0 <= k < KeyCount && s.keys[k]
  }

  /** `await_key_and_store_to_value_vx` (Fx0A) once its loop has found a key
      down: the constant 1 goes to Vx, whichever key it was. */
  function AwaitKeyAndStoreToValueVx(s: State, x: I.Nibble): (r: State)
    requires WellFormed(s) && SomeKeyPressed(s)
    ensures WellFormed(r)
  {
    SetV(s, x, 1)
  }

  /** `set_delay_timer_to_vx` (Fx15). */
  function SetDelayTimerToVx(s: State, x: I.Nibble): (r: State)
    requires WellFormed(s)
    ensures WellFormed(r)
  {
    s.(delayTimer := s.v[x])
  }

  /** `set_sound_timer_to_vx` (Fx18). */
  function SetSoundTimerToVx(s: State, x: I.Nibble): (r: State)
    requires WellFormed(s)
    ensures WellFormed(r)
  {
    s.(soundTimer := s.v[x])
  }

  /** `set_i_to_sum_of_i_and_vx` (Fx1E): `+=` on a `u16`. */
  function SetIToSumOfIAndVx(s: State, x: I.Nibble): (r: State)
    requires WellFormed(s)
    ensures WellFormed(r)
  {
    s.(i := (s.i as int + s.v[x]) % 0x1_0000)
  }

  /** `clear_screen`: no arm of `execute_op_code` calls it. */
  function ClearScreen(s: State): (r: State)
    requires WellFormed(s)
    ensures WellFormed(r)
  {
    s.(gfx := seq(ScreenSize, _ => false))
  }

  // ---------------------------------------------------------------------------
  // Drawing.

  /** `(register_i + axis_y as u16) as usize`. */
  function RowAddress(registerI: u16, axisY: nat): nat
  {
    (registerI + axisY) % 0x1_0000
  }

  /** Every sprite row that `draw_sprite` reads is inside RAM. */
  predicate SpriteReadable(s: State, height: nat)
  {
    forall axisY :: 0 <= axisY < height ==> RowAddress(s.i, axisY) < RamSize
  }

  /** `Memory::current_pixel_is_on`: `ram[i + ay] & (0x80 >> ax) == 1`. */
  function MemoryPixelIsOn(ram: seq<u8>, registerI: u16, axisX: nat, axisY: nat): bool
    requires |ram| == RamSize && RowAddress(registerI, axisY) < RamSize && axisX < 8
  {
    And(ram[RowAddress(registerI, axisY)], ShiftRight(0x80, axisX)) == 1
  }

  /** The `gfx` index of `Graphics::current_pixel_is_on`, every operation on
      `u8`: each sum and the product by 64 wrap at 256. */
  function PixelIndex(coordX: u8, axisX: u8, coordY: u8, axisY: u8): (r: nat)
    ensures r < 0x100
  {
    ((coordX as int + axisX) % 0x100 + ((coordY as int + axisY) % 0x100 * 64) % 0x100) % 0x100
  }

  /** `Graphics::current_pixel_is_on`. */
  function GraphicsPixelIsOn(gfx: seq<bool>, coordX: u8, axisX: u8, coordY: u8, axisY: u8): bool
    requires |gfx| == ScreenSize
  {
    gfx[PixelIndex(coordX, axisX, coordY, axisY)]
  }

  /** The cell `(axisX, axisY)` of the sprite loop is not skipped and its
      display cell is on: this is what sets VF to 1. */
  predicate CellCollides(s: State, coordX: u8, coordY: u8, axisX: nat, axisY: nat)
    requires WellFormed(s) && axisX < 8 && axisY < 0x100 && RowAddress(s.i, axisY) < RamSize
  {
    && !MemoryPixelIsOn(s.ram, s.i, axisX, axisY)
    && GraphicsPixelIsOn(s.gfx, coordX, axisX, coordY, axisY)
  }

  /** Some cell among the first `count` of row `axisY` collides. */
  predicate RowCollides(s: State, coordX: u8, coordY: u8, axisY: nat, count: nat)
    requires WellFormed(s) && count <= 8 && axisY < 0x100 && RowAddress(s.i, axisY) < RamSize
    decreases count
  {
    count > 0 && (RowCollides(s, coordX, coordY, axisY, count - 1) || CellCollides(s, coordX, coordY, count - 1, axisY))
  }

  /** Some cell of the first `rows` rows collides. */
  predicate RowsCollide(s: State, coordX: u8, coordY: u8, rows: nat)
    requires WellFormed(s) && rows <= 0x100 && SpriteReadable(s, rows)
    decreases rows
  {
    rows > 0 && (RowsCollide(s, coordX, coordY, rows - 1) || RowCollides(s, coordX, coordY, rows - 1, 8))
  }

  /** The collision condition of `draw_sprite`, stated as a search. */
  ghost predicate Collision(s: State, coordX: u8, coordY: u8, height: nat)
    requires WellFormed(s) && height <= 0x100 && SpriteReadable(s, height)
  {
    exists axisY, axisX :: 0 <= axisY < height && 0 <= axisX < 8 && CellCollides(s, coordX, coordY, axisX, axisY)
  }

  /** `draw_sprite` (Dxyn): read Vx, Vy and the height from `v[n]`, clear VF,
      set it to 1 on a collision, never write `gfx` (`change_pixel_value`
      negates a copy), advance by 2. */
  function DrawSprite(s: State, x: I.Nibble, y: I.Nibble, n: I.Nibble): (r: State)
    requires WellFormed(s) && SpriteReadable(s, s.v[n])
    ensures WellFormed(r)
  {
    var coordX, coordY, height := s.v[x], s.v[y], s.v[n];
    var cleared := SetRegisterVFValue(s, 0);
    var flagged := if RowsCollide(s, coordX, coordY, height) then SetRegisterVFValue(cleared, 1) else cleared;
    flagged.(pc := Advance(flagged.pc, 2))
  }

  // ---------------------------------------------------------------------------
  // Dispatch.

  /** The handlers of the `0x8000...0x8FFF` arm. */
  function ExecuteArithmetic(s: State, op: I.ArithmeticOp, x: I.Nibble, y: I.Nibble): (r: State)
    requires WellFormed(s)
    ensures WellFormed(r)
  {
    match op
    case SetVxToVy => SetVxToVy(s, x, y)
    case SetVxToVxOrVy => SetVxToVxOrVy(s, x, y)
    case SetVxToVxAndVy => SetVxToVxAndVy(s, x, y)
    case SetVxToVxXorVy => SetVxToVxXorVy(s, x, y)
    case SetVxToVxAndVySum => SetVxToVxAndVySum(s, x, y)
    case SetVxToVxAndVyDifference => SetVxToVxAndVyDifference(s, x, y)
    case SetVxToVxShiftRight => SetVxToVxShiftRight(s, x)
    case SetVxToVyAndVxDifference => SetVxToVyAndVxDifference(s, x, y)
    case SetVxToVxShiftLeft => SetVxToVxShiftLeft(s, x)
  }

  /** The handlers of the `0xE000...0xEFFF` arm. */
  function ExecuteKeypad(s: State, op: I.KeypadOp, x: I.Nibble): (r: State)
    requires WellFormed(s)
    ensures WellFormed(r)
  {
    match op
    case SkipNextIfKeyPressed => SkipNextIfKeyPressed(s, x)
    case SkipNextIfKeyNotPressed => SkipNextIfKeyNotPressed(s, x)
  }

  /** The handlers of the `0xF000...0xFFFF` arm; `Fx0A` spins for ever when
      no key is down. */
  function ExecuteMisc(s: State, op: I.MiscOp, x: I.Nibble): (r: Outcome)
    requires WellFormed(s)
    ensures r.Next? ==> WellFormed(r.next)
    ensures r.Hang? <==> op == I.AwaitKeyAndStoreToVx && !SomeKeyPressed(s)
    ensures !r.Panic?
  {
    match op
    case SetVxToDelayTimer => Next(SetVxToDelayTimer(s, x))
    case AwaitKeyAndStoreToVx => if SomeKeyPressed(s) then Next(AwaitKeyAndStoreToValueVx(s, x)) else Hang
    case SetDelayTimerToVx => Next(SetDelayTimerToVx(s, x))
    case SetSoundTimerToVx => Next(SetSoundTimerToVx(s, x))
    case SetIToSumOfIAndVx => Next(SetIToSumOfIAndVx(s, x))
  }

  /** One decoded instruction; `random` is the byte `Cxkk` draws. */
  function Execute(s: State, ins: I.Instruction, random: u8): (r: Outcome)
    requires WellFormed(s)
    ensures r.Next? ==> WellFormed(r.next)
  {
    match ins
    case ReturnFromSubroutine => if CanReturn(s) then Next(ReturnFromSubroutine(s)) else Panic
    case JumpToLocation(nnn) => Next(JumpToLocation(s, nnn))
    case CallSubroutine(nnn) => if CanCall(s) then Next(CallSubroutine(s, nnn)) else Panic
    case SkipNextIfVxEqKk(x, kk) => Next(SkipNextIfVxEqKk(s, x, kk))
    case SkipNextIfVxNeqKk(x, kk) => Next(SkipNextIfVxNeqKk(s, x, kk))
    case SkipNextIfVxEqVy(x, y) => Next(SkipNextIfVxEqVy(s, x, y))
    case SetVxTo(x, kk) => Next(SetVxTo(s, x, kk))
    case AddKkToVx(x, kk) => Next(AddKkToVx(s, x, kk))
    case Arithmetic(op, x, y) => Next(ExecuteArithmetic(s, op, x, y))
    case SkipNextIfVxNeqVy(x, y) => Next(SkipNextIfVxNeqVy(s, x, y))
    case SetRegisterIAddress(nnn) => Next(SetRegisterIAddress(s, nnn))
    case JumpToLocationPlusV0(nnn) => Next(JumpToLocationPlusV0(s, nnn))
    case SetVxToRandomAndKk(x, kk) => Next(SetVxToRandomAndKk(s, x, kk, random))
    case DrawSprite(x, y, n) => if SpriteReadable(s, s.v[n]) then Next(DrawSprite(s, x, y, n)) else Panic
    case Keypad(op, x) => Next(ExecuteKeypad(s, op, x))
    case Misc(op, x) => ExecuteMisc(s, op, x)
    case NoOp => Next(s)
  }

  /** `execute_op_code`. */
  function ExecuteOpCode(s: State, op: u16, random: u8): (r: Outcome)
    requires WellFormed(s)
    ensures r.Next? ==> WellFormed(r.next)
  {
    Execute(s, I.Decode(op), random)
  }

  /** `emulate_cycle`: fetch and execute; the program counter is not
      advanced here, only by the handlers that do so themselves. */
  function EmulateCycle(s: State, random: u8): (r: Outcome)
    requires WellFormed(s)
    ensures r.Next? ==> WellFormed(r.next)
  {
    if CanFetch(s) then ExecuteOpCode(s, FetchOpCode(s), random) else Panic
  }

  /** What the logic sub-arms of the `0x8000...0x8FFF` arm execute. */
  lemma LogicArms(s: State, op: u16)
    requires WellFormed(s) && 0x8000 <= op <= 0x8FFF
    ensures var x, y, n, o := I.X(op), I.Y(op), I.N(op), Execute(s, I.DecodeArithmetic(op), 0);
      && (n == 0 ==> o == Next(SetVxToVy(s, x, y)))
      && (n == 1 ==> o == Next(SetVxToVxOrVy(s, x, y)))
      && (n == 2 ==> o == Next(SetVxToVxAndVy(s, x, y)))
      && (n == 3 ==> o == Next(SetVxToVxXorVy(s, x, y)))
      && (n !in {0, 1, 2, 3, 4, 5, 6, 7, 0xE} ==> o == Next(s))
  {
    I.ArithmeticArm(op);
  }

  /** What the arithmetic sub-arms of the `0x8000...0x8FFF` arm execute. */
  lemma ArithmeticArms(s: State, op: u16)
    requires WellFormed(s) && 0x8000 <= op <= 0x8FFF
    ensures var x, y, n, o := I.X(op), I.Y(op), I.N(op), Execute(s, I.DecodeArithmetic(op), 0);
      && (n == 4 ==> o == Next(SetVxToVxAndVySum(s, x, y)))
      && (n == 5 ==> o == Next(SetVxToVxAndVyDifference(s, x, y)))
      && (n == 6 ==> o == Next(SetVxToVxShiftRight(s, x)))
      && (n == 7 ==> o == Next(SetVxToVyAndVxDifference(s, x, y)))
      && (n == 0xE ==> o == Next(SetVxToVxShiftLeft(s, x)))
  {
    I.ArithmeticArm(op);
  }

  /** What the control-flow arms of `execute_op_code` execute. */
  lemma ControlArms(s: State, op: u16, random: u8)
    requires WellFormed(s)
    ensures var o := ExecuteOpCode(s, op, random);
      && (op == 0x00EE && CanReturn(s) ==> o == Next(ReturnFromSubroutine(s)))
      && (0x1000 <= op <= 0x1FFF ==> o == Next(JumpToLocation(s, I.Address(op))))
      && (0x2000 <= op <= 0x2FFF && CanCall(s) ==> o == Next(CallSubroutine(s, I.Address(op))))
      && (0x3000 <= op <= 0x3FFF ==> o == Next(SkipNextIfVxEqKk(s, I.X(op), I.Byte(op))))
      && (0x4000 <= op <= 0x4FFF ==> o == Next(SkipNextIfVxNeqKk(s, I.X(op), I.Byte(op))))
      && (0x5000 <= op <= 0x5FF0 ==> o == Next(SkipNextIfVxEqVy(s, I.X(op), I.Y(op))))
      && (0x9000 <= op <= 0x9FFF ==> o == Next(SkipNextIfVxNeqVy(s, I.X(op), I.Y(op))))
      && (0xB000 <= op <= 0xBFFF ==> o == Next(JumpToLocationPlusV0(s, I.Address(op))))
  {
  }

  /** What the load and draw arms of `execute_op_code` execute. */
  lemma LoadArms(s: State, op: u16, random: u8)
    requires WellFormed(s)
    ensures var o := ExecuteOpCode(s, op, random);
      && (0x6000 <= op <= 0x6FFF ==> o == Next(SetVxTo(s, I.X(op), I.Byte(op))))
      && (0x7000 <= op <= 0x7FFF ==> o == Next(AddKkToVx(s, I.X(op), I.Byte(op))))
      && (0xA000 <= op <= 0xAFFF ==> o == Next(SetRegisterIAddress(s, I.Address(op))))
      && (0xC000 <= op <= 0xCFFF ==> o == Next(SetVxToRandomAndKk(s, I.X(op), I.Byte(op), random)))
      && (0xD000 <= op <= 0xDFFF && SpriteReadable(s, s.v[I.N(op)]) ==> o == Next(DrawSprite(s, I.X(op), I.Y(op), I.N(op))))
  {
  }

  /** The three arms that look at further nibbles hand over to their own
      decoding. */
  lemma FamilyArms(s: State, op: u16, random: u8)
    requires WellFormed(s)
    ensures var o := ExecuteOpCode(s, op, random);
      && (0x8000 <= op <= 0x8FFF ==> o == Execute(s, I.DecodeArithmetic(op), 0))
      && (0xE000 <= op <= 0xEFFF ==> o == Execute(s, I.DecodeKeypad(op), 0))
      && (0xF000 <= op ==> o == Execute(s, I.DecodeMisc(op), 0))
  {
    if 0x8000 <= op <= 0x8FFF {
      var ins := I.DecodeArithmetic(op);
      assert I.Decode(op) == ins;
      assert ins.Arithmetic? || ins.NoOp?;
    } else if 0xE000 <= op <= 0xEFFF {
      assert I.Decode(op) == I.DecodeKeypad(op);
    } else if 0xF000 <= op {
      assert I.Decode(op) == I.DecodeMisc(op);
    }
  }
}
