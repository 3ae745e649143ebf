/** The dispatcher of `execute_op_code` (src/main.rs:163-221) read as a
    decoder: every 16-bit opcode maps to the handler its match arms select,
    together with the operand fields that handler extracts.  Every
    `_ => return` arm maps to `NoOp`. */
module Instructions {
  import opened Bits
  import opened OpCode

  /** A register index, taken from one nibble of the opcode. */
  type Nibble = x: int | 0 <= x < 0x10

  /** A 12-bit address field `nnn`. */
  type Addr = x: int | 0 <= x < 0x1000

  /** The arms of `execute_op_code`: one constructor per top-level arm,
      with the nested `match`es of the 0x8, 0xE and 0xF families as their own
      enumerations. */
  datatype Instruction =
    | ReturnFromSubroutine                          // 00EE
    | JumpToLocation(nnn: Addr)                     // 1nnn
    | CallSubroutine(nnn: Addr)                     // 2nnn
    | SkipNextIfVxEqKk(x: Nibble, kk: u8)           // 3xkk
    | SkipNextIfVxNeqKk(x: Nibble, kk: u8)          // 4xkk
    | SkipNextIfVxEqVy(x: Nibble, y: Nibble)        // 5xyn, opcode at most 0x5FF0
    | SetVxTo(x: Nibble, kk: u8)                    // 6xkk
    | AddKkToVx(x: Nibble, kk: u8)                  // 7xkk
    | Arithmetic(op: ArithmeticOp, x: Nibble, y: Nibble) // 8xyn
    | SkipNextIfVxNeqVy(x: Nibble, y: Nibble)       // 9xyn
    | SetRegisterIAddress(nnn: Addr)                // Annn
    | JumpToLocationPlusV0(nnn: Addr)               // Bnnn
    | SetVxToRandomAndKk(x: Nibble, kk: u8)         // Cxkk
    | DrawSprite(x: Nibble, y: Nibble, n: Nibble)   // Dxyn
    | Keypad(key: KeypadOp, x: Nibble)              // Exmn, selected by m
    | Misc(misc: MiscOp, x: Nibble)                 // Fxmn
    | NoOp                                          // every `_ => return`

  /** The handlers of the `0x8000...0x8FFF` arm, by fourth nibble. */
  datatype ArithmeticOp =
    | SetVxToVy                  // 0
    | SetVxToVxOrVy              // 1
    | SetVxToVxAndVy             // 2
    | SetVxToVxXorVy             // 3
    | SetVxToVxAndVySum          // 4
    | SetVxToVxAndVyDifference   // 5
    | SetVxToVxShiftRight        // 6 (y unused)
    | SetVxToVyAndVxDifference   // 7
    | SetVxToVxShiftLeft         // E (y unused)

  /** The handlers of the `0xE000...0xEFFF` arm, by third nibble. */
  datatype KeypadOp =
    | SkipNextIfKeyPressed       // 9
    | SkipNextIfKeyNotPressed    // A

  /** The handlers of the `0xF000...0xFFFF` arm, by third and fourth nibble. */
  datatype MiscOp =
    | SetVxToDelayTimer          // 07
    | AwaitKeyAndStoreToVx       // 0A
    | SetDelayTimerToVx          // 15
    | SetSoundTimerToVx          // 18
    | SetIToSumOfIAndVx          // 1E

  /** The fields the handlers extract, as digits of the opcode:
      `extract_nibble_value(2..4)`, `get_argument_sum(..)` and
      `get_argument_sum(1..)` compute exactly these (`FieldsAreExtracted`). */
  function X(op: u16): Nibble { op / 0x100 % 0x10 }
  function Y(op: u16): Nibble { op / 0x10 % 0x10 }
  function N(op: u16): Nibble { op % 0x10 }
  function Address(op: u16): Addr { op % 0x1000 }
  function Byte(op: u16): u8 { op % 0x100 }

  lemma FieldsAreExtracted(op: u16)
    ensures ExtractNibbleValue(op, 2) == X(op) && ExtractNibbleValue(op, 3) == Y(op)
    ensures ExtractNibbleValue(op, 4) == N(op)
    ensures Nnn(op) == Address(op) && Kk(op) == Byte(op)
  {
  }

  /** The arms of `execute_op_code`, in order. */
  function Decode(op: u16): (ins: Instruction)
  {
    var x, y, n, nnn, kk := X(op), Y(op), N(op), Address(op), Byte(op);
    if op == 0x00EE then ReturnFromSubroutine
    else if 0x1000 <= op <= 0x1FFF then JumpToLocation(nnn)
    else if 0x2000 <= op <= 0x2FFF then CallSubroutine(nnn)
    else if 0x3000 <= op <= 0x3FFF then SkipNextIfVxEqKk(x, kk)
    else if 0x4000 <= op <= 0x4FFF then SkipNextIfVxNeqKk(x, kk)
    else if 0x5000 <= op <= 0x5FF0 then SkipNextIfVxEqVy(x, y)
    else if 0x6000 <= op <= 0x6FFF then SetVxTo(x, kk)
    else if 0x7000 <= op <= 0x7FFF then AddKkToVx(x, kk)
    else if 0x8000 <= op <= 0x8FFF then DecodeArithmetic(op)
    else if 0x9000 <= op <= 0x9FFF then SkipNextIfVxNeqVy(x, y)
    else if 0xA000 <= op <= 0xAFFF then SetRegisterIAddress(nnn)
    else if 0xB000 <= op <= 0xBFFF then JumpToLocationPlusV0(nnn)
    else if 0xC000 <= op <= 0xCFFF then SetVxToRandomAndKk(x, kk)
    else if 0xD000 <= op <= 0xDFFF then DrawSprite(x, y, n)
    else if 0xE000 <= op <= 0xEFFF then DecodeKeypad(op)
    else if 0xF000 <= op then DecodeMisc(op)
    else NoOp
  }

  /** The `0x8000...0x8FFF` arm: the fourth nibble selects the operation. */
  function DecodeArithmetic(op: u16): Instruction
  {
    var x, y := X(op), Y(op);
    match N(op)
    case 0 => Arithmetic(SetVxToVy, x, y)
    case 1 => Arithmetic(SetVxToVxOrVy, x, y)
    case 2 => Arithmetic(SetVxToVxAndVy, x, y)
    case 3 => Arithmetic(SetVxToVxXorVy, x, y)
    case 4 => Arithmetic(SetVxToVxAndVySum, x, y)
    case 5 => Arithmetic(SetVxToVxAndVyDifference, x, y)
    case 6 => Arithmetic(SetVxToVxShiftRight, x, y)
    case 7 => Arithmetic(SetVxToVyAndVxDifference, x, y)
    case 0xE => Arithmetic(SetVxToVxShiftLeft, x, y)
    case _ => NoOp
  }

  /** The `0xE000...0xEFFF` arm: only the third nibble is looked at. */
  function DecodeKeypad(op: u16): Instruction
  {
    match Y(op)
    case 9 => Keypad(SkipNextIfKeyPressed, X(op))
    case 0xA => Keypad(SkipNextIfKeyNotPressed, X(op))
    case _ => NoOp
  }

  /** The `0xF000...0xFFFF` arm: third nibble, then fourth. */
  function DecodeMisc(op: u16): Instruction
  {
    match Y(op)
    case 0 =>
      (match N(op)
       case 7 => Misc(SetVxToDelayTimer, X(op))
       case 0xA => Misc(AwaitKeyAndStoreToVx, X(op))
       case _ => NoOp)
    case 1 =>
      (match N(op)
       case 5 => Misc(SetDelayTimerToVx, X(op))
       case 8 => Misc(SetSoundTimerToVx, X(op))
       case 0xE => Misc(SetIToSumOfIAndVx, X(op))
       case _ => NoOp)
    case _ => NoOp
  }

  /** The opcodes no arm with a handler accepts, written out by range and digit. */
  predicate Unmatched(op: u16)
  {
    || (op < 0x1000 && op != 0x00EE)
    || 0x5FF1 <= op <= 0x5FFF
    || (0x8000 <= op <= 0x8FFF && op % 0x10 in {0x8, 0x9, 0xA, 0xB, 0xC, 0xD, 0xF})
    || (0xE000 <= op <= 0xEFFF && op / 0x10 % 0x10 != 0x9 && op / 0x10 % 0x10 != 0xA)
    || (0xF000 <= op && op % 0x100 !in {0x07, 0x0A, 0x15, 0x18, 0x1E})
  }

  /** Exactly the unmatched opcodes do nothing. */
  lemma DecodeNoOpIff(op: u16)
    ensures Decode(op) == NoOp <==> Unmatched(op)
  {
    LowDigits(op);
    if 0xF000 <= op {
      assert op % 0x100 == 0x10 * Y(op) + N(op);
    }
  }

  /** The canonical opcode of an instruction: the fields in place, and the
      digits that select the arm. */
  function Encode(ins: Instruction): (op: u16)
  {
    match ins
    case ReturnFromSubroutine => 0x00EE
    case JumpToLocation(nnn) => 0x1000 + nnn
    case CallSubroutine(nnn) => 0x2000 + nnn
    case SkipNextIfVxEqKk(x, kk) => Pack(0x3, x, kk / 0x10, kk % 0x10)
    case SkipNextIfVxNeqKk(x, kk) => Pack(0x4, x, kk / 0x10, kk % 0x10)
    case SkipNextIfVxEqVy(x, y) => Pack(0x5, x, y, 0)
    case SetVxTo(x, kk) => Pack(0x6, x, kk / 0x10, kk % 0x10)
    case AddKkToVx(x, kk) => Pack(0x7, x, kk / 0x10, kk % 0x10)
    case Arithmetic(o, x, y) => Pack(0x8, x, y, ArithmeticDigit(o))
    case SkipNextIfVxNeqVy(x, y) => Pack(0x9, x, y, 0)
    case SetRegisterIAddress(nnn) => 0xA000 + nnn
    case JumpToLocationPlusV0(nnn) => 0xB000 + nnn
    case SetVxToRandomAndKk(x, kk) => Pack(0xC, x, kk / 0x10, kk % 0x10)
    case DrawSprite(x, y, n) => Pack(0xD, x, y, n)
    case Keypad(k, x) => Pack(0xE, x, if k == SkipNextIfKeyPressed then 0x9 else 0xA, if k == SkipNextIfKeyPressed then 0xE else 0x1)
    case Misc(m, x) => Pack(0xF, x, MiscByte(m) / 0x10, MiscByte(m) % 0x10)
    case NoOp => 0x0000
  }

  function ArithmeticDigit(o: ArithmeticOp): Nibble
  {
    match o
    case SetVxToVy => 0x0
    case SetVxToVxOrVy => 0x1
    case SetVxToVxAndVy => 0x2
    case SetVxToVxXorVy => 0x3
    case SetVxToVxAndVySum => 0x4
    case SetVxToVxAndVyDifference => 0x5
    case SetVxToVxShiftRight => 0x6
    case SetVxToVyAndVxDifference => 0x7
    case SetVxToVxShiftLeft => 0xE
  }

  function MiscByte(m: MiscOp): u8
  {
    match m
    case SetVxToDelayTimer => 0x07
    case AwaitKeyAndStoreToVx => 0x0A
    case SetDelayTimerToVx => 0x15
    case SetSoundTimerToVx => 0x18
    case SetIToSumOfIAndVx => 0x1E
  }

  /** Four hex digits, most significant first. */
  function Pack(a: Nibble, b: Nibble, c: Nibble, d: Nibble): (op: u16)
    ensures 0x1000 * a <= op <= 0x1000 * a + 0xFFF
    ensures X(op) == b && Y(op) == c && N(op) == d
    ensures Address(op) == 0x100 * b + 0x10 * c + d && Byte(op) == 0x10 * c + d
  {
    var op := 0x1000 * a + 0x100 * b + 0x10 * c + d;
    DigitsOf(op, a, b, c, d);
    op
  }

  lemma DigitsOf(op: int, a: int, b: int, c: int, d: int)
    requires 0 <= a < 0x10 && 0 <= b < 0x10 && 0 <= c < 0x10 && 0 <= d < 0x10
    requires op == 0x1000 * a + 0x100 * b + 0x10 * c + d
    ensures op / 0x1000 == a && op / 0x100 % 0x10 == b && op / 0x10 % 0x10 == c && op % 0x10 == d
    ensures op % 0x1000 == 0x100 * b + 0x10 * c + d && op % 0x100 == 0x10 * c + d
  {
    DivModUnique(op, 0x1000, a, 0x100 * b + 0x10 * c + d);
    DivModUnique(op, 0x100, 0x10 * a + b, 0x10 * c + d);
    DivModUnique(op, 0x10, 0x100 * a + 0x10 * b + c, d);
    DivModUnique(0x10 * a + b, 0x10, a, b);
    DivModUnique(0x100 * a + 0x10 * b + c, 0x10, 0x10 * a + b, c);
  }

  /** Decoding the canonical opcode gives the instruction back. */
  lemma DecodeEncode(ins: Instruction)
    ensures Decode(Encode(ins)) == ins
  {
    match ins
    case JumpToLocation(nnn) => AddressOf(0x1, nnn);
    case CallSubroutine(nnn) => AddressOf(0x2, nnn);
    case SetRegisterIAddress(nnn) => AddressOf(0xA, nnn);
    case JumpToLocationPlusV0(nnn) => AddressOf(0xB, nnn);
    case SkipNextIfVxEqKk(x, kk) => DecodeEncodeByte(ins);
    case SkipNextIfVxNeqKk(x, kk) => DecodeEncodeByte(ins);
    case SetVxTo(x, kk) => DecodeEncodeByte(ins);
    case AddKkToVx(x, kk) => DecodeEncodeByte(ins);
    case SetVxToRandomAndKk(x, kk) => DecodeEncodeByte(ins);
    case Arithmetic(o, x, y) => DecodeEncodeArithmetic(o, x, y);
    case Keypad(k, x) => DecodeEncodeKeypad(k, x);
    case Misc(m, x) => DecodeEncodeMisc(m, x);
    case SkipNextIfVxEqVy(x, y) => DecodeEncodeRegisters(ins);
    case SkipNextIfVxNeqVy(x, y) => DecodeEncodeRegisters(ins);
    case DrawSprite(x, y, n) => DecodeEncodeRegisters(ins);
    case ReturnFromSubroutine =>
    case NoOp =>
  }

  lemma DecodeEncodeByte(ins: Instruction)
    requires ins.SkipNextIfVxEqKk? || ins.SkipNextIfVxNeqKk? || ins.SetVxTo? || ins.AddKkToVx? || ins.SetVxToRandomAndKk?
    ensures Decode(Encode(ins)) == ins
  {
    ByteOf(ins.kk);
  }

  lemma DecodeEncodeRegisters(ins: Instruction)
    requires ins.SkipNextIfVxEqVy? || ins.SkipNextIfVxNeqVy? || ins.DrawSprite?
    ensures Decode(Encode(ins)) == ins
  {
  }

  lemma DecodeEncodeArithmetic(o: ArithmeticOp, x: Nibble, y: Nibble)
    ensures Decode(Encode(Arithmetic(o, x, y))) == Arithmetic(o, x, y)
  {
    var op := Pack(0x8, x, y, ArithmeticDigit(o));
    assert Decode(op) == DecodeArithmetic(op);
  }

  lemma DecodeEncodeKeypad(k: KeypadOp, x: Nibble)
    ensures Decode(Encode(Keypad(k, x))) == Keypad(k, x)
  {
    var op := Encode(Keypad(k, x));
    assert Decode(op) == DecodeKeypad(op);
  }

  lemma DecodeEncodeMisc(m: MiscOp, x: Nibble)
    ensures Decode(Encode(Misc(m, x))) == Misc(m, x)
  {
    var op := Pack(0xF, x, MiscByte(m) / 0x10, MiscByte(m) % 0x10);
    assert Decode(op) == DecodeMisc(op);
  }

  lemma ByteOf(kk: u8)
    ensures 0x10 * (kk / 0x10) + kk % 0x10 == kk
  {
  }

  lemma AddressOf(a: Nibble, nnn: Addr)
    ensures Address(0x1000 * a + nnn) == nnn
  {
    LowDigits(nnn);
    DigitsOf(0x1000 * a + nnn, a, nnn / 0x100, nnn / 0x10 % 0x10, nnn % 0x10);
  }

  /** The instruction each sub-arm of the `0x8000...0x8FFF` arm selects. */
  lemma ArithmeticArm(op: u16)
    ensures var x, y, n, ins := X(op), Y(op), N(op), DecodeArithmetic(op);
      && (n == 0 ==> ins == Arithmetic(SetVxToVy, x, y))
      && (n == 1 ==> ins == Arithmetic(SetVxToVxOrVy, x, y))
      && (n == 2 ==> ins == Arithmetic(SetVxToVxAndVy, x, y))
      && (n == 3 ==> ins == Arithmetic(SetVxToVxXorVy, x, y))
      && (n == 4 ==> ins == Arithmetic(SetVxToVxAndVySum, x, y))
      && (n == 5 ==> ins == Arithmetic(SetVxToVxAndVyDifference, x, y))
      && (n == 6 ==> ins == Arithmetic(SetVxToVxShiftRight, x, y))
      && (n == 7 ==> ins == Arithmetic(SetVxToVyAndVxDifference, x, y))
      && (n == 0xE ==> ins == Arithmetic(SetVxToVxShiftLeft, x, y))
      && (n !in {0, 1, 2, 3, 4, 5, 6, 7, 0xE} ==> ins == NoOp)
  {
  }
}
