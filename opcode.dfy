/** The opcode decoder of `src/main.rs` (`trait OpCode` and `impl OpCode for u16`):
    pure bit slicing of a 16-bit instruction into its nibbles and its
    12-bit / 8-bit argument fields. */
module OpCode {
  import opened Bits

  /** `extract_nibble_value`: nibble `place` of `op`, counting from 1 at the
      most significant end; any other place yields 0. */
  function ExtractNibbleValue(op: u16, place: u8): (r: u8)
    ensures r < 16
    ensures place == 1 ==> r == op / 0x1000
    ensures place == 2 ==> r == op / 0x100 % 0x10
    ensures place == 3 ==> r == op / 0x10 % 0x10
    ensures place == 4 ==> r == op % 0x10
    ensures !(1 <= place <= 4) ==> r == 0
  {
    match place
    case 1 => HighNibbleMask(op); ShiftRight(And(op, 0xF000), 12)
    case 2 => NibbleMask(op, 8); ShiftRight(And(op, 0x0F00), 8)
    case 3 => NibbleMask(op, 4); ShiftRight(And(op, 0x00F0), 4)
    case 4 => NibbleMask(op, 0); And(op, 0x000F)
    case _ => 0
  }

  /** `(op & 0xF000) >> 12` is the top hex digit. */
  lemma HighNibbleMask(op: u16)
    ensures ShiftRight(And(op, 0xF000), 12) == op / 0x1000
  {
    Pow2Values();
    MaskAt(op, 12, 0x1000);
    assert op / 0x1000 < 0x10;
  }

  /** The masks 0x0F00, 0x00F0 and 0x000F keep one hex digit in place. */
  lemma NibbleMask(op: u16, k: nat)
    requires k == 0 || k == 4 || k == 8
    ensures k == 8 ==> ShiftRight(And(op, 0x0F00), 8) == op / 0x100 % 0x10
    ensures k == 8 ==> And(op, 0x0F00) == op / 0x100 % 0x10 * 0x100
    ensures k == 4 ==> ShiftRight(And(op, 0x00F0), 4) == op / 0x10 % 0x10
    ensures k == 4 ==> And(op, 0x00F0) == op / 0x10 % 0x10 * 0x10
    ensures k == 0 ==> And(op, 0x000F) == op % 0x10
  {
    Pow2Values();
    if k == 8 {
      MaskAt(op, 8, 0x100);
    } else if k == 4 {
      MaskAt(op, 4, 0x10);
    } else {
      MaskAt(op, 0, 1);
    }
  }

  lemma Pow2Values()
    ensures Pow2(0) == 1 && Pow2(4) == 0x10 && Pow2(8) == 0x100 && Pow2(12) == 0x1000
  {
  }

  /** The mask `0xF * p` with `p == 2^k` keeps the hex digit at bit `k`. */
  lemma MaskAt(op: u16, k: nat, p: nat)
    requires (k == 0 || k == 4 || k == 8 || k == 12) && p == Pow2(k)
    ensures And(op, 15 * p) == op / p % 16 * p
    ensures ShiftRight(And(op, 15 * p), k) == op / p % 16
  {
    MaskedNibble(op, k);
    ShiftLeftIsMul(15, k);
    ShiftLeftIsMul(op / Pow2(k) % 16, k);
  }

  /** `op & (0xF << k)` keeps the hex digit of `op` at bit `k` in place, and
      shifting it down by `k` gives the digit itself. */
  lemma MaskedNibble(op: nat, k: nat)
    ensures And(op, ShiftLeft(15, k)) == ShiftLeft(op / Pow2(k) % 16, k)
    ensures ShiftRight(And(op, ShiftLeft(15, k)), k) == op / Pow2(k) % 16
  {
    var high := ShiftRight(op, k);
    AndShiftedMask(op, 15, k);
    AndLowMask(high, 4);
    ShiftRightIsDiv(high, 4);
    ShiftRightIsDiv(op, k);
    ShiftRightLeft(high % 16, k);
  }

  /** `extract_arguments`: the three lower nibbles, each masked in place. */
  function ExtractArguments(op: u16): (args: seq<u16>)
    ensures |args| == 3
    ensures args[0] == op / 0x100 % 0x10 * 0x100
    ensures args[1] == op / 0x10 % 0x10 * 0x10
    ensures args[2] == op % 0x10
  {
    NibbleMask(op, 8);
    NibbleMask(op, 4);
    NibbleMask(op, 0);
    [And(op, 0x0F00), And(op, 0x00F0), And(op, 0x000F)]
  }

  /** `.iter().fold(0, |a, &b| a + b)` over `u16`: a left fold whose
      additions wrap in a release build. */
  function FoldSum(s: seq<u16>): (r: u16)
  {
    if s == [] then 0 else (FoldSum(s[..|s| - 1]) + s[|s| - 1]) % 0x1_0000
  }

  /** `get_argument_sum(from..)`: the sum of the arguments from index `from`
      on, which is the opcode's low part below the first argument taken
      (`..` gives the low 12 bits, `1..` the low 8). */
  function GetArgumentSum(op: u16, from: nat): (r: u16)
    requires from <= 3
    ensures from == 0 ==> r == op % 0x1000
    ensures from == 1 ==> r == op % 0x100
    ensures from == 2 ==> r == op % 0x10
    ensures from == 3 ==> r == 0
  {
    var args := ExtractArguments(op);
    var part := args[from..];
    ArgumentSumValue(op, args, from);
    FoldSum(part)
  }

  lemma ArgumentSumValue(op: u16, args: seq<u16>, from: nat)
    requires from <= 3 && args == ExtractArguments(op)
    ensures from == 0 ==> FoldSum(args[from..]) == op % 0x1000
    ensures from == 1 ==> FoldSum(args[from..]) == op % 0x100
    ensures from == 2 ==> FoldSum(args[from..]) == op % 0x10
    ensures from == 3 ==> FoldSum(args[from..]) == 0
  {
    var part := args[from..];
    FoldOfUpToThree(part);
    LowDigits(op);
    var d2, d3, d4 := op / 0x100 % 0x10, op / 0x10 % 0x10, op % 0x10;
    if from == 0 {
      assert part == [d2 * 0x100, d3 * 0x10, d4];
      NoWrap(d2 * 0x100, d3 * 0x10);
      NoWrap(d2 * 0x100 + d3 * 0x10, d4);
    } else if from == 1 {
      assert part == [d3 * 0x10, d4];
      NoWrap(d3 * 0x10, d4);
    } else if from == 2 {
      assert part == [d4];
    }
  }

  lemma NoWrap(a: int, b: int)
    requires 0 <= a && 0 <= b && a + b < 0x1_0000
    ensures (a + b) % 0x1_0000 == a + b
  {
  }

  lemma FoldOfUpToThree(s: seq<u16>)
    requires |s| <= 3
    ensures |s| == 0 ==> FoldSum(s) == 0
    ensures |s| == 1 ==> FoldSum(s) == s[0]
    ensures |s| == 2 ==> FoldSum(s) == (s[0] as int + s[1]) % 0x1_0000
    ensures |s| == 3 ==> FoldSum(s) == ((s[0] as int + s[1]) % 0x1_0000 + s[2]) % 0x1_0000
  {
    if |s| >= 1 {
      assert s[..1][..0] == [];
    }
    if |s| >= 2 {
      assert s[..2][..1] == s[..1];
    }
    if |s| == 3 {
      assert s[..2] == s[..|s| - 1][..2];
    }
  }

  /** `nnn`, the address field (`get_argument_sum(..)`): the lowest 12 bits. */
  function Nnn(op: u16): (r: u16)
    ensures r == op % 0x1000
  {
    GetArgumentSum(op, 0)
  }

  /** `kk`, the byte field (`get_argument_sum(1..) as u8`): the lowest 8 bits. */
  function Kk(op: u16): (r: u8)
    ensures r == op % 0x100
  {
    GetArgumentSum(op, 1)
  }

  /** Summing the masked arguments is masking the opcode:
      `nnn == op & 0x0FFF` and `kk == op & 0x00FF`. */
  lemma ArgumentSumIsMask(op: u16)
    ensures Nnn(op) == And(op, 0x0FFF)
    ensures Kk(op) == And(op, 0x00FF)
  {
    Pow2Values();
    LowMask(op, 12);
    LowMask(op, 8);
  }

  /** `op & (2^k - 1)` is `op mod 2^k`. */
  lemma LowMask(op: u16, k: nat)
    ensures And(op, Pow2(k) - 1) == op % Pow2(k)
  {
    AndLowMask(op, k);
    ShiftRightIsDiv(op, k);
  }

  /** The four nibbles put back together give the opcode. */
  lemma NibblesRecompose(op: u16)
    ensures op == 0x1000 * ExtractNibbleValue(op, 1) + 0x100 * ExtractNibbleValue(op, 2)
                  + 0x10 * ExtractNibbleValue(op, 3) + ExtractNibbleValue(op, 4)
  {
    LowDigits(op);
  }

  lemma LowDigits(op: u16)
    ensures op % 0x1000 == 0x100 * (op / 0x100 % 0x10) + op % 0x100
    ensures op % 0x100 == 0x10 * (op / 0x10 % 0x10) + op % 0x10
    ensures op == 0x1000 * (op / 0x1000) + op % 0x1000
  {
    var q, r := op / 0x100, op % 0x100;
    assert q == 0x10 * (q / 0x10) + q % 0x10;
    DivModUnique(op, 0x1000, q / 0x10, 0x100 * (q % 0x10) + r);
    var q', r' := op / 0x10, op % 0x10;
    assert q' == 0x10 * (q' / 0x10) + q' % 0x10;
    DivModUnique(op, 0x100, q' / 0x10, 0x10 * (q' % 0x10) + r');
  }
}
