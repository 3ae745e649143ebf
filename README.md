# CHIP-8 interpreter core, modelled and proved in Dafny

This project models the interpreter core of a small CHIP-8 emulator written
in Rust (`src/main.rs`). The core is:

- the machine state (4 KiB of RAM, sixteen 8-bit registers `V0`-`VF`, the
  index register `I`, the program counter, a 16-entry call stack with its
  pointer, a 64x32 monochrome display, two timers and a 16-key keypad);
- the memory helpers (font loading, ROM loading, the sprite-bit test);
- the `VF` flag accessors and the display helpers;
- the opcode decoder (nibble extraction and argument sums);
- `initialize`, `fetch_op_code`, `execute_op_code`, `emulate_cycle` and
  every instruction handler.

The project is split into these modules:

| file | module | role |
|---|---|---|
| `bits.dfy` | `Bits` | `u8`/`u16` as integer subtypes; AND, OR, XOR and shifts on naturals; Rust's wrapping and overflowing operations on 8-bit values |
| `opcode.dfy` | `OpCode` | `extract_nibble_value`, `extract_arguments`, `get_argument_sum` as written, with what each computes |
| `decode.dfy` | `Instructions` | the instruction set as a datatype, the dispatch of `execute_op_code` as `Decode`, and an encoder that `Decode` inverts |
| `machine.dfy` | `Machine` | the machine as an immutable `State` value; every handler as a state transition; dispatch and the fetch-execute cycle |
| `chip8.dfy` | `Interpreter` | the `Chip8` object as a class over arrays. Each method updates the arrays and fields in place and is proved to move `State()` exactly as the matching `Machine` transition |
| `properties.dfy` | `Properties` | what the transitions mean: frames, stack discipline, carries and borrows, per-bit logic, sprite collision, panics and hangs, the fetch discrepancy, and the unit-test scenarios of `src/main.rs` |

Arithmetic follows a release build of the Rust code (for the one shift rustc would reject, see "## Findings"). `+=`, `<<` and `>>` on
`u8` and `u16` wrap (see "## Left out"). Rust indexing past the end of an
array panics. In `Machine` that panic is the `Panic` outcome of a cycle. The
class methods instead require the index to be in range. `Fx0A` spins forever
when no key is down; that is the `Hang` outcome.

Where the design comments in the source and the code disagree, the model
follows the code:

- `3xkk`, `4xkk`, `5xy0` and `9xy0` add 2 to the program counter when the
  condition holds and leave it alone otherwise.
- `Ex9E` and `ExA1` add 4 or 2. They test key number `x` (the nibble), not
  key `Vx`.
- `Fx0A` stores the constant 1 in `Vx`, not the number of the key.
- `2nnn` stores the return address at `stack[sp]` and then increments `sp`.
- `Dxyn` takes the sprite height from register `V[n]`. It never changes the
  display: `change_pixel_value` negates a local copy. Its bit test
  `ram[..] & (0x80 >> ax) == 1` holds only for the last column of a sprite
  row whose byte is odd.
- The display index `coord_x + axis_x + (coord_y + axis_y) * 64` is `u8`
  arithmetic, so it wraps modulo 256.
- The `5` family is matched over `0x5000..=0x5FF0` only.
- `00E0` is not dispatched, so it falls into the catch-all.
- An opcode no arm matches does nothing, not even a program-counter advance.
- `Annn` also advances the program counter by 2. Apart from it, only the
  skips and `Dxyn` touch the program counter without jumping.

## Model

| member | source | states |
|---|---|---|
| Machine.LoadFontSet | src/main.rs:45-67 | the result is well formed. Its RAM is the 80-byte font followed by the old `ram[80..]` (see Properties.LoadFontSetChangesOnlyFont) |
| Properties.LoadFontSetChangesOnlyFont | src/main.rs:45-67 | after loading, `ram[0..80]` is the font and every other byte and field is unchanged |
| Interpreter.Chip8.LoadFontSet | src/main.rs:45-67 | the in-place copy loop leaves the object in the state `Machine.LoadFontSet` gives |
| Machine.LoadRom | src/main.rs:69-71 | for a ROM of exactly 3584 bytes, the result is well formed |
| Properties.LoadRomChangesOnlyProgram | src/main.rs:69-71 | `ram[512..4096]` becomes the ROM; `ram[0..512]` and all other fields are unchanged |
| Properties.LoadRomKeepsFont | src/main.rs:69-71 | loading a ROM after `initialize` keeps the font in `ram[0..80]` |
| Interpreter.Chip8.LoadRom | src/main.rs:69-71 | the in-place copy loop leaves the object in the state `Machine.LoadRom` gives for the ROM's contents |
| Machine.Zeroed | src/main.rs:131-141 | the all-zero machine with `pc == 0x200` is well formed |
| Machine.Initialize | src/main.rs:131-145 | the initial machine is well formed |
| Properties.InitializeState | src/main.rs:131-145 | after `initialize`: font at `ram[0..80]`, every other RAM byte 0, `pc == 0x200`; registers, `I`, stack, `sp`, timers, screen, redraw flag and keys all zero or false |
| Interpreter.Chip8.Initialize | src/main.rs:131-145 | a fresh object whose state is `Machine.Initialize()` |
| Machine.SetRegisterVFValue | src/main.rs:79-81 | the result is well formed (its meaning is Properties.RegisterVFRoundTrip) |
| Properties.RegisterVFRoundTrip | src/main.rs:79-83 | after setting VF to `value`, the getter returns `value` and nothing else changed |
| Interpreter.Chip8.SetRegisterVFValue | src/main.rs:79-81 | stores into `v[0xF]` and moves the state as `Machine.SetRegisterVFValue` |
| Interpreter.Chip8.GetRegisterVFValue | src/main.rs:83 | returns register `0xF` |
| Machine.SetV | src/main.rs:258-260 | writing one register gives a well-formed state |
| Properties.MemoryPixelIsOnIff | src/main.rs:73-75 | the test `ram[i + ay] & (0x80 >> ax) == 1` holds exactly when `ax == 7` and that byte is odd |
| Interpreter.Chip8.MemoryPixelIsOn | src/main.rs:73-75 | on the RAM array it is `Machine.MemoryPixelIsOn`, which holds exactly when `ax == 7` and the byte `ram[i + ay]` is odd |
| Machine.PixelIndex | src/main.rs:87-89 | the `u8` display index is below 256 |
| Properties.PixelIndexWraps | src/main.rs:87-95 | the display index is `(cx + ax + 64 * (cy + ay)) mod 256`, so only the first 256 cells can be addressed |
| Interpreter.Chip8.GraphicsPixelIsOn | src/main.rs:87-89 | on the display array it is `Machine.GraphicsPixelIsOn`, the cell `(cx + ax + 64 * (cy + ay)) mod 256` |
| Interpreter.Chip8.ChangePixelValue | src/main.rs:91-95 | negating the local copy of a cell leaves the whole machine state unchanged |
| OpCode.ExtractNibbleValue | src/main.rs:105-113 | places 1 to 4 give the hex digits of the opcode from the top (`op / 0x1000`, `op / 0x100 mod 16`, `op / 0x10 mod 16`, `op mod 16`); any other place gives 0; the result is always below 16 |
| OpCode.NibblesRecompose | src/main.rs:105-113 | the four extracted nibbles put back together give the opcode |
| OpCode.ExtractArguments | src/main.rs:115-121 | three masked arguments: the second, third and fourth hex digits, each left in place |
| OpCode.GetArgumentSum | src/main.rs:123-127 | the wrapping fold over the arguments from index 0, 1, 2 or 3 on is `op mod 0x1000`, `op mod 0x100`, `op mod 0x10` or 0 |
| OpCode.Nnn | src/main.rs:123-127 | `get_argument_sum(..)` is the low 12 bits of the opcode |
| OpCode.Kk | src/main.rs:123-127 | `get_argument_sum(1..) as u8` is the low 8 bits of the opcode |
| OpCode.ArgumentSumIsMask | src/main.rs:115-127 | summing the masked arguments equals masking the opcode: `nnn == op & 0x0FFF` and `kk == op & 0x00FF` |
| Instructions.FieldsAreExtracted | src/main.rs:105-127 | the decoder's `x`, `y`, `n`, `nnn` and `kk` fields are what the source's nibble and argument-sum helpers return |
| Instructions.DecodeNoOpIff | src/main.rs:163-221 | an opcode decodes to "do nothing" exactly when no arm of `execute_op_code` takes it |
| Instructions.DecodeEncode | src/main.rs:163-221 | decoding the encoding of any instruction gives that instruction: every handler is reachable from a single opcode |
| Machine.FetchOpCode | src/main.rs:156-161 | the corrected fetch: `0x100 * ram[pc] + ram[pc + 1]`, the big-endian instruction at the program counter |
| Interpreter.Chip8.FetchOpCode | src/main.rs:156-161 | the corrected fetch on the RAM array: `0x100 * ram[pc] + ram[pc + 1]` |
| Machine.FetchOpCodeAsWritten | src/main.rs:156-161 | the fetch as written (see "## Findings") is always below 0x100 |
| Properties.FetchAsWrittenDropsHighByte | src/main.rs:156-161 | the fetch as written is `ram[pc] OR ram[pc + 1]`. It agrees with the corrected fetch exactly when `ram[pc] == 0`, and it can only decode to `00EE` or to "do nothing" |
| Properties.FetchAsWrittenCounterexample | src/main.rs:156-161 | with bytes `12 00` at the program counter the corrected fetch gives `0x1200` (jump to 0x200); the fetch as written gives `0x0012` (do nothing) |
| Properties.FetchDecodesStoredInstruction | src/main.rs:147-161 | an instruction stored big-endian at `pc` is fetched and decoded back to itself, and a cycle executes exactly it |
| Machine.EmulateCycle | src/main.rs:147-154 | a cycle that continues leaves a well-formed state (a fetch past the end of RAM is the `Panic` outcome) |
| Interpreter.Chip8.EmulateCycle | src/main.rs:147-154 | fetch then execute on the object moves its state as `Machine.EmulateCycle` |
| Properties.UnknownOpCodeStalls | src/main.rs:147-154 | a cycle on an opcode no arm matches leaves the machine exactly as it was |
| Machine.ExecuteOpCode | src/main.rs:163-221 | when dispatching an opcode from a well-formed state continues, the new state is well formed |
| Machine.Execute | src/main.rs:163-221 | executing a decoded instruction that continues leaves a well-formed state |
| Machine.ExecuteArithmetic | src/main.rs:173-186 | the `8xy?` arm leaves a well-formed state |
| Machine.ExecuteKeypad | src/main.rs:192-198 | the `Ex??` arm leaves a well-formed state |
| Machine.ExecuteMisc | src/main.rs:199-218 | the `Fx??` arm never panics. It hangs exactly when it is `Fx0A` and no key is down; otherwise it continues into a well-formed state |
| Interpreter.Chip8.ExecuteOpCode | src/main.rs:163-221 | the source's range match on the object moves its state as `Machine.ExecuteOpCode`, for every opcode whose execution continues |
| Interpreter.Chip8.ExecuteArithmetic | src/main.rs:173-186 | the match on the fourth nibble moves the state as the decoded `8xy?` instruction |
| Interpreter.Chip8.ExecuteKeypad | src/main.rs:192-198 | the match on the third nibble moves the state as the decoded `Ex??` instruction |
| Interpreter.Chip8.ExecuteMisc | src/main.rs:199-218 | the nested matches move the state as the decoded `Fx??` instruction |
| Machine.LogicArms | src/main.rs:175-184 | `8xy0` to `8xy3` (lines 175-178) run their handler; an unlisted fourth nibble (line 184) changes nothing |
| Machine.ArithmeticArms | src/main.rs:179-183 | `8xy4` to `8xy7` and `8xyE` run their handler |
| Machine.ControlArms | src/main.rs:165-189 | `00EE`, `1nnn`, `2nnn`, `3xkk`, `4xkk` and `5xy?` run their handler; so do `9xy?` (line 187) and `Bnnn` (line 189) |
| Machine.LoadArms | src/main.rs:171-191 | `6xkk`, `7xkk` (lines 171-172), `Annn` (line 188), `Cxkk` and a readable `Dxyn` (lines 190-191) run their handler |
| Machine.FamilyArms | src/main.rs:173-218 | the `8`, `E` and `F` ranges hand over to their inner match |
| Properties.PanicAndHangCauses | src/main.rs:163-221 | an opcode panics only if it is a return on an empty stack, a call on a full stack or a sprite read past RAM. It hangs exactly when it is `Fx0A` and no key is down |
| Properties.ExecuteKeepsMemoryAndScreen | src/main.rs:163-221 | no instruction writes RAM, the display, the redraw flag or the keys |
| Properties.UnmatchedChangesNothing | src/main.rs:163-221 | an opcode no arm matches changes nothing |
| Machine.ReturnFromSubroutine | src/main.rs:223-227 | the result is well formed |
| Properties.ReturnFromSubroutinePops | src/main.rs:223-227 | `00EE` removes the top of the call stack, jumps to it and changes nothing else |
| Interpreter.Chip8.ReturnFromSubroutine | src/main.rs:223-227 | decrements the stack pointer and loads the program counter, as `Machine.ReturnFromSubroutine` |
| Machine.JumpToLocation | src/main.rs:229-231 | the result is well formed |
| Interpreter.Chip8.JumpToLocation | src/main.rs:229-231 | moves the state as `Machine.JumpToLocation` with `nnn` |
| Machine.CallSubroutine | src/main.rs:233-238 | the result is well formed |
| Properties.CallSubroutinePushes | src/main.rs:233-238 | `2nnn` pushes the old program counter onto the call stack, jumps to `nnn` and changes nothing else |
| Properties.CallThenReturn | src/main.rs:223-238 | a call followed by a return restores the program counter, the stack pointer and the live call stack |
| Properties.StackBoundsPanic | src/main.rs:223-238 | a call panics exactly when `sp >= 16`; a return panics exactly when `sp == 0` or `sp > 16` |
| Properties.SpriteBoundsPanic | src/main.rs:73-75 | `Dxyn` panics exactly when the sprite reads a row `ram[i + ay]` past the end of RAM, and continues otherwise |
| Properties.InitializeStackInRange | src/main.rs:131-145 | `initialize` starts with `sp == 0`, inside the stack |
| Properties.ExecuteKeepsStackInRange | src/main.rs:223-238 | every instruction that continues from `sp <= 16` leaves `sp <= 16` |
| Properties.CycleKeepsStackInRange | src/main.rs:147-154 | with `sp <= 16`, a cycle that continues keeps `sp <= 16`, and a return panics exactly when the stack is empty |
| Interpreter.Chip8.CallSubroutine | src/main.rs:233-238 | stores, increments and jumps, as `Machine.CallSubroutine` |
| Machine.SkipIf | src/main.rs:240-256 | the result is well formed |
| Machine.SkipNextIfVxEqKk | src/main.rs:240-244 | the result is well formed |
| Machine.SkipNextIfVxNeqKk | src/main.rs:246-250 | the result is well formed |
| Machine.SkipNextIfVxEqVy | src/main.rs:252-256 | the result is well formed |
| Machine.SkipNextIfVxNeqVy | src/main.rs:328-332 | the result is well formed |
| Properties.SkipOpCodes | src/main.rs:240-256 | `3xkk`, `4xkk`, `5xy?` (up to `5FF0`) and `9xy?`: the program counter advances by 2 when the condition holds; otherwise nothing changes |
| Interpreter.Chip8.SkipNextIfVxEqKk | src/main.rs:240-244 | moves the state as `Machine.SkipNextIfVxEqKk` |
| Interpreter.Chip8.SkipNextIfVxNeqKk | src/main.rs:246-250 | moves the state as `Machine.SkipNextIfVxNeqKk` |
| Interpreter.Chip8.SkipNextIfVxEqVy | src/main.rs:252-256 | moves the state as `Machine.SkipNextIfVxEqVy` |
| Interpreter.Chip8.SkipNextIfVxNeqVy | src/main.rs:328-332 | moves the state as `Machine.SkipNextIfVxNeqVy` |
| Machine.SetVxTo | src/main.rs:258-260 | the result is well formed |
| Machine.AddKkToVx | src/main.rs:262-264 | the result is well formed |
| Machine.SetVxToVy | src/main.rs:266-268 | the result is well formed |
| Machine.SetVxToDelayTimer | src/main.rs:388-390 | the result is well formed |
| Properties.RegisterLoads | src/main.rs:258-268 | `6xkk` sets `Vx` to `kk`; `7xkk` adds `kk` modulo 256 with no flag; `8xy0` copies `Vy`; `Fx07` copies the delay timer (src/main.rs:388-390). Each changes only `Vx` |
| Interpreter.Chip8.SetVxTo | src/main.rs:258-260 | moves the state as `Machine.SetVxTo` |
| Interpreter.Chip8.AddKkToVx | src/main.rs:262-264 | moves the state as `Machine.AddKkToVx` |
| Interpreter.Chip8.SetVxToVy | src/main.rs:266-268 | moves the state as `Machine.SetVxToVy` |
| Interpreter.Chip8.SetVxToDelayTimer | src/main.rs:388-390 | moves the state as `Machine.SetVxToDelayTimer` |
| Machine.SetVxToVxOrVy | src/main.rs:270-272 | the result is well formed |
| Machine.SetVxToVxAndVy | src/main.rs:274-276 | the result is well formed |
| Machine.SetVxToVxXorVy | src/main.rs:278-280 | the result is well formed |
| Machine.SetVxToRandomAndKk | src/main.rs:343-347 | the result is well formed |
| Properties.BitwiseMeaning | src/main.rs:270-280 | bit by bit, the new `Vx` of `8xy1`, `8xy2` and `8xy3` is the OR, AND or XOR of the bits of `Vx` and `Vy`; for `Cxkk` (src/main.rs:343-347) it is the AND of `kk` and the random byte |
| Properties.BitwiseFrame | src/main.rs:270-280 | the three logic operations and `Cxkk` change only `Vx`, and `Cxkk` never exceeds `kk` |
| Properties.XorTwiceRestores | src/main.rs:278-280 | `8xy3` applied twice with `x != y` gives the state back |
| Properties.OrAndWithItself | src/main.rs:270-276 | `8xx1` and `8xx2` change nothing |
| Interpreter.Chip8.SetVxToVxOrVy | src/main.rs:270-272 | moves the state as `Machine.SetVxToVxOrVy` |
| Interpreter.Chip8.SetVxToVxAndVy | src/main.rs:274-276 | moves the state as `Machine.SetVxToVxAndVy` |
| Interpreter.Chip8.SetVxToVxXorVy | src/main.rs:278-280 | moves the state as `Machine.SetVxToVxXorVy` |
| Interpreter.Chip8.SetVxToRandomAndKk | src/main.rs:343-347 | moves the state as `Machine.SetVxToRandomAndKk`, with the random byte as a parameter |
| Machine.SetVxToVxAndVySum | src/main.rs:282-292 | the result is well formed |
| Properties.AddWithCarry | src/main.rs:282-292 | for `x != F`: `Vx` is the sum modulo 256; VF is 1 exactly when the sum exceeds 0xFF; `Vx + 256 * VF` is the true sum; nothing else changes |
| Machine.SetVxToVxAndVyDifference | src/main.rs:294-304 | the result is well formed |
| Machine.SetVxToVyAndVxDifference | src/main.rs:311-321 | the result is well formed |
| Properties.SubtractWithBorrow | src/main.rs:294-321 | for `x != F`: `8xy5` and `8xy7` store the difference modulo 256; VF is 1 exactly when no borrow occurs; nothing else changes |
| Properties.ArithmeticIntoFlag | src/main.rs:282-321 | with `x == F` the flag is overwritten by the wrapped sum or difference, so only VF changes |
| Interpreter.Chip8.SetVxToVxAndVySum | src/main.rs:282-292 | moves the state as `Machine.SetVxToVxAndVySum` |
| Interpreter.Chip8.SetVxToVxAndVyDifference | src/main.rs:294-304 | moves the state as `Machine.SetVxToVxAndVyDifference` |
| Interpreter.Chip8.SetVxToVyAndVxDifference | src/main.rs:311-321 | moves the state as `Machine.SetVxToVyAndVxDifference` |
| Machine.SetVxToVxShiftRight | src/main.rs:306-309 | the result is well formed |
| Machine.SetVxToVxShiftLeft | src/main.rs:323-326 | the result is well formed |
| Properties.ShiftRightMeaning | src/main.rs:306-309 | for `x != F`, VF gets the bit shifted out and `Vx` is halved; nothing else changes |
| Properties.ShiftLeftMeaning | src/main.rs:323-326 | for `x != F`, VF gets the top bit and `Vx` is doubled modulo 256; nothing else changes |
| Properties.ShiftIntoFlag | src/main.rs:306-326 | with `x == F` the shift acts on the flag just written: `8Fy6` leaves VF 0; `8FyE` leaves VF twice the old top bit |
| Interpreter.Chip8.SetVxToVxShiftRight | src/main.rs:306-309 | moves the state as `Machine.SetVxToVxShiftRight` |
| Interpreter.Chip8.SetVxToVxShiftLeft | src/main.rs:323-326 | moves the state as `Machine.SetVxToVxShiftLeft` |
| Machine.SetRegisterIAddress | src/main.rs:334-337 | the result is well formed |
| Machine.JumpToLocationPlusV0 | src/main.rs:339-341 | the result is well formed |
| Properties.JumpsAndAddressLoad | src/main.rs:229-231 | `1nnn` sets the program counter to `nnn`. `Bnnn` (src/main.rs:339-341) sets it to `nnn + V0`, which is below 0x1100. `Annn` (src/main.rs:334-337) sets `I` to `nnn` and advances the program counter by 2. Every other field is unchanged |
| Interpreter.Chip8.SetRegisterIAddress | src/main.rs:334-337 | moves the state as `Machine.SetRegisterIAddress` |
| Interpreter.Chip8.JumpToLocationPlusV0 | src/main.rs:339-341 | moves the state as `Machine.JumpToLocationPlusV0` |
| Machine.DrawSprite | src/main.rs:349-370 | the result is well formed |
| Properties.RowCollidesIff | src/main.rs:356-367 | the inner loop's recursion finds a lit display cell under an unskipped sprite column exactly when one exists |
| Properties.RowsCollideIff | src/main.rs:356-367 | the outer loop's recursion finds a collision exactly when some cell in the first rows collides |
| Properties.DrawSpriteMeaning | src/main.rs:349-370 | `Dxyn` leaves VF 1 exactly when some unskipped cell of the `V[n]`-row sprite lands on a lit cell, and 0 otherwise; the program counter advances by 2; the display, redraw flag and every other register are unchanged |
| Properties.DrawOnBlankScreen | src/main.rs:349-370 | on a blank display `Dxyn` leaves VF 0 |
| Properties.DrawSeesLitCell | src/main.rs:349-370 | a lit cell under one of the first seven columns of a sprite row sets VF to 1 |
| Interpreter.Chip8.DrawSprite | src/main.rs:349-370 | the nested loops move the state as `Machine.DrawSprite` |
| Interpreter.Chip8.DrawRow | src/main.rs:357-366 | one pass of the inner loop sets VF when a row collides and leaves everything else unchanged |
| Machine.SkipNextIfKeyPressed | src/main.rs:372-378 | the result is well formed |
| Machine.SkipNextIfKeyNotPressed | src/main.rs:380-386 | the result is well formed |
| Properties.KeySkipOpCodes | src/main.rs:372-386 | every `E` opcode whose third nibble is 9 (`Ex9E`) or A (`ExA1`) tests key number `x` and advances the program counter by 4 or by 2; nothing else changes |
| Interpreter.Chip8.SkipNextIfKeyPressed | src/main.rs:372-378 | moves the state as `Machine.SkipNextIfKeyPressed` |
| Interpreter.Chip8.SkipNextIfKeyNotPressed | src/main.rs:380-386 | moves the state as `Machine.SkipNextIfKeyNotPressed` |
| Machine.AwaitKeyAndStoreToValueVx | src/main.rs:392-402 | with some key down, the result is well formed |
| Properties.AwaitKey | src/main.rs:392-402 | `Fx0A` hangs exactly when no key is down. Otherwise it stores 1 in `Vx` and changes nothing else |
| Interpreter.Chip8.AwaitKeyAndStoreToValueVx | src/main.rs:392-402 | the scan over the keys finds a key that is down and moves the state as `Machine.AwaitKeyAndStoreToValueVx` |
| Machine.SetDelayTimerToVx | src/main.rs:404-406 | the result is well formed |
| Machine.SetSoundTimerToVx | src/main.rs:408-410 | the result is well formed |
| Machine.SetIToSumOfIAndVx | src/main.rs:412-414 | the result is well formed |
| Properties.TimerAndIndexLoads | src/main.rs:404-414 | `Fx15` and `Fx18` copy `Vx` into their timer; `Fx1E` adds `Vx` to `I` modulo 0x10000; every field other than that destination is unchanged |
| Properties.DelayTimerRoundTrip | src/main.rs:388-406 | `Fx15` then `Fy07` copies `Vx` into `Vy` through the delay timer |
| Properties.IndexOffset | src/main.rs:334-414 | `Annn` then `Fx1E` points `I` at `nnn + Vx` |
| Interpreter.Chip8.SetDelayTimerToVx | src/main.rs:404-406 | moves the state as `Machine.SetDelayTimerToVx` |
| Interpreter.Chip8.SetSoundTimerToVx | src/main.rs:408-410 | moves the state as `Machine.SetSoundTimerToVx` |
| Interpreter.Chip8.SetIToSumOfIAndVx | src/main.rs:412-414 | moves the state as `Machine.SetIToSumOfIAndVx` |
| Machine.ClearScreen | src/main.rs:416-418 | the result is well formed |
| Properties.ClearScreenMeaning | src/main.rs:416-418 | every display cell becomes unlit and nothing else changes; clearing twice equals clearing once; `00E0` is not dispatched, so executing it changes nothing |
| Interpreter.Chip8.ClearScreen | src/main.rs:416-418 | moves the state as `Machine.ClearScreen` |
| Properties.CallReturnScenario | src/main.rs:452-468 | `2001` then `00EE` from `pc == 0x2DAB`, `sp == 3` restores both |
| Properties.AddScenario | src/main.rs:673-694 | `0xFF + 0x03` leaves `0x02` with VF 1; a second add of `0x03` then leaves `0x05` with VF 0 |
| Properties.SubtractScenario | src/main.rs:698-718 | `0xAA - 0xBB` leaves `0xEF` with VF 0; a second subtraction then leaves `0x34` with VF 1 |
| Properties.ShiftRightScenario | src/main.rs:723-738 | `0xA1` shifts to `0x50` with VF 1, then to `0x28` with VF 0 |
| Properties.JumpPlusV0Scenario | src/main.rs:826-833 | `B123` with `V0 == 0xAA` jumps to `0x1CD` |
| Properties.KeyPressedScenario | src/main.rs:867-886 | from `pc == 0xA2` with keys 2 and F down and key 1 up, `E29E` adds 4, `E19F` adds 2 and `EF90` adds 4 |
| Properties.AwaitKeyScenario | src/main.rs:927-938 | with key 2 down, `F50A` stores 1 in `V5` |

## Left out

- Timers are never decremented and no sound is played: `emulate_cycle` only
  carries a comment for that step, so there is nothing to model.
- The random byte of `Cxkk` comes from `rand::thread_rng()`. Here it is a
  parameter of `Machine.Execute`, `Machine.ExecuteOpCode`,
  `Machine.EmulateCycle` and the matching class methods.
- `main`, the WebAssembly bridge `src/wasm_mediator.rs` and the web front
  end are not part of this model: they are I/O around the core.
- Debug builds of the Rust code panic on `u8`/`u16` overflow (for example in
  `7xkk` or `Fx1E`). The model uses release-build wrapping throughout.
- Interpreter.Chip8.AwaitKeyAndStoreToValueVx: requires a key to be down.
  With no key down the source spins forever, and a terminating method cannot
  do that. The endless wait is the `Hang` outcome of `Machine.ExecuteMisc`.
- Interpreter.Chip8.ExecuteOpCode: requires the opcode's execution to
  continue. An index out of range would panic in Rust. The `Panic` and
  `Hang` outcomes are modelled only on values, in `Machine`.
- Interpreter.Chip8.ExecuteMisc: requires the decoded `Fx??` instruction to
  continue, so it excludes `Fx0A` with no key down, on which the source spins
  forever; that endless wait is the `Hang` outcome of `Machine.ExecuteMisc`.
- Interpreter.Chip8.EmulateCycle: requires the cycle to continue, for the
  same reason.
- Interpreter.Chip8.FetchOpCode and Machine.FetchOpCode: these compute the
  intended big-endian fetch, not the expression as written. The expression
  as written is `Machine.FetchOpCodeAsWritten` (see "## Findings").
- The sub-structures `Registers`, `Memory`, `Graphics`, `Timers`, `Stack` and
  `Keypad` are flattened into the fields of one class and one `State`
  record. No aliasing between them is possible in the source either.
- Machine.GetRegisterVFValue has no contract of its own; its meaning is
  stated by `Properties.RegisterVFRoundTrip`.
- Instructions.Decode has no contract of its own; its meaning is stated by
  `Instructions.DecodeEncode`, `Instructions.DecodeNoOpIff` and the dispatch
  lemmas.
- The Rust unit tests not listed in "## Model" are covered by the general
  lemmas for their opcodes rather than by a scenario lemma each. The
  commented-out `Cxkk` test is covered by `Properties.BitwiseFrame`.

## Findings

| source | as written | input that shows it | evidently intended | confidence | as-written member | corrected member |
|---|---|---|---|---|---|---|
| src/main.rs:156-161 | `ram[pc] << 8` shifts a `u8` by its full width before widening. rustc rejects this constant shift by default (the `arithmetic_overflow` lint), so the code as shown does not build. Were the lint allowed, the unchecked shift would take the amount modulo 8 and compute `ram[pc] << 0`; the opcode would then be `ram[pc] OR ram[pc + 1]`, always below 0x100. `Machine.FetchOpCodeAsWritten` is that reading | under the unchecked-shift reading, bytes `12 00` at `pc` (jump to 0x200) are fetched as `0x0012`, which no arm matches | widen before shifting: `(ram[pc] as u16) << 8 OR ram[pc + 1]`, the big-endian opcode `0x1200` | not executed | Machine.FetchOpCodeAsWritten, Properties.FetchAsWrittenCounterexample | Machine.FetchOpCode |
