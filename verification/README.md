# A verified model of the rgb Game Boy (DMG) emulator core

This project models the core of `rgb`, a Game Boy (DMG) emulator written in Rust, as pure Dafny
functions over immutable records, and proves properties of that model. The modelled parts are:

- the CPU interpreter: the ALU, rotate and shift helpers, DAA, 16-bit adds, stack, jumps, calls,
  interrupt dispatch, HALT with the HALT bug, delayed EI/DI, and the `execute` step with its cycle
  costs;
- the register and flat-memory `State` and its power-on values;
- the PPU timing state machine and its pixel helpers;
- the MMU address decoder and the MBC1, MBC3 and MBC5 bank controllers;
- the cartridge header parser;
- the joypad P1 register;
- the flat memory store;
- the older `SystemState` register record.

Registers are `bv8` (`byte`) and `bv16` (`word`). The 64 KiB memory is a total map from addresses
to bytes. Every operation returns a new record. A `panic!` in the Rust code becomes an `Err` value
of a `Result`.

| module | file | models |
|---|---|---|
| Bits | bits.dfy | byte/word helpers shared by all modules (`Hi`, `Lo`, `Join`, bit masks, sign extension), `Result`, `Option` |
| Memory | memory.dfy | `FlatMemory` of `rgb-core/src/memory.rs` |
| System | system.dfy | `State` of `rgb-core/src/system.rs`: register pairs, flags, byte/word access, power-on reset |
| Context | context.dfy | `SystemState` of `src/context.rs`, and its agreement with `System` |
| Alu | alu.dfy | the arithmetic, logic, rotate/shift, DAA, `add_hl` and SP-offset helpers of `instructions.rs` |
| Cpu | cpu.dfy | operand fetch, stack, jumps/calls/returns, interrupts, HALT and delayed IME of `instructions.rs` |
| Opcodes | opcodes.dfy | the instruction set as a datatype, with the opcode decoder and encoder |
| Execute | execute.dfy | the `execute` step: interrupt check, fetch, per-opcode effect and cycle cost |
| Cartridge | cartridge.dfy | `CartridgeType`, `CartridgeHeader::parse`, `Cartridge::from_bytes` and `read` |
| Mmu | mmu.dfy | `Mmu::new`, `read`, `write` and the MBC1/MBC3/MBC5 register writes |
| Ppu | ppu.dfy | `Ppu::new`, `step`, `set_mode`, `update_lyc_flag` and the LCDC/STAT/LYC registers |
| Scanline | scanline.dfy | `scan_oam`, `get_tile_pixel` and `apply_palette` of `ppu.rs` |
| Joypad | joypad.dfy | `Joypad` of `rgb-core/src/joypad.rs` |

The opcode table is not transliterated as 512 match arms. The model decodes an opcode byte into
an `Instr` value using the usual split of the byte into its x/y/z bit fields. It then executes
the `Instr`. `Opcodes.DecodeEncode` and `Opcodes.EncodeDecode` prove that this decoding is a
bijection between the legal opcodes and the well-formed instructions. `Execute.Cost` gives the
cycle count of each opcode arm of `execute`.

The Rust `execute` and its helpers run in the order: interrupts, delayed IME, halt, fetch.
The model's `Execute.Execute` follows the same order: `Prepare` handles everything up to the
fetch, and `Dispatch` executes the fetched opcode.

## Model

| member | source | states |
|---|---|---|
| Memory.New | rgb-core/src/memory.rs:24-28 | a fresh flat memory reads 0 at every one of the 65536 addresses |
| Memory.Read | rgb-core/src/memory.rs:38-40 | `read(a)` is the byte stored at `a`; its meaning is stated by `Memory.New` (all zero) and `Memory.Write` (read-after-write) |
| Memory.Write | rgb-core/src/memory.rs:42-44 | after `write(a, v)`, address `a` reads `v` and every other address reads what it read before |
| Memory.LastWriteWins | rgb-core/src/memory.rs:42-44 | two writes to one address equal the second write alone |
| Memory.WritesCommute | rgb-core/src/memory.rs:42-44 | writes to two different addresses can be swapped |
| Memory.WriteSameValue | rgb-core/src/memory.rs:38-44 | writing back the byte just read leaves the memory equal to what it was |
| Bits.HiLoOfJoin | rgb-core/src/system.rs:103-107 | joining a high and a low byte into a word and splitting it again gives back both bytes |
| Bits.JoinOfHiLo | rgb-core/src/system.rs:109-113 | splitting a word into its high and low bytes and joining them gives back the word |
| Bits.SignExtend | rgb-core/src/instructions.rs:1169-1173 | the `i8` reading of an offset byte, widened to 16 bits: low byte unchanged, high byte 0x00 or 0xFF by bit 7 |
| System.AF | rgb-core/src/system.rs:103-107 | AF has A as its high byte and F as its low byte |
| System.BC | rgb-core/src/system.rs:116-120 | BC has B as its high byte and C as its low byte |
| System.DE | rgb-core/src/system.rs:129-133 | DE has D as its high byte and E as its low byte |
| System.HL | rgb-core/src/system.rs:142-146 | HL has H as its high byte and L as its low byte |
| System.SetAF | rgb-core/src/system.rs:109-113 | after `set_af(v)`, `af()` is `v`, A gets the high byte and F the low byte, and no other field changes |
| System.SetBC | rgb-core/src/system.rs:122-126 | after `set_bc(v)`, `bc()` is `v`, B and C get the high and low byte, and no other field changes |
| System.SetDE | rgb-core/src/system.rs:135-139 | after `set_de(v)`, `de()` is `v`, D and E get the high and low byte, and no other field changes |
| System.SetHL | rgb-core/src/system.rs:148-152 | after `set_hl(v)`, `hl()` is `v`, H and L get the high and low byte, and no other field changes |
| System.SetPairIsolation | rgb-core/src/system.rs:103-175 | setting one register pair leaves the other three pairs, SP, PC and memory unchanged |
| System.Write | rgb-core/src/system.rs:192-195 | `write(a, v)` then `read(a)` gives `v`; every other address and every register is unchanged |
| System.ReadWord | rgb-core/src/system.rs:184-189 | `read_word(a)` is little-endian: its low byte is the byte at `a`, its high byte the byte at `a + 1` |
| System.WriteWord | rgb-core/src/system.rs:197-202 | `write_word(a, w)` stores the low byte at `a` and the high byte at `a + 1`, and nothing else |
| System.WordRoundTrip | rgb-core/src/system.rs:184-202 | `read_word(a)` after `write_word(a, w)` returns `w` |
| System.Read | rgb-core/src/system.rs:179-182 | `read(a)` is the byte of the flat memory at `a`; its meaning is stated by `System.Write` and `System.ReadWord` |
| System.GetFlag | rgb-core/src/system.rs:211-270 | `flag_z`, `flag_n`, `flag_h` and `flag_c` read bits 7, 6, 5 and 4 of F; their meaning is stated by `System.SetFlag` and `System.SetFlags` |
| System.SetFlag | rgb-core/src/system.rs:204-272 | `set_flag_X(b)` makes `flag_X()` equal `b` and changes no other bit of F (the low nibble included) and no other field |
| System.SetFlags | rgb-core/src/system.rs:204-272 | setting Z, N, H and C in turn gives back those four values and keeps F's low nibble and every other field |
| System.ResetCpu | rgb-core/src/system.rs:22-29 | `reset_cpu` loads AF=0x01B0, BC=0x0013, DE=0x00D8, HL=0x014D, SP=0xFFFE, PC=0x0100 and touches nothing else |
| System.ResetTimer | rgb-core/src/system.rs:34-38 | P1=0xFF, DIV=0xAF, TIMA=TMA=TAC=0, and no address outside 0xFF00-0xFF07 changes |
| System.ResetSquare1 | rgb-core/src/system.rs:39-42 | NR10-NR14 get their power-on bytes and nothing outside 0xFF10-0xFF14 changes |
| System.ResetSquare2 | rgb-core/src/system.rs:43-45 | NR21, NR22, NR24 get their power-on bytes and nothing outside 0xFF16-0xFF19 changes |
| System.ResetWave | rgb-core/src/system.rs:46-49 | NR30-NR34 get their power-on bytes and nothing outside 0xFF1A-0xFF1E changes |
| System.ResetNoise | rgb-core/src/system.rs:50-53 | NR41-NR44 get their power-on bytes and nothing outside 0xFF20-0xFF23 changes |
| System.ResetSoundControl | rgb-core/src/system.rs:54-56 | NR50=0x77, NR51=0xF3, NR52=0xF1 and nothing outside 0xFF24-0xFF26 changes |
| System.ResetSound | rgb-core/src/system.rs:39-56 | the sound writes leave NR10=0x80 and NR52=0xF1 and change nothing outside 0xFF10-0xFF26 |
| System.ResetSoundValues | rgb-core/src/system.rs:39-56 | after the sound writes, NR10=0x80, NR11=0xBF, NR12=0xF3, NR14=0xBF, NR21=0x3F, NR22=0x00, NR24=0xBF, NR30=0x7F, NR31=0xFF, NR32=0x9F, NR34=0xBF, NR41=0xFF, NR42=NR43=0x00, NR44=0xBF, NR50=0x77, NR51=0xF3, NR52=0xF1, and the five addresses it does not write (NR13, 0xFF15, NR23, NR33, 0xFF1F) keep their bytes |
| System.ResetLcd | rgb-core/src/system.rs:57-60 | LCDC=0x91, SCY=SCX=LYC=0 and nothing outside 0xFF40-0xFF45 changes |
| System.ResetPalettes | rgb-core/src/system.rs:61-66 | BGP=0xFC, OBP0=OBP1=0xFF, WY=WX=0, IE=0 and nothing else outside 0xFF47-0xFF4B changes |
| System.ResetMemory | rgb-core/src/system.rs:31-67 | `reset_memory` changes only the 33 addresses it writes (P1, DIV-TAC, the 18 sound registers, LCDC, SCY, SCX, LYC, BGP, OBP0, OBP1, WY, WX, IE); every other byte, IF included, is kept |
| System.ResetMemoryValues | rgb-core/src/system.rs:31-67 | after `reset_memory`, P1=0xFF, DIV=0xAF, TIMA=TMA=TAC=0, the 18 sound registers hold their power-on bytes, LCDC=0x91, SCY=SCX=LYC=0, BGP=0xFC, OBP0=OBP1=0xFF, WY=WX=0 and IE=0 |
| System.ResetKeepsLowMemory | rgb-core/src/system.rs:31-67 | `reset_memory` leaves every byte below 0xFF00 unchanged |
| System.Blank | rgb-core/src/system.rs:71-88 | the zeroed record that `default` starts from: every flag false, cycles 0, every memory byte 0 |
| System.PowerOn | rgb-core/src/system.rs:89-90 | `reset_cpu` then `reset_memory` gives the power-on registers and I/O bytes and keeps IME, halt, the delays, cycles and IF |
| System.New | rgb-core/src/system.rs:69-101 | `new()` has AF=0x01B0, BC=0x0013, DE=0x00D8, HL=0x014D, SP=0xFFFE, PC=0x0100, IME off, not halted, cycles 0, LCDC=0x91, BGP=0xFC, IE=IF=0 |
| Context.AF | src/context.rs:41-43 | `af()` is `(a << 8) \| f` |
| Context.BC | src/context.rs:52-54 | `bc()` is `(b << 8) \| c` |
| Context.DE | src/context.rs:63-65 | `de()` is `(d << 8) \| e` |
| Context.HL | src/context.rs:74-76 | `hl()` is `(h << 8) \| l` |
| Context.SetAF | src/context.rs:46-49 | `set_af(v)` makes `af()` equal `v` and leaves every other register unchanged |
| Context.SetBC | src/context.rs:57-60 | `set_bc(v)` makes `bc()` equal `v` and leaves every other register unchanged |
| Context.SetDE | src/context.rs:68-71 | `set_de(v)` makes `de()` equal `v` and leaves every other register unchanged |
| Context.SetHL | src/context.rs:79-82 | `set_hl(v)` makes `hl()` equal `v` and leaves every other register unchanged |
| Context.New | src/context.rs:18-38 | `new()` has AF=0x01B0, BC=0x0013, DE=0x00D8, HL=0x014D, SP=0xFFFE, PC=0x0100 |
| Context.PairRoundTrips | src/context.rs:40-82 | for every pair, set-then-get returns the value and get-then-set changes nothing |
| Context.Project | src/context.rs:3-14 | the registers of a `System.State` viewed as a `SystemState` |
| Context.ProjectionCommutes | src/context.rs:40-82 | the pair getters and setters here agree with those of `system.rs` on every state |
| Context.NewAgrees | src/context.rs:18-38 | `SystemState::new()` has exactly the registers of `State::new()` |
| Alu.AddA | rgb-core/src/instructions.rs:75-85 | `add_a`: the result and flags it computes; what they mean is stated by `Alu.AddIsIntegerSum`, `Alu.AddCarryIsOverflow`, `Alu.AddCarryFlag` and `Alu.AddHalfFlag` |
| Alu.AdcA | rgb-core/src/instructions.rs:92-103 | `adc_a`: the result and flags it computes; what they mean is stated by `Alu.AdcIsIntegerSum`, `Alu.AdcCarryIsOverflow`, `Alu.AdcCarryFlag` and `Alu.AdcHalfFlag` |
| Alu.SubA | rgb-core/src/instructions.rs:110-120 | `sub_a`: the result and flags it computes; what they mean is stated by `Alu.SubCarryIsUnderflow`, `Alu.SubCarryFlag`, `Alu.SubHalfFlag` and `Alu.SubUndoesAdd` |
| Alu.SbcA | rgb-core/src/instructions.rs:127-138 | `sbc_a`: the result and flags it computes; what they mean is stated by `Alu.SbcCarryIsUnderflow`, `Alu.SbcCarryFlag`, `Alu.SbcHalfFlag` and `Alu.SbcUndoesAdc` |
| Alu.AndA | rgb-core/src/instructions.rs:145-154 | `and_a`: the result and flags it computes; what they mean is stated by `Alu.AndBits` |
| Alu.XorA | rgb-core/src/instructions.rs:161-170 | `xor_a`: the result and flags it computes; what they mean is stated by `Alu.XorBits` |
| Alu.OrA | rgb-core/src/instructions.rs:177-186 | `or_a`: the result and flags it computes; what they mean is stated by `Alu.OrBits` |
| Alu.CpA | rgb-core/src/instructions.rs:193-203 | `cp_a`: the result and flags it computes; what they mean is stated by `Alu.CompareIsSubtract` |
| Alu.IncByte | rgb-core/src/instructions.rs:657-664 | `inc_byte`: the result and flags it computes; what they mean is stated by `Alu.IncDecAreAddSubOne` and `Alu.IncDecInverse` |
| Alu.DecByte | rgb-core/src/instructions.rs:701-708 | `dec_byte`: the result and flags it computes; what they mean is stated by `Alu.IncDecAreAddSubOne` and `Alu.IncDecInverse` |
| Alu.Rlc | rgb-core/src/instructions.rs:745-755 | `rlc_byte`: the result and flags it computes; what they mean is stated by `Alu.RlcBits` and `Alu.RotateInverse` |
| Alu.Rrc | rgb-core/src/instructions.rs:831-841 | `rrc_byte`: the result and flags it computes; what they mean is stated by `Alu.RrcBits` and `Alu.RotateInverse` |
| Alu.Rl | rgb-core/src/instructions.rs:886-897 | `rl_byte`: the result and flags it computes; what they mean is stated by `Alu.RlBits` and `Alu.RotateThroughCarryInverse` |
| Alu.Rr | rgb-core/src/instructions.rs:942-953 | `rr_byte`: the result and flags it computes; what they mean is stated by `Alu.RrBits` and `Alu.RotateThroughCarryInverse` |
| Alu.Sla | rgb-core/src/instructions.rs:998-1008 | `sla_byte`: the result and flags it computes; what they mean is stated by `Alu.SlaBits` |
| Alu.Sra | rgb-core/src/instructions.rs:1055-1066 | `sra_byte`: the result and flags it computes; what they mean is stated by `Alu.SraBits` |
| Alu.Swap | rgb-core/src/instructions.rs:1113-1122 | `swap_byte`: the result and flags it computes; what they mean is stated by `Alu.SwapNibbles` and `Alu.SwapTwice` |
| Alu.Daa | rgb-core/src/instructions.rs:1188-1210 | `daa`: the result and flags it computes; what they mean is stated by `Alu.DaaFlags` and `Alu.DaaKeepsBcd` |
| Alu.AddHl | rgb-core/src/instructions.rs:1279-1290 | `add_hl`: the result and flags it computes; what they mean is stated by `Alu.AddHlLow`, `Alu.AddHlHigh`, `Alu.AddHlHalf`, `Alu.AddHlCarry` and `Alu.AddHlKeepsZero` |
| Alu.SpPlusOffset | rgb-core/src/instructions.rs:486-541 | `add_sp_n` and `ld_hl_sp_n`: the result and flags it computes; what they mean is stated by `Alu.SpOffsetLow`, `Alu.SpOffsetHalf` and `Alu.SpOffsetCarry` |
| Alu.AddCarryFlag | rgb-core/src/instructions.rs:75-85 | ADD sets C exactly when the 8-bit result wrapped below A |
| Alu.AddHalfFlag | rgb-core/src/instructions.rs:75-85 | ADD sets H exactly when the low nibble of the result wrapped below A's low nibble |
| Alu.AdcCarryFlag | rgb-core/src/instructions.rs:92-103 | ADC sets C exactly when the result wrapped below A, or equals A with carry in |
| Alu.AdcHalfFlag | rgb-core/src/instructions.rs:92-103 | ADC sets H exactly when the low nibble wrapped, in the same sense as its C |
| Alu.SubCarryFlag | rgb-core/src/instructions.rs:110-120 | SUB sets C exactly when the result wrapped above A, that is when it borrowed |
| Alu.SubHalfFlag | rgb-core/src/instructions.rs:110-120 | SUB sets H exactly when the low nibble borrowed |
| Alu.SbcCarryFlag | rgb-core/src/instructions.rs:127-138 | SBC sets C exactly when the result wrapped above A, or equals A with carry in |
| Alu.SbcHalfFlag | rgb-core/src/instructions.rs:127-138 | SBC sets H exactly when the low nibble borrowed, carry included |
| Alu.CompareIsSubtract | rgb-core/src/instructions.rs:193-203 | CP sets exactly the flags SUB sets; Z iff A equals the operand, C iff A is below it |
| Alu.SubUndoesAdd | rgb-core/src/instructions.rs:75-120 | SUB of the same operand undoes ADD on the accumulator |
| Alu.AddUndoesSub | rgb-core/src/instructions.rs:75-120 | ADD of the same operand undoes SUB on the accumulator |
| Alu.UndoneCarry | rgb-core/src/instructions.rs:75-120 | the borrow of the undoing SUB equals the carry of the ADD, and the other way round |
| Alu.SbcUndoesAdc | rgb-core/src/instructions.rs:92-138 | SBC with the same operand and carry undoes ADC |
| Alu.AdcUndoesSbc | rgb-core/src/instructions.rs:92-138 | ADC with the same operand and carry undoes SBC |
| Alu.AdcIsIntegerSum | rgb-core/src/instructions.rs:92-103 | ADC leaves A' = (A + v + carry) mod 256 as integers |
| Alu.AdcCarryIsOverflow | rgb-core/src/instructions.rs:92-103 | ADC sets C exactly when the integer sum A + v + carry exceeds 255 |
| Alu.AddIsIntegerSum | rgb-core/src/instructions.rs:75-85 | ADD leaves A' = (A + v) mod 256 as integers |
| Alu.AddCarryIsOverflow | rgb-core/src/instructions.rs:75-85 | ADD sets C exactly when the integer sum A + v exceeds 255 |
| Alu.SbcCarryIsUnderflow | rgb-core/src/instructions.rs:127-138 | SBC sets C exactly when A < v + carry as integers |
| Alu.SubCarryIsUnderflow | rgb-core/src/instructions.rs:110-120 | SUB sets C exactly when A < v as integers |
| Alu.AddIsAdcWithoutCarry | rgb-core/src/instructions.rs:75-103 | ADD equals ADC with the carry input clear, flags included |
| Alu.SubIsSbcWithoutCarry | rgb-core/src/instructions.rs:110-138 | SUB equals SBC with the carry input clear, flags included |
| Alu.AndBits | rgb-core/src/instructions.rs:145-154 | bit i of the AND result is set iff it is set in both operands; flags are Z iff zero, N=0, H=1, C=0 |
| Alu.XorBits | rgb-core/src/instructions.rs:161-170 | bit i of the XOR result is set iff the operands differ there; flags are Z iff zero, N=H=C=0 |
| Alu.OrBits | rgb-core/src/instructions.rs:177-186 | bit i of the OR result is set iff it is set in either operand; flags are Z iff zero, N=H=C=0 |
| Alu.LogicWithItself | rgb-core/src/instructions.rs:145-186 | XOR A,A clears A and sets only Z; AND A,A and OR A,A keep A and set Z iff A is 0 |
| Alu.IncDecInverse | rgb-core/src/instructions.rs:657-707 | `dec_byte` undoes `inc_byte` and vice versa, and neither touches C |
| Alu.IncDecAreAddSubOne | rgb-core/src/instructions.rs:657-707 | INC/DEC give the value and Z/N/H flags of ADD/SUB with 1, and keep the old C |
| Alu.RlcBits | rgb-core/src/instructions.rs:745-755 | RLC moves bit j to bit j+1 and bit 7 to bit 0 and into C; Z iff the result is 0, N=H=0 |
| Alu.RrcBits | rgb-core/src/instructions.rs:831-841 | RRC moves bit j+1 to bit j and bit 0 to bit 7 and into C; Z iff the result is 0, N=H=0 |
| Alu.RlBits | rgb-core/src/instructions.rs:886-897 | RL shifts left, takes the old carry into bit 0 and puts bit 7 into C |
| Alu.RrBits | rgb-core/src/instructions.rs:942-953 | RR shifts right, takes the old carry into bit 7 and puts bit 0 into C |
| Alu.SlaBits | rgb-core/src/instructions.rs:998-1008 | SLA shifts left, clears bit 0 and puts bit 7 into C |
| Alu.SraBits | rgb-core/src/instructions.rs:1055-1066 | SRA shifts right, keeps bit 7 and puts bit 0 into C |
| Alu.SwapNibbles | rgb-core/src/instructions.rs:1113-1122 | SWAP exchanges the two nibbles; Z iff the value is 0, and N, H, C are cleared |
| Alu.SwapTwice | rgb-core/src/instructions.rs:1113-1122 | SWAP is an involution |
| Alu.RotateInverse | rgb-core/src/instructions.rs:745-841 | RRC undoes RLC and RLC undoes RRC, and both put the same bit into C |
| Alu.RotateThroughCarryInverse | rgb-core/src/instructions.rs:886-953 | RR with RL's carry out undoes RL and restores the carry, and the other way round |
| Alu.DaaFlags | rgb-core/src/instructions.rs:1188-1210 | DAA sets Z iff the result is 0, clears H, keeps N, and never clears a set C |
| Alu.DaaKeepsBcd | rgb-core/src/instructions.rs:1188-1210 | DAA leaves a valid BCD accumulator unchanged when H and C are clear, and sets no carry |
| Alu.AddHlLow | rgb-core/src/instructions.rs:1279-1290 | the low byte of `add_hl` is the byte ADD of the low bytes |
| Alu.AddHlHigh | rgb-core/src/instructions.rs:1279-1290 | the high byte of `add_hl` is the byte ADC of the high bytes with the low bytes' carry |
| Alu.AddHlHalf | rgb-core/src/instructions.rs:1279-1290 | `add_hl` sets H exactly when that high-byte ADC carries out of bit 3, that is out of bit 11 of the word |
| Alu.AddHlCarry | rgb-core/src/instructions.rs:1279-1290 | `add_hl` sets C exactly when that high-byte ADC carries out of bit 7, that is out of bit 15 of the word |
| Alu.AddHlKeepsZero | rgb-core/src/instructions.rs:1279-1290 | `add_hl` keeps Z and clears N |
| Alu.SpOffsetHalf | rgb-core/src/instructions.rs:486-498 | SP+n sets H as a byte ADD of SP's low byte and n would |
| Alu.SpOffsetCarry | rgb-core/src/instructions.rs:486-498 | SP+n sets C as a byte ADD of SP's low byte and n would, and clears Z and N |
| Alu.SpOffsetLow | rgb-core/src/instructions.rs:529-541 | the low byte of SP+n is the byte sum of SP's low byte and n |
| Cpu.FlagsOf | rgb-core/src/system.rs:211-270 | the four flag getters read as one record |
| Cpu.WithFlags | rgb-core/src/system.rs:211-270 | writing all four flags back gives exactly those flags, keeps F's low nibble and every other field |
| Cpu.ImmediateByte | rgb-core/src/instructions.rs:206-210 | `read_immediate_byte` returns the byte at PC and advances PC by one |
| Cpu.ImmediateWord | rgb-core/src/instructions.rs:213-219 | `read_immediate_word` returns the little-endian word at PC and advances PC by two |
| Cpu.ImmediateWordIsReadWord | rgb-core/src/instructions.rs:213-219 | the immediate word equals `read_word(pc)` |
| Cpu.Push | rgb-core/src/instructions.rs:339-347 | `push_word` lowers SP by 2 with wrap-around, stores the low byte at SP and the high byte at SP+1, and changes nothing else |
| Cpu.Pop | rgb-core/src/instructions.rs:222-233 | `pop_word` reads the low byte at SP and the high byte at SP+1 and raises SP by 2 |
| Cpu.PopAfterPush | rgb-core/src/instructions.rs:222-347 | a pop after a push returns the pushed word and restores SP and every register |
| Cpu.Jp | rgb-core/src/instructions.rs:301-304 | JP loads PC from the immediate word and changes nothing else |
| Cpu.JpCc | rgb-core/src/instructions.rs:307-336 | JP cc jumps when the condition holds and otherwise skips the two operand bytes |
| Cpu.RelativeForward | rgb-core/src/instructions.rs:1169-1173 | an offset below 0x80 moves PC forward by the offset |
| Cpu.RelativeBackward | rgb-core/src/instructions.rs:1169-1173 | an offset of 0x80 or more moves PC back by 256 minus the offset |
| Cpu.Jr | rgb-core/src/instructions.rs:1169-1173 | JR adds the signed offset to the address after the operand |
| Cpu.JrCc | rgb-core/src/instructions.rs:1176-1237 | JR cc jumps when the condition holds and otherwise skips the operand byte |
| Cpu.JrMinusTwoLoops | rgb-core/src/instructions.rs:1169-1173 | `JR -2` jumps back to its own opcode |
| Cpu.Call | rgb-core/src/instructions.rs:350-355 | CALL pushes the address after its operand and jumps to the operand |
| Cpu.CallCc | rgb-core/src/instructions.rs:358-395 | CALL cc calls when the condition holds and otherwise skips the operand |
| Cpu.Ret | rgb-core/src/instructions.rs:236-238 | RET pops PC from the stack and changes nothing else |
| Cpu.RetCc | rgb-core/src/instructions.rs:241-266 | RET cc returns when the condition holds and otherwise changes nothing |
| Cpu.Reti | rgb-core/src/instructions.rs:269-272 | RETI returns and sets IME |
| Cpu.Rst | rgb-core/src/instructions.rs:398-479 | RST pushes PC and jumps to the fixed target |
| Cpu.RetAfterCall | rgb-core/src/instructions.rs:236-355 | RET after CALL continues after the CALL's operand with the old SP |
| Cpu.RetAfterRst | rgb-core/src/instructions.rs:236-479 | RET after RST continues at the old PC with the old SP |
| Cpu.Pending | rgb-core/src/instructions.rs:9-15 | `IE & IF & 0x1F` never has bits 5-7 set |
| Cpu.PendingBit | rgb-core/src/instructions.rs:9-15 | bit k of the pending set is on iff k < 5 and interrupt k is both enabled and requested |
| Cpu.HasPendingInterrupt | rgb-core/src/instructions.rs:9-15 | `has_pending_interrupt` holds iff one of the five interrupts is both enabled in IE and requested in IF |
| Cpu.PendingSomeRequested | rgb-core/src/instructions.rs:9-15 | `IE & IF & 0x1F` is non-zero iff some interrupt 0-4 is both enabled and requested |
| Cpu.LowestBit | rgb-core/src/instructions.rs:32-34 | `trailing_zeros` of a non-zero byte names a set bit with no set bit below it |
| Cpu.Vector | rgb-core/src/instructions.rs:37-44 | interrupt k jumps to 0x40 + 8k |
| Cpu.Chosen | rgb-core/src/instructions.rs:32-34 | the serviced interrupt is the lowest-numbered one that is enabled and requested |
| Cpu.Take | rgb-core/src/instructions.rs:46-68 | servicing interrupt k pushes PC, jumps to its vector, clears IME and halt, adds 20 cycles, and touches only IF and the two stack bytes |
| Cpu.ServiceInterrupts | rgb-core/src/instructions.rs:19-71 | an interrupt is taken iff IME is set and one is pending; otherwise the state is unchanged |
| Cpu.TakeClearsRequest | rgb-core/src/instructions.rs:52-54 | taking interrupt k clears IF bit k, when IF is not one of the two stack bytes written |
| Cpu.ServiceClearsRequest | rgb-core/src/instructions.rs:19-71 | servicing clears the chosen request bit of IF |
| Cpu.ServiceClearsOneRequest | rgb-core/src/instructions.rs:19-71 | after servicing, IF bit j is set iff j is not the chosen interrupt and it was set before |
| Cpu.ServicePriority | rgb-core/src/instructions.rs:32-44 | the serviced interrupt is requested and every lower-numbered one is not |
| Cpu.RetiResumes | rgb-core/src/instructions.rs:19-272 | RETI after servicing an interrupt resumes at the interrupted PC and SP with IME set |
| Cpu.Halt | rgb-core/src/instructions.rs:570-580 | HALT with IME clear and an interrupt pending arms the HALT bug and does not halt; otherwise it halts |
| Cpu.HandleDelayedIme | rgb-core/src/instructions.rs:592-608 | a pending DI clears IME and a pending EI sets it, each only when the last opcode was not DI or EI itself; EI wins when both apply |
| Cpu.HandleHaltAsWritten | rgb-core/src/instructions.rs:629-654 | the Rust code's `handle_halt`: with the HALT bug armed it disarms it and moves PC back by one; otherwise it halts on until an interrupt is pending |
| Cpu.HandleHalt | rgb-core/src/instructions.rs:629-654 | the corrected `handle_halt`: with the HALT bug armed it disarms it and asks the next fetch not to advance PC |
| Cpu.HaltedWaits | rgb-core/src/instructions.rs:638-650 | a halted CPU with nothing pending fetches nothing; with an interrupt pending it wakes and fetches |
| Cpu.HaltThenSleep | rgb-core/src/instructions.rs:570-654 | after a normal HALT the next step fetches iff an interrupt is pending |
| Opcodes.Encode | rgb-core/src/instructions.rs:1387-2972 | the opcode of an instruction has exactly that instruction's x/y/z bit fields |
| Opcodes.Decode | rgb-core/src/instructions.rs:1387-2972 | the instruction each opcode arm of `execute` stands for; its meaning is stated by `Opcodes.EncodeDecode`, `Opcodes.DecodeEncode` and `Opcodes.DecodeFails` |
| Opcodes.DecodeCb | rgb-core/src/instructions.rs:2420-2707 | the instruction each arm of the CB match stands for; its meaning is stated by `Opcodes.EncodeDecodeCb` and `Opcodes.DecodeEncodeCb` |
| Opcodes.FieldsOfDecoded | rgb-core/src/instructions.rs:1387-2972 | every instruction the field decoder produces is well formed and has the fields it was decoded from |
| Opcodes.FieldsRoundTrip | rgb-core/src/instructions.rs:1387-2972 | decoding the fields of a well-formed instruction gives the instruction back |
| Opcodes.EncodeDecode | rgb-core/src/instructions.rs:1387-2972 | every opcode that decodes re-encodes to itself |
| Opcodes.DecodeEncode | rgb-core/src/instructions.rs:1387-2972 | every well-formed instruction decodes from its own opcode |
| Opcodes.DecodeNop | rgb-core/src/instructions.rs:1388-1391 | opcode 0x00 is NOP |
| Opcodes.DecodeHalt | rgb-core/src/instructions.rs:1981-1985 | opcode 0x76 is HALT |
| Opcodes.DecodeFails | rgb-core/src/instructions.rs:449-455 | an opcode fails to decode iff it is one of the eleven illegal opcodes, with that opcode in the error |
| Opcodes.DecodeEncodeCb | rgb-core/src/instructions.rs:2420-2703 | every CB instruction decodes from its own encoding |
| Opcodes.EncodeDecodeCb | rgb-core/src/instructions.rs:2420-2707 | a CB operand decodes iff it is below 0x38, re-encodes to itself, and otherwise fails with the operand in the error |
| Execute.SetReg | rgb-core/src/instructions.rs:1717-1980 | writing operand r (a register or the byte at HL) makes it read back the value and leaves every other register unchanged |
| Execute.Operate | rgb-core/src/instructions.rs:1387-2972 | the effect of one instruction on the registers and memory; its meaning is stated per instruction by `Execute.CopyReg`, `Execute.Modify`, `Execute.OperateCb`, `Execute.PushThenPop`, `Execute.IncThenDecPair`, `Execute.RotateAccumulator` and the other `Execute` lemmas below |
| Execute.Prepare | rgb-core/src/instructions.rs:1365-1385 | the corrected part of `execute` before the opcode match; its meaning is stated by `Execute.PrepareServicesFirst`, `Execute.PrepareWaitsWhileHalted`, `Execute.PrepareFetches`, `Execute.PrepareHaltBug` and `Execute.PrepareWithoutInterrupt` |
| Execute.PrepareAsWritten | rgb-core/src/instructions.rs:1365-1385 | the same part as the Rust code writes it; its HALT-bug behaviour is stated by `Execute.PrepareHaltBugAsWritten` |
| Execute.Execute | rgb-core/src/instructions.rs:1365-2972 | the corrected `execute`; its meaning is stated by `Execute.ExecuteServicesFirst`, `Execute.ExecuteWaitsWhileHalted`, `Execute.ExecuteFaults`, `Execute.ExecuteCycles` and `Execute.HaltBugThenNop` |
| Execute.ExecuteAsWritten | rgb-core/src/instructions.rs:1365-2972 | `execute` as the Rust code writes it; its HALT-bug livelock is stated by `Execute.HaltBugAsWrittenRepeats` and `Execute.HaltBugAsWrittenLivelock` |
| Execute.SetPair | rgb-core/src/instructions.rs:1392-1396 | writing BC, DE, HL or SP reads back the value and leaves the other pairs unchanged |
| Execute.SetStack | rgb-core/src/instructions.rs:2365-2369 | writing BC, DE, HL or AF as a stack pair reads back the value and leaves everything but that pair unchanged |
| Execute.StepHL | rgb-core/src/instructions.rs:1561-1565 | `LDI`/`LDD` step HL up or down by one with wrap-around; the BC and DE forms leave the state unchanged |
| Execute.HighAddr | rgb-core/src/instructions.rs:435-439 | LDH addresses 0xFF00 + n |
| Execute.RstTarget | rgb-core/src/instructions.rs:398-479 | every RST target is one of 0x00, 0x08, ..., 0x38 |
| Execute.ShiftOut | rgb-core/src/instructions.rs:745-1122 | every CB rotate, shift or swap sets Z iff its result is 0 and clears N and H |
| Execute.Modify | rgb-core/src/instructions.rs:657-707 | a read-modify-write of operand r stores the computed value in r |
| Execute.CopyReg | rgb-core/src/instructions.rs:1717-1980 | `LD d,r` makes d read what r read |
| Execute.RotateAccumulator | rgb-core/src/instructions.rs:825-994 | RLCA/RRCA/RLA/RRA rotate A and set C like the CB forms, but always clear Z even when A becomes 0 |
| Execute.OperateCb | rgb-core/src/instructions.rs:2420-2703 | a CB instruction stores the rotate/shift/swap result in its operand |
| Execute.Cost | rgb-core/src/instructions.rs:1387-2972 | every unprefixed opcode costs a positive multiple of 4 cycles |
| Execute.CbCost | rgb-core/src/instructions.rs:2420-2703 | a CB instruction costs 8 cycles, or 16 on the byte at HL |
| Execute.StepCb | rgb-core/src/instructions.rs:2420-2707 | a CB operand of 0x38 or more aborts with that operand; otherwise the step adds 8 or 16 cycles |
| Execute.Step | rgb-core/src/instructions.rs:1387-2972 | an instruction aborts only as a CB prefix with an unimplemented operand; otherwise it adds a positive multiple of 4 cycles |
| Execute.Fetch | rgb-core/src/instructions.rs:1384-1385 | the fetch reads the byte at PC, records it as `last_opcode` and advances PC unless told to repeat |
| Execute.Dispatch | rgb-core/src/instructions.rs:1387-2972 | an opcode aborts iff it is illegal or a CB prefix whose operand is 0x38 or more; otherwise it adds a positive multiple of 4 cycles |
| Execute.PrefixOpcode | rgb-core/src/instructions.rs:2420-2423 | only 0xCB decodes to the CB prefix |
| Execute.FetchUnlessHalted | rgb-core/src/instructions.rs:1376-1385 | a still-halted CPU fetches nothing; otherwise the byte at PC is fetched |
| Execute.RetCcCost | rgb-core/src/instructions.rs:2359-2364 | conditional RET costs 20 cycles when taken and 8 when not |
| Execute.JpCcCost | rgb-core/src/instructions.rs:2370-2375 | conditional JP costs 16 cycles when taken and 12 when not |
| Execute.CallCcCost | rgb-core/src/instructions.rs:2381-2386 | conditional CALL costs 24 cycles when taken and 12 when not |
| Execute.IncThenDecReg | rgb-core/src/instructions.rs:657-742 | DEC r after INC r restores r |
| Execute.SetPairOwn | rgb-core/src/instructions.rs:1392-1396 | writing a pair's own value back changes nothing |
| Execute.SetPairTwice | rgb-core/src/instructions.rs:1392-1396 | a second write to a pair overrides the first |
| Execute.IncThenDecPair | rgb-core/src/instructions.rs:1317-1362 | DEC rr after INC rr restores the whole state |
| Execute.SetStackOwn | rgb-core/src/instructions.rs:2365-2369 | writing a stack pair's own value back changes nothing |
| Execute.PushThenPop | rgb-core/src/instructions.rs:2365-2391 | POP rr after PUSH rr leaves the state of the push with SP restored |
| Execute.CompareIsSubtractKeepingA | rgb-core/src/instructions.rs:193-203 | CP has the effect of SUB except that A is kept |
| Execute.RotateABack | rgb-core/src/instructions.rs:825-882 | RRCA after RLCA restores A |
| Execute.RotateThroughCarryBack | rgb-core/src/instructions.rs:935-994 | RRA after RLA restores A and the carry flag |
| Execute.SwapTwiceRestores | rgb-core/src/instructions.rs:1113-1165 | two CB SWAPs of the same operand restore it |
| Execute.ComplementTwice | rgb-core/src/instructions.rs:1240-1258 | CPL twice restores A, CCF twice restores C, and SCF sets C |
| Execute.DispatchEncoded | rgb-core/src/instructions.rs:1387-2972 | dispatching the opcode of a well-formed instruction executes that instruction |
| Execute.StepNop | rgb-core/src/instructions.rs:1388-1391 | NOP only adds 4 cycles |
| Execute.StepHalt | rgb-core/src/instructions.rs:1981-1985 | HALT does what `halt` does and adds 4 cycles |
| Execute.DispatchNop | rgb-core/src/instructions.rs:1388-1391 | opcode 0x00 only adds 4 cycles |
| Execute.DispatchHalt | rgb-core/src/instructions.rs:1981-1985 | opcode 0x76 does what `halt` does and adds 4 cycles |
| Execute.DelayedImeKeepsPending | rgb-core/src/instructions.rs:592-608 | the delayed IME step changes neither memory nor PC, so the pending interrupts stay the same |
| Execute.PrepareServicesFirst | rgb-core/src/instructions.rs:1367-1370 | with IME set and an interrupt pending, the step services the interrupt and fetches nothing |
| Execute.PrepareWaitsWhileHalted | rgb-core/src/instructions.rs:1372-1380 | a halted CPU with nothing pending only applies the delayed IME change |
| Execute.PrepareFetches | rgb-core/src/instructions.rs:1365-1385 | with no interrupt taken, not halted and no HALT bug, the step fetches the byte at PC and advances PC |
| Execute.PrepareHaltBug | rgb-core/src/instructions.rs:629-636 | corrected: with the HALT bug armed, the byte at PC (the one after HALT) is fetched without advancing PC |
| Execute.PrepareHaltBugAsWritten | rgb-core/src/instructions.rs:629-636 | as written: with the HALT bug armed, the byte before PC (the HALT itself) is fetched again |
| Execute.PrepareWithoutInterrupt | rgb-core/src/instructions.rs:1365-1385 | when no interrupt is taken, the step is delayed IME, then the halt check, then the fetch |
| Execute.ExecuteServicesFirst | rgb-core/src/instructions.rs:1365-1370 | `execute` with IME set and an interrupt pending only services the interrupt |
| Execute.ExecuteWaitsWhileHalted | rgb-core/src/instructions.rs:1372-1380 | `execute` on a halted CPU with nothing pending only applies the delayed IME change, adding no cycles |
| Execute.ExecuteFaults | rgb-core/src/instructions.rs:1365-2972 | when an opcode is fetched, `execute` aborts iff it is illegal or a CB prefix with an operand of 0x38 or more |
| Execute.PrepareCycles | rgb-core/src/instructions.rs:1365-1385 | the part before the fetch adds 20 cycles when it services an interrupt and none otherwise |
| Execute.ExecuteCycles | rgb-core/src/instructions.rs:1365-2972 | one `execute` adds 0 cycles (still halted), 20 (interrupt) or a positive multiple of 4 |
| Execute.ExecuteHaltArmsBug | rgb-core/src/instructions.rs:570-580 | HALT with IME clear and an interrupt pending arms the HALT bug, advances PC past it, and adds 4 cycles |
| Execute.HaltRearms | rgb-core/src/instructions.rs:570-580 | re-executing HALT with IME clear and an interrupt pending re-arms the HALT bug and adds 4 cycles |
| Execute.HaltBugAsWrittenRepeats | rgb-core/src/instructions.rs:629-636 | as written, the step after the HALT bug re-executes the HALT and returns to the same state, 4 cycles later |
| Execute.HaltBugAsWrittenLivelock | rgb-core/src/instructions.rs:629-636 | as written, n steps from that state only add 4n cycles: the CPU never gets past the HALT |
| Execute.HaltBugNopOnce | rgb-core/src/instructions.rs:629-636 | corrected: with the HALT bug armed and a NOP after the HALT, the next step executes that NOP without advancing PC and disarms the bug |
| Execute.HaltBugThenNop | rgb-core/src/instructions.rs:568-580 | corrected: with the HALT bug armed and a NOP after the HALT, two steps execute that NOP twice, take 8 cycles, and leave PC one past it |
| Cartridge.FromByte | rgb-core/src/cartridge.rs:31-45 | the type byte maps 0x00 to RomOnly, 0x01-0x03 to MBC1, 0x11-0x13 to MBC3, 0x19-0x1B to MBC5 and every other byte b to Unsupported(b); `has_ram` is true exactly for 0x02, 0x03, 0x12, 0x13, 0x1A, 0x1B |
| Cartridge.HasRam | rgb-core/src/cartridge.rs:48-54 | `has_ram`; its truth table over the type bytes is stated by `Cartridge.FromByte` |
| Cartridge.RomSize | rgb-core/src/cartridge.rs:115-129 | a ROM size code is known iff it is at most 8 |
| Cartridge.RomSizeIsPowerOfTwo | rgb-core/src/cartridge.rs:115-129 | ROM size code k means 32 KiB times 2^k, that is 2^(k+1) banks of 16 KiB |
| Cartridge.RamSize | rgb-core/src/cartridge.rs:132-143 | a RAM size code is known iff it is at most 5; code 0 alone means no RAM; codes 2-5 are whole 8 KiB banks |
| Cartridge.ChecksumStep | rgb-core/src/cartridge.rs:152 | one `wrapping_sub(byte).wrapping_sub(1)` step is (c - b - 1) mod 256 as integers |
| Cartridge.ChecksumClosed | rgb-core/src/cartridge.rs:149-153 | the step folded over any bytes from 0 gives (-(their sum) - their count) mod 256 |
| Cartridge.HeaderChecksum | rgb-core/src/cartridge.rs:150-153 | the header checksum is (-(the sum of bytes 0x134-0x14C) - 25) mod 256 |
| Cartridge.ComputeHeaderChecksum | rgb-core/src/cartridge.rs:149-153 | the byte-by-byte loop ends with (-(the sum of bytes 0x134-0x14C) - 25) mod 256, the value of `Cartridge.HeaderChecksum` |
| Cartridge.Parse | rgb-core/src/cartridge.rs:96-171 | parsing fails for images under 0x150 bytes, for unknown size codes and for a wrong checksum, and succeeds otherwise with the header's fields |
| Cartridge.ParseChecksum | rgb-core/src/cartridge.rs:150-160 | with known size codes, an image parses iff byte 0x14D equals (-(the sum of bytes 0x134-0x14C) - 25) mod 256 |
| Cartridge.WithChecksum | rgb-core/src/cartridge.rs:149-160 | an image with byte 0x14D replaced by its computed checksum, every other byte kept |
| Cartridge.WithChecksumParses | rgb-core/src/cartridge.rs:96-171 | an image with known size codes parses once its checksum byte is correct |
| Cartridge.FromBytes | rgb-core/src/cartridge.rs:214-219 | `from_bytes` succeeds iff the header parses, keeps the ROM bytes unchanged, and passes on the parse error |
| Cartridge.Read | rgb-core/src/cartridge.rs:228-236 | `read(a)` is `rom[a]` inside the image and 0xFF past its end |
| Cartridge.ReadHeaderBytes | rgb-core/src/cartridge.rs:96-236 | reading 0x147, 0x14C and 0x14D of a loaded cartridge gives its header's type, version and checksum |
| Mmu.New | rgb-core/src/mmu.rs:65-84 | a new MMU selects ROM bank 1 and RAM bank 0, keeps RAM disabled, sizes external RAM from the header and zeroes VRAM and WRAM |
| Mmu.Decode | rgb-core/src/mmu.rs:87-132 | every address maps to exactly one region, with an index inside that region's array |
| Mmu.Read | rgb-core/src/mmu.rs:87-132 | `Mmu::read`; region by region its meaning is stated by `Mmu.RomReads`, `Mmu.ExternalRamGate`, `Mmu.ReadInternal`, `Mmu.EchoMirrors`, `Mmu.ProhibitedIgnored`, `Mmu.InterruptEnableAlias` and `Mmu.ReadOutsideInternal` |
| Mmu.Write | rgb-core/src/mmu.rs:135-175 | writes above 0x7FFF never fail and never change the cartridge or the bank registers |
| Mmu.MbcWrite | rgb-core/src/mmu.rs:177-198 | `mbc_write` routes by cartridge type; its meaning is stated by `Mmu.RomWritesIgnored`, `Mmu.RamEnableRegister`, `Mmu.FaultOnlyWithoutBanks` and `Mmu.SelectBank` |
| Mmu.ReduceBank | rgb-core/src/mmu.rs:223-224 | `bank % max_banks` is defined iff the ROM has a whole bank, and is then below the bank count |
| Mmu.Mbc1Low | rgb-core/src/mmu.rs:211-215 | the low bank register: `v & 0x1F`, with 0 read as 1, always in 1-31 |
| Mmu.Mbc1Joined | rgb-core/src/mmu.rs:233-237 | the bank's bits 4-0 joined with the upper bits at bit 5, 0 read as 1: its low five bits are the old bank's, or 1 when the joined value is 0 |
| Mmu.Mbc1Write | rgb-core/src/mmu.rs:202-265 | 0x2000-0x3FFF succeeds iff the ROM holds a bank and selects `Mbc1Low(v)` mod banks (RAM mode) or `Mbc1Low(v) + 32 * upper` mod banks (ROM mode); 0x4000-0x5FFF stores `v & 3` as the upper bits and then re-selects `Mbc1Joined(bank, v & 3)` mod banks (ROM mode) or sets the RAM bank to `v & 3` (RAM mode); 0x6000-0x7FFF sets the mode to `v & 1` and then clears the RAM bank (mode 0) or keeps the ROM bank's bits 4-0, 0 read as 1 (mode 1); the cartridge is never changed |
| Mmu.Mbc1UpperWrite | rgb-core/src/mmu.rs:228-239 | in ROM mode with at least one bank, a write of u <= 3 to 0x4000 succeeds, stores u as the upper bits and stays in ROM mode |
| Mmu.Mbc1LowWrite | rgb-core/src/mmu.rs:209-225 | in ROM mode, a write of l to 0x2000 selects exactly `Mbc1Low(l) + 32 * upper` when that bank is in range |
| Mmu.Mbc1SelectBank | rgb-core/src/mmu.rs:209-239 | in ROM mode, writing u <= 3 to 0x4000 and then l to 0x2000 selects bank `Mbc1Low(l) + 32u` whenever it is in range |
| Mmu.Mbc3Write | rgb-core/src/mmu.rs:268-303 | a bank register write selects `(v & 0x7F, with 0 read as 1) mod banks` and succeeds iff the ROM holds a bank; 0x4000-0x5FFF selects RAM bank v only for v <= 3; the RTC registers and latch change nothing |
| Mmu.ReduceIfOutOfRange | rgb-core/src/mmu.rs:319-322 | a bank below the bank count is kept; one at or above it becomes bank mod the bank count when the ROM holds a bank and fails otherwise; every success is bank mod the bank count |
| Mmu.WithLowByte | rgb-core/src/mmu.rs:315-317 | the bank number with its low 8 bits replaced by v and bit 8 kept |
| Mmu.WithBit8 | rgb-core/src/mmu.rs:327-329 | the bank number with bit 8 replaced by bit 0 of v and the low 8 bits kept |
| Mmu.Mbc5Write | rgb-core/src/mmu.rs:306-347 | 0x2000-0x2FFF selects `WithLowByte(bank, v)` and 0x3000-0x3FFF `WithBit8(bank, v)`, each mod the bank count and kept as is when already in range, succeeding iff the ROM holds a bank; 0x4000-0x5FFF sets the RAM bank to `v & 0x0F`; 0x6000-0x7FFF changes nothing |
| Mmu.ReadInternal | rgb-core/src/mmu.rs:98-131 | a read in VRAM, WRAM, echo, OAM, I/O, HRAM or IE reads the decoded array slot |
| Mmu.Put | rgb-core/src/mmu.rs:141-172 | storing into an internal array slot makes it read back and leaves the cartridge and banking state alone |
| Mmu.WriteInternal | rgb-core/src/mmu.rs:141-172 | a write to an internal region is exactly a store into its decoded slot |
| Mmu.FetchPut | rgb-core/src/mmu.rs:141-172 | a store changes its own slot and no other slot |
| Mmu.ReadOutsideInternal | rgb-core/src/mmu.rs:87-111 | reads of ROM, external RAM and the prohibited area depend only on the cartridge and banking state |
| Mmu.ReadAfterWrite | rgb-core/src/mmu.rs:135-172 | a write to VRAM, WRAM, OAM, I/O or HRAM reads back at the same slot and changes no other slot |
| Mmu.EchoMirrors | rgb-core/src/mmu.rs:114-115 | for 0xE000-0xFDFF, reads (and writes, line 157) act on the address 0x2000 lower |
| Mmu.ProhibitedIgnored | rgb-core/src/mmu.rs:120-121 | 0xFEA0-0xFEFF reads 0xFF and ignores writes (line 163) |
| Mmu.InterruptEnableAlias | rgb-core/src/mmu.rs:129-130 | 0xFFFF shares its storage with 0xFF7F, for reads and for writes (line 172) |
| Mmu.RomReads | rgb-core/src/mmu.rs:90-96 | 0x0000-0x3FFF reads the cartridge; 0x4000-0x7FFF reads `rom[rom_bank * 0x4000 + (a - 0x4000)]`, or 0xFF past the end |
| Mmu.ExternalRamGate | rgb-core/src/mmu.rs:102-109 | external RAM reads 0xFF and ignores writes unless enabled and present; out-of-range offsets read 0xFF and drop writes |
| Mmu.RamEnableRegister | rgb-core/src/mmu.rs:205-207 | on any MBC cartridge a write to 0x0000-0x1FFF enables RAM iff `v & 0x0F == 0x0A` and changes nothing else; RAM is then accessible iff it is also present |
| Mmu.RomWritesIgnored | rgb-core/src/mmu.rs:177-198 | ROM-only and unsupported cartridges ignore every write to 0x0000-0x7FFF |
| Mmu.FaultOnlyWithoutBanks | rgb-core/src/mmu.rs:223-224 | a write can fail only as a write to 0x2000-0x5FFF on an MBC cartridge whose ROM holds no whole 16 KiB bank, and never fails when it holds one |
| Mmu.NewBankValid | rgb-core/src/mmu.rs:65-84 | the initial bank 1 lies inside the ROM iff the ROM holds at least two banks |
| Mmu.WritePreservesBankValid | rgb-core/src/mmu.rs:135-348 | once the ROM bank lies inside the ROM, every write keeps it there and none fails |
| Mmu.BankValidReadsImage | rgb-core/src/mmu.rs:93-96 | with a valid bank, a read of 0x4000-0x7FFF always reads the ROM image, never the 0xFF fallback |
| Mmu.Mbc3SelectBank | rgb-core/src/mmu.rs:276-283 | selecting an in-range non-zero bank on MBC3 selects exactly that bank |
| Mmu.Mbc5SelectBank | rgb-core/src/mmu.rs:313-323 | selecting an in-range bank below 256 on MBC5 selects exactly that bank |
| Mmu.SelectBank | rgb-core/src/mmu.rs:177-198 | an MBC3 or MBC5 bank write of an in-range non-zero bank selects it |
| Mmu.SelectBankThenRead | rgb-core/src/mmu.rs:93-96 | after selecting bank b, address 0x4000 + k reads byte b * 0x4000 + k of the ROM |
| Ppu.Stat | rgb-core/src/ppu.rs:16-36 | the STAT byte: bits 0-1 are the mode, bit 2 the coincidence flag, bits 3-6 the enables, bit 7 clear |
| Ppu.New | rgb-core/src/ppu.rs:47-69 | a new PPU is on line 0 at dot 252 in HBlank with LCDC=0x91, STAT=0, BGP=0xFC, OBP0=OBP1=0xFF and no interrupt raised |
| Ppu.ValidModeBounds | rgb-core/src/ppu.rs:71-116 | in a valid state OamSearch means dot < 80, PixelTransfer 80-251, HBlank 252-455, LY stays in 0-153, and VBlank holds iff LY >= 144 |
| Ppu.NewValid | rgb-core/src/ppu.rs:47-69 | the power-on PPU satisfies the timing invariant and has the LCD on |
| Ppu.SetMode | rgb-core/src/ppu.rs:118-133 | `set_mode` stores the mode in STAT bits 0-1 and raises the STAT interrupt on an actual change into an enabled HBlank, VBlank or OamSearch |
| Ppu.UpdateLycFlag | rgb-core/src/ppu.rs:135-147 | `update_lyc_flag` makes STAT bit 2 equal LY == LYC and raises the STAT interrupt when they are equal and bit 6 is set |
| Ppu.ReadStat | rgb-core/src/ppu.rs:183-185 | `read_stat` always has bit 7 set, with the mode in bits 0-1 |
| Ppu.WriteStat | rgb-core/src/ppu.rs:187-189 | `write_stat` sets STAT bits 3-6 from the value, keeps the mode and coincidence bits, and changes neither the clock nor the interrupt flags |
| Ppu.WriteLyc | rgb-core/src/ppu.rs:215-218 | `write_lyc` stores LYC, recomputes STAT bit 2 and leaves the other STAT bits alone |
| Ppu.WriteLcdc | rgb-core/src/ppu.rs:169-181 | turning the LCD off resets LY and the dot counter and enters OamSearch; any other LCDC write only stores the byte |
| Ppu.WritesKeepValid | rgb-core/src/ppu.rs:169-218 | LCDC, STAT and LYC writes keep the timing invariant |
| Ppu.Step | rgb-core/src/ppu.rs:71-74 | `step` changes nothing while LCDC bit 7 is clear and otherwise advances one dot per cycle |
| Ppu.Tick | rgb-core/src/ppu.rs:76-114 | one iteration of `step`'s loop; its meaning is stated by `Ppu.TickValid`, `Ppu.TickKeepsRegisters` and `Ppu.TickInterrupts` |
| Ppu.Run | rgb-core/src/ppu.rs:76-114 | n iterations of that loop; its meaning is stated by `Ppu.RunValid`, `Ppu.RunSplit`, `Ppu.RunKeepsFlags` and `Ppu.RunKeepsLycAgrees` |
| Ppu.OamDot | rgb-core/src/ppu.rs:80-82 | the OamSearch arm; its meaning is stated by `Ppu.OamDotValid` and `Ppu.OamDotFlags` |
| Ppu.TransferDot | rgb-core/src/ppu.rs:83-86 | the PixelTransfer arm; its meaning is stated by `Ppu.TransferDotValid` and `Ppu.TransferDotFlags` |
| Ppu.HBlankDot | rgb-core/src/ppu.rs:87-100 | the HBlank arm; its meaning is stated by `Ppu.HBlankDotValid`, `Ppu.HBlankDotFlags` and `Ppu.VBlankEntry` |
| Ppu.VBlankDot | rgb-core/src/ppu.rs:101-112 | the VBlank arm; its meaning is stated by `Ppu.VBlankDotValid` and `Ppu.VBlankDotFlags` |
| Ppu.OamDotValid | rgb-core/src/ppu.rs:80-82 | a dot in OamSearch keeps the invariant and advances the frame position by one |
| Ppu.TransferDotValid | rgb-core/src/ppu.rs:83-86 | a dot in PixelTransfer keeps the invariant and advances the frame position by one |
| Ppu.HBlankDotValid | rgb-core/src/ppu.rs:87-100 | a dot in HBlank keeps the invariant and advances the frame position by one |
| Ppu.VBlankDotValid | rgb-core/src/ppu.rs:101-112 | a dot in VBlank keeps the invariant and advances the frame position by one, wrapping at the end of line 153 |
| Ppu.TickValid | rgb-core/src/ppu.rs:76-114 | one dot keeps the timing invariant and advances the position modulo the 70224 dots of a frame |
| Ppu.TickKeepsRegisters | rgb-core/src/ppu.rs:76-114 | a dot never changes LCDC, LYC, the STAT enables or the view registers |
| Ppu.OamDotFlags | rgb-core/src/ppu.rs:80-82 | a dot in OamSearch raises interrupts exactly as the line and mode change demands |
| Ppu.TransferDotFlags | rgb-core/src/ppu.rs:83-86 | a dot in PixelTransfer raises interrupts exactly as the line and mode change demands |
| Ppu.HBlankDotFlags | rgb-core/src/ppu.rs:87-100 | a dot in HBlank raises interrupts exactly as the line and mode change demands |
| Ppu.VBlankDotFlags | rgb-core/src/ppu.rs:101-112 | a dot in VBlank raises interrupts exactly as the line and mode change demands |
| Ppu.TickInterrupts | rgb-core/src/ppu.rs:76-114 | after a line change STAT bit 2 is LY == LYC; VBlank is raised only on entering line 144; STAT is raised only on an enabled mode change or an enabled match |
| Ppu.RunValid | rgb-core/src/ppu.rs:76-114 | n dots keep the timing invariant and advance the position by n modulo a frame |
| Ppu.RunKeepsLcdc | rgb-core/src/ppu.rs:76-114 | running dots never changes LCDC |
| Ppu.StepValid | rgb-core/src/ppu.rs:71-116 | `step` keeps the timing invariant |
| Ppu.StepLine | rgb-core/src/ppu.rs:71-116 | 456 dots advance LY by exactly one, modulo 154, and return to the same dot |
| Ppu.StepFrame | rgb-core/src/ppu.rs:71-116 | 456 * 154 dots return the line, dot and mode to where they were |
| Ppu.ClockAt | rgb-core/src/ppu.rs:71-116 | the line, dot and mode at a given position in the frame |
| Ppu.StepClock | rgb-core/src/ppu.rs:71-116 | after `step(n)` the clock is the one at position (start + n) modulo the frame length |
| Ppu.RunSplit | rgb-core/src/ppu.rs:76-114 | running a dots then b dots is running a + b dots |
| Ppu.StepTwice | rgb-core/src/ppu.rs:71-116 | `step(a)` then `step(b)` is `step(a + b)` |
| Ppu.RunKeepsFlags | rgb-core/src/ppu.rs:76-114 | a raised VBlank or STAT interrupt flag stays raised while dots run |
| Ppu.RunKeepsLycAgrees | rgb-core/src/ppu.rs:76-114 | once STAT bit 2 agrees with LY == LYC, running dots keeps it agreeing |
| Ppu.WriteLycAgrees | rgb-core/src/ppu.rs:215-218 | after `write_lyc`, STAT bit 2 agrees with LY == LYC |
| Ppu.StartStep | rgb-core/src/ppu.rs:47-116 | from power-on, `step(n)` reaches the clock at position 252 + n within the first frame |
| Ppu.NewAtStart | rgb-core/src/ppu.rs:47-69 | the power-on PPU is at line 0, dot 252, HBlank, with the LCD on |
| Ppu.StartLineModes | rgb-core/src/ppu.rs:574-605 | from power-on, 100 dots stay on line 0; line 1 starts after 204 dots in OamSearch, enters PixelTransfer 80 dots later and HBlank 172 dots after that; line 2 starts 456 dots after line 1 |
| Ppu.StartFrameLines | rgb-core/src/ppu.rs:526-571 | from power-on, 456 * 144 dots reach line 144 in VBlank, 456 * 153 reach line 153, and 456 * 154 return to the start |
| Ppu.VBlankEntry | rgb-core/src/ppu.rs:87-95 | the last HBlank dot of line 143 enters line 144 in VBlank and raises the VBlank interrupt |
| Ppu.StartVBlankInterrupt | rgb-core/src/ppu.rs:607-616 | from power-on, 456 * 144 dots reach VBlank with the VBlank interrupt raised |
| Ppu.StartLycMatch | rgb-core/src/ppu.rs:635-649 | with LYC=5 written at power-on, 5 lines later STAT bit 2 reads set |
| Ppu.RunKeepsRegisters | rgb-core/src/ppu.rs:76-114 | running dots never changes LYC or the view registers |
| Scanline.SpriteHeight | rgb-core/src/ppu.rs:268-274 | sprites are 16 lines tall iff LCDC bit 2 is set, else 8 |
| Scanline.Entry | rgb-core/src/ppu.rs:405-409 | OAM entry i has y = byte 4i - 16, x = byte 4i+1 - 8, then the tile and attribute bytes |
| Scanline.CoveringPrefix | rgb-core/src/ppu.rs:404-422 | scanning more entries only extends the list of covering sprites |
| Scanline.CoveringSound | rgb-core/src/ppu.rs:411 | every listed sprite satisfies y <= LY < y + height |
| Scanline.CoveringComplete | rgb-core/src/ppu.rs:411 | every scanned entry that covers the line is listed |
| Scanline.ScanOam | rgb-core/src/ppu.rs:398-424 | `scan_oam` keeps the first at most 10 covering sprites in OAM order |
| Scanline.ScanResult | rgb-core/src/ppu.rs:398-424 | every sprite kept for the line covers it, and when at most ten entries cover the line every one of them is kept |
| Scanline.TilePixel | rgb-core/src/ppu.rs:492-502 | pixel x of a tile row is in 0-3, its bit 0 from the low byte and its bit 1 from the high byte at bit 7 - x |
| Scanline.TilePixelAt | rgb-core/src/ppu.rs:492-502 | pixel x of row y of the tile at `tile_addr` is a colour in 0-3 whose bit 0 comes from VRAM byte `tile_addr - 0x8000 + 2y` and bit 1 from the byte after it, both at bit 7 - x |
| Scanline.DecodeEncodeRow | rgb-core/src/ppu.rs:492-502 | decoding the two bytes encoded from eight 2-bit pixels gives each pixel back |
| Scanline.EncodeDecodeRow | rgb-core/src/ppu.rs:492-502 | encoding the eight decoded pixels of two bytes gives the two bytes back |
| Scanline.ApplyPalette | rgb-core/src/ppu.rs:504-512 | a palette lookup gives a shade in 0-3, and 0 for a colour above 3 |
| Scanline.PaletteOfShades | rgb-core/src/ppu.rs:504-512 | colour c looks up bits 2c-2c+1 of the palette: a palette built from four shades gives each back |
| Scanline.ShadesOfPalette | rgb-core/src/ppu.rs:504-512 | the four shades of a palette rebuild the palette byte |
| Joypad.New | rgb-core/src/joypad.rs:38-51 | a new joypad selects both groups and has no button pressed |
| Joypad.Press | rgb-core/src/joypad.rs:53-64 | `press(b)` marks b pressed and changes no other button or select flag |
| Joypad.Release | rgb-core/src/joypad.rs:66-77 | `release(b)` marks b released and changes no other button or select flag |
| Joypad.PressThenRelease | rgb-core/src/joypad.rs:53-77 | releasing after pressing is releasing alone, so a button that was up is restored |
| Joypad.Read | rgb-core/src/joypad.rs:79-105 | P1 always has bits 6-7 set, and bits 4 and 5 are clear exactly when the direction or action group is selected |
| Joypad.ReadLines | rgb-core/src/joypad.rs:90-102 | low bit i of P1 is 0 iff a selected group has its button i pressed |
| Joypad.ReadIdle | rgb-core/src/joypad.rs:79-105 | with nothing pressed the low nibble is 0xF, and a new joypad reads 0xCF |
| Joypad.Write | rgb-core/src/joypad.rs:107-110 | a write selects the groups from bits 5 and 4 (active low) and changes no button |
| Joypad.WriteThenRead | rgb-core/src/joypad.rs:79-110 | bits 4-5 read back as written, and a write ignores every other bit |

## Left out

- Rendering: `render_scanline`, `render_background`, `render_window` and `render_sprites` fill a 160x144 framebuffer. Only the pixel, palette and OAM helpers they use are modelled. The `should_render_scanline` and `should_scan_oam` signals are kept as plain fields.
- Input and output: `Cartridge::load` reads a file. The `Display` implementations format text. The front ends print registers or drive a web page. None of them is modelled.
- Cartridge title: the header keeps it as the raw 16 bytes at 0x134-0x143. The lossy UTF-8 decoding and the trimming of NULs and spaces are not modelled, because the model has no text type for them.
- MBC3 real-time clock: the Rust code leaves its registers and latch as TODOs. The model treats them as writes that change nothing, which is exactly what the Rust code does.
- Timer, serial and sound: only their power-on register bytes exist in the Rust code, and those are modelled by `System.ResetMemory` and `System.ResetMemoryValues`. There is no timer and no component that forwards machine cycles from the CPU to the PPU, so the CPU and the PPU are modelled as separate step functions.
- System.ResetSound: its own contract states NR10, NR52 and the frame; the other sixteen sound bytes and the five unwritten addresses are stated by `System.ResetSoundValues`.
- Conditional JR timing: the conditional JR arms charge 8 cycles whether or not the jump is taken. On real hardware a taken JR cc takes 12. The model charges 8, as the Rust code does.
- Panics: an illegal opcode and an unimplemented CB operand panic in the Rust code. In the model they return `Err(Illegal(op))` or `Err(UnimplementedCb(op))`.
- Bank count of zero: the MBC bank reduction `% max_banks` panics when the ROM holds no whole bank. The model returns `Err(NoRomBanks)` instead.
- `unreachable!` arms: the `_ => return false` arm of `service_interrupts` and the `unreachable!()` arms of the MBC writes cannot be reached, and the model omits them.
- Wrapping arithmetic: `pc += 1`, `state.pc += 2` and `addr + 1` in `read_word` and `write_word` are not wrapping adds in the Rust code, so a debug build would panic at 0xFFFF. The model wraps these to 16 bits, as a release build does. The stack pointer already wraps in the Rust code.
- Cycle counter: `cycles` is a `u32` in the Rust code. The model uses an unbounded `nat`, so there is no wrap after 2^32 cycles.
- Missing state fields: the Rust code's `State` lacks the `halt_bug` and `last_opcode` fields that `instructions.rs` writes. The model's `System.State` has both.
- Cpu.Halt: a HALT executed while the HALT bug is already armed only re-arms it, as in the Rust code. The model does not claim what real hardware does there.
- Alu.DaaFlags: states the flag rules and that a valid BCD value with H and C clear is kept. It does not state that DAA yields the decimal sum or difference of two BCD operands.
- Alu.SbcCarryIsUnderflow: states the borrow as an integer comparison. The integer value of the SUB/SBC result is stated only through `Alu.AddUndoesSub` and `Alu.AdcUndoesSbc`.
- Alu.AddHlHigh: `add_hl` is stated byte-wise, as an ADD of the low bytes chained into an ADC of the high bytes. The 16-bit integer sum is not stated directly.
- Alu.SpOffsetLow: for SP+n, the low byte and the H and C flags are stated. The signed 16-bit sum SP + (n as i8) is not stated as an integer equation.
- Execute.Cost: states that every opcode costs a positive multiple of 4. Beyond the conditional RET, JP and CALL lemmas and NOP/HALT, the model does not restate each opcode's exact cost as a separate lemma. The costs themselves are taken from the Rust code's arms.

## Flags register

On real hardware the low nibble of F always reads as zero. In the Rust code, `set_af` and `POP AF` store all eight bits, and no flag setter clears the low nibble. The model follows the Rust code: `System.SetAF` stores the whole byte, and `System.SetFlag` proves that the flag setters leave the low nibble alone.

## Findings

| source | as written | input that shows it | evidently intended | confidence | as-written member | corrected member |
|---|---|---|---|---|---|---|
| rgb-core/src/instructions.rs:629-636 | when the HALT bug is armed, `handle_halt` moves PC back by one before the fetch. PC already points past the HALT, so the fetch reads the HALT opcode again. That HALT, still with IME clear and an interrupt pending, re-arms the bug | IME clear, IE & IF & 0x1F non-zero, no EI/DI pending, and a HALT (0x76) executed at address p | the doc comment on `halt` (lines 566-569): the byte after HALT is read twice. The fetch after the HALT reads address p + 1 without advancing PC, and the next fetch reads it again | not executed | Execute.HaltBugAsWrittenLivelock | Execute.HaltBugThenNop |

`Execute.HaltBugAsWrittenLivelock` proves the as-written discrepancy for every number of steps n: `execute`, as written, only adds 4n cycles and never leaves the HALT. It uses `Cpu.HandleHaltAsWritten`, `Execute.ExecuteAsWritten` and `Execute.HaltBugAsWrittenRepeats`. The corrected `Cpu.HandleHalt` keeps PC and tells the next fetch not to advance it. `Execute.Execute` uses the corrected version. `Execute.HaltBugThenNop` proves that two steps from the armed state execute the byte after HALT twice and end one past it.
