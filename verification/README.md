# agentOS in Dafny

agentOS runs guest operating systems on seL4. This project models the parts of it whose
correctness is hardest to see from the code, and proves what those parts are for:

- **Curve and authenticator arithmetic** (`field25519`, `x25519`, `scalar25519`, `poly1305`): the
  16-limb field of Curve25519, the X25519 ladder, reduction and multiply-add modulo the Ed25519
  group order, and incremental Poly1305. Machine integers are 32-bit and 64-bit newtypes, so every
  operation is also proved not to overflow. Results are stated against RFC 7748 and RFC 8439.
- **Virtual x86 interrupt controllers and timers** (`lapic`, `interrupts`, `rtc`): the local APIC
  and its timer, the I/O APIC, inter-processor commands, and the MC146818 clock.
- **Guest memory and firmware** (`firmware`, `fdt`): page walks, batched INSB into guest RAM, the
  firmware configuration device, and the flattened device tree builder against an independent reader.
- **Virtual block and display devices** (`pump`, `display`, `framebuffer`, `observer`, `packed`):
  request rings and their pump under every interleaving with the client, chunked host transfers, the
  one-slot display queue and the forwarding of a selected rectangle under every interleaving with the
  driver, surfaces with handles and rebinding, captures and their packed replies.
- **Capabilities and guest life cycles** (`lease`, `lifecycle`, `spawn`): leases and loans, the
  life-cycle calls of a guest, staged teardown and re-creation with retries, and spawning a child.

`modular` and `machine` hold the shared arithmetic of residues, limbs, bytes and memory. Code of the
system that updates state in place is modelled by classes and array methods; each is proved against
functions on values, and the lemmas are about those functions. Kernel calls, device answers, clocks
and the other end of a shared queue are parameters: every result is for all their values. Absent
strings and lists are modelled for device-tree strings and capability lists; other NULL arguments are
not. Where code and documentation disagree the model follows the code.

## Where the code differs from what one expects

- Poly1305 (`Poly1305.TagIsRfcIff`): the last lines add the high parts of three limbs twice. The tag
  is that of RFC 8439 exactly when bits 32-51, 64-77 and 96-103 of the accumulator are zero, and
  `Poly1305.TagCounterexample` is a key and a message for which it is not.
- INIT (`Interrupts.InitKeepsIff`, `Interrupts.InitStrands`): resetting the only processor that holds
  a level interrupt leaves its input latched with no processor left to retire it; this happens
  exactly if no processor outside the command holds the vector. `Interrupts.InitStrands` gets there
  from power-on. Without INIT no level interrupt is ever stranded.
- Request rings (`Rings.LandsIff`, `Rings.PostedContents`): slots are taken modulo the capacity after
  32-bit wrap. With r = 2^32 mod capacity, posting overwrites a live entry exactly if r is not zero,
  the new index lies less than r past the wrap, and at least r entries are live. `Rings.PostLoses` is
  such a ring; `Rings.CollisionlessIff` says when a ring can be filled without that.
- Device tree (`FdtBuilder.Builder.Finish`): the returned size is rounded up past the buffer exactly
  if structure and strings pass the largest multiple of four in it; error -4 cannot occur.
  `FdtBuilder.Overshoots` is such a build.
- INSB (`StringIo.Insb`, `StringIo.BackwardRefused`): backwards, the range test also refuses bytes
  that are mapped, near the end of RAM. `StringIo.InterleavedIff` says exactly when marking all
  page-table entries first differs from marking and storing byte by byte.
- Leases (`CapLease.StaleCloseIff`): an old id becomes valid again exactly after a multiple of 2^24 =
  16777216 openings of its slot; `CapLease.StaleIdCloses` reaches that from a fresh table.
- Calendar (`Calendar.EncodeDecode`): the encoder also takes years of the century from 100 to 255 and
  carries them into the century.

## Model

| member | source | states |
|---|---|---|
| `Field25519.Car` | libs/pd-support/monocypher.c:224-233 | One carry pass never overflows 64 bits, takes a known multiple q of 2p off the value, and leaves every limb but the first in [0, 2^16), the first off by exactly 38q. |
| `Field25519.CarryKeeps` | libs/pd-support/monocypher.c:224-233 | Moving a carry of q from limb i to limb i+1 does not change the number. |
| `Field25519.WrapKeeps` | libs/pd-support/monocypher.c:224-233 | Moving a carry of q out of the top limb back in as 38q changes the number by exactly -q·2p, that is, by nothing mod p. |
| `Field25519.CarQuotient` | libs/pd-support/monocypher.c:224-233 | The q taken off by a pass is the true quotient of the value by 2^256. |
| `Field25519.Add` | libs/pd-support/monocypher.c:235-238 | Limb-wise sum: value of the result is the sum of the values, also when output and inputs are the same array, and limbs stay small enough to multiply. |
| `Field25519.Sub` | libs/pd-support/monocypher.c:240-243 | The same for the difference; negative limbs are allowed. |
| `Field25519.Copy` | libs/pd-support/monocypher.c:245-248 | The output equals the input as it was before, aliased or not. |
| `Field25519.Convolve` | libs/pd-support/monocypher.c:250-257 | The 31 product columns stay within 64 bits and stand for exactly the product of the two values. |
| `Field25519.FoldHigh` | libs/pd-support/monocypher.c:258 | Folding columns 16 to 30 back with the factor 38 keeps the value mod p within 64 bits. |
| `Field25519.FoldKeeps` | libs/pd-support/monocypher.c:258 | 2^256 = 38 mod p: why the fold is sound. |
| `Field25519.CarTwice` | libs/pd-support/monocypher.c:259-261 | Two passes bring any product back to reduced limbs without changing the value mod p. |
| `Field25519.Mul` | libs/pd-support/monocypher.c:250-261 | Multiplication in GF(2^255-19) for all inputs that additions and subtractions of reduced elements can produce, aliasing allowed; the result is reduced again. |
| `Field25519.Sq` | libs/pd-support/monocypher.c:263-266 | Squaring mod p, aliasing allowed. |
| `Field25519.Sel` | libs/pd-support/monocypher.c:269-277 | With b = 1 the two elements are exchanged, with b = 0 neither changes. |
| `Field25519.CarThrice` | libs/pd-support/monocypher.c:280-286 | Three passes make every limb lie in [0, 2^16), value unchanged mod p. |
| `Field25519.ThirdCarry` | libs/pd-support/monocypher.c:280-286 | The third pass carries nothing into the first limb any more. |
| `Field25519.PLValue` | libs/pd-support/monocypher.c:287-296 | The subtracted limb constants are the digits of p. |
| `Field25519.BorrowFirst` | libs/pd-support/monocypher.c:288 | The first limb of the difference. |
| `Field25519.BorrowLimb` | libs/pd-support/monocypher.c:289-294 | One limb more: digits below are proper, the partial difference is exact. |
| `Field25519.Borrow` | libs/pd-support/monocypher.c:287-296 | One pass of limb-wise subtraction of p: the borrow bit is 1 exactly when the value is below p, otherwise the limbs hold value - p. |
| `Field25519.DiffSign` | libs/pd-support/monocypher.c:287-296 | The sign of the top limb decides the comparison with p. |
| `Field25519.SubtractTwice` | libs/pd-support/monocypher.c:287-297 | Two conditional subtractions leave exactly the residue mod p. |
| `Field25519.StoreLimbs` | libs/pd-support/monocypher.c:298-301 | The 32 bytes stand little-endian for the same number as the limbs. |
| `Field25519.Pack` | libs/pd-support/monocypher.c:280-302 | For every element the arithmetic can produce, the stored 32 bytes are the canonical representative: little-endian value = element mod p, below p. |
| `Field25519.Unpack` | libs/pd-support/monocypher.c:305-310 | The limbs stand for the 32 bytes with the top bit ignored. |
| `Field25519.InvertStart` | libs/pd-support/monocypher.c:427-433 | The opening of the addition chain holds z^11 and z^31. |
| `Field25519.MulPow` | libs/pd-support/monocypher.c:427-433 | Multiplying two powers of z adds their exponents. |
| `Field25519.SqTimes` | libs/pd-support/monocypher.c:435-436 | n squarings double the exponent n times. |
| `Field25519.Stretch` | libs/pd-support/monocypher.c:435-437 | n squarings and a multiplication by another power. |
| `Field25519.StretchOnes` | libs/pd-support/monocypher.c:435-441 | From z^(2^x-1) and z^(2^n-1), n squarings and a multiplication give z^(2^(x+n)-1). |
| `Field25519.InvertMiddle` | libs/pd-support/monocypher.c:435-449 | From z^31 to z^(2^50-1). |
| `Field25519.InvertLong` | libs/pd-support/monocypher.c:451-461 | From z^(2^50-1) to z^(2^250-1). |
| `Field25519.ChainEnd` | libs/pd-support/monocypher.c:462-468 | Five more squarings of z^(2^250-1) and z^11 end at the exponent p-2. |
| `Field25519.Invert` | libs/pd-support/monocypher.c:423-469 | The 254-squaring chain computes z^(p-2) mod p. |
| `Field25519.RootStart` | libs/pd-support/monocypher.c:338-342 | a^31 in the registers of the square-root chain. |
| `Field25519.RootMiddle` | libs/pd-support/monocypher.c:343-350 | From a^31 to a^(2^50-1) in place. |
| `Field25519.RootLong` | libs/pd-support/monocypher.c:351-356 | From a^(2^50-1) to a^(2^250-1) in place. |
| `Field25519.RootLaw` | libs/pd-support/monocypher.c:327-334 | Whatever is a^(2^252-3) mod p, its eighth power times a^3 is the inverse of a. |
| `Field25519.Pow2523` | libs/pd-support/monocypher.c:325-359 | The chain computes a^(2^252-3) mod p, also when the output is the input, and so meets that law. |
| `X25519.ClampRange` | libs/pd-support/monocypher.c:1079-1084 | A clamped scalar is a multiple of 8 in [2^254, 2^255). |
| `X25519.BitOfBytes` | libs/pd-support/monocypher.c:1108 | The bit expression on the byte array is bit i of the little-endian scalar. |
| `X25519.AddSymmetric` | libs/pd-support/monocypher.c:1117-1126 | Differential addition does not depend on the order of its two points. |
| `X25519.SwapsAreInvisible` | libs/pd-support/monocypher.c:1106-1134 | For every scalar and u: the swap-delayed ladder of section 5 of RFC 7748, after its last swap, is the plain Montgomery ladder that never swaps and branches on each bit. |
| `X25519.Squares` | libs/pd-support/monocypher.c:1117-1119 | The first half of the step: sums, differences and their squares mod p. |
| `X25519.Cross` | libs/pd-support/monocypher.c:1120-1123 | The two cross products DA and CB mod p. |
| `X25519.DiffAdd` | libs/pd-support/monocypher.c:1125-1126 | The new x3 and z3 mod p, computed in place. |
| `X25519.Double` | libs/pd-support/monocypher.c:1127-1129 | The new x2 and z2 mod p with the constant 121665. |
| `X25519.LadderStep` | libs/pd-support/monocypher.c:1115-1129 | One in-place iteration on the field arrays computes one step of the RFC ladder on all four coordinates mod p. |
| `X25519.Loop` | libs/pd-support/monocypher.c:1106-1130 | After all 255 iterations the arrays and the pending swap are those of the RFC pseudo-code for this scalar. |
| `X25519.Affine` | libs/pd-support/monocypher.c:1136-1140 | x·z^(p-2) mod p as canonical bytes. |
| `X25519.CryptoX25519` | libs/pd-support/monocypher.c:1075-1141 | End to end on bytes: for every secret and peer key the 32 output bytes are the canonical encoding of the RFC 7748 result for the clamped scalar and the peer u with its top bit masked; no step overflows. |
| `Scalar25519.FoldKeeps` | libs/pd-support/monocypher.c:604-605 | Replacing limb i through the six-coefficient table takes off exactly limb·2^(21(i-12))·L. |
| `Scalar25519.Fold` | libs/pd-support/monocypher.c:604-605 | One table fold: same residue mod L, the folded limb zero, exact bounds on the six limbs it touches, no overflow. |
| `Scalar25519.Carry` | libs/pd-support/monocypher.c:617 | A rounding carry keeps the value and leaves the limb in [-2^20, 2^20). |
| `Scalar25519.CarryDown` | libs/pd-support/monocypher.c:658 | A floor carry keeps the value and leaves the limb in [0, 2^21). |
| `Scalar25519.CarryAlternate` | libs/pd-support/monocypher.c:617-622 | A run of independent alternate carries, with the growth of the limbs in between bounded. |
| `Scalar25519.FoldStep` | libs/pd-support/monocypher.c:604-615 | One fold of a run of six, with the bound it leaves. |
| `Scalar25519.FoldSix` | libs/pd-support/monocypher.c:604-615 | Six folds one after another stay within 64 bits and clear the six top limbs. |
| `Scalar25519.Upper` | libs/pd-support/monocypher.c:604-627 | The upper half of the schedule: residue kept, 18 limbs below 2^34 left. |
| `Scalar25519.Lower` | libs/pd-support/monocypher.c:629-653 | The lower half: residue kept, 13 limbs left. |
| `Scalar25519.FirstFold` | libs/pd-support/monocypher.c:655-669 | Fold of limb 12 and carry chain: 12 proper digits and a limb 12 that is 0 or -1. |
| `Scalar25519.SecondFold` | libs/pd-support/monocypher.c:671-684 | A second fold of limb 12 ends in [0, L). |
| `Scalar25519.Chain` | libs/pd-support/monocypher.c:658-669 | A chain of floor carries keeps the value and makes proper digits. |
| `Scalar25519.Reduce` | libs/pd-support/monocypher.c:604-684 | The whole schedule computes the residue mod L for every 24-limb input the callers produce. |
| `Scalar25519.LoadLimbs` | libs/pd-support/monocypher.c:572-596 | The bit-window loader reads the little-endian number exactly, for 64-byte and 32-byte inputs. |
| `Scalar25519.LimbOfBytes` | libs/pd-support/monocypher.c:573-584 | Window i of the byte string is digit i in base 2^21. |
| `Scalar25519.ByteOfLimbs` | libs/pd-support/monocypher.c:687-702 | Each byte expression of the store is the matching base-256 digit of the limbs. |
| `Scalar25519.StoreLimbs` | libs/pd-support/monocypher.c:686-702 | The 32 stored bytes stand for the same number as the limbs. |
| `Scalar25519.ScReduce` | libs/pd-support/monocypher.c:551-703 | The first 32 bytes become the 512-bit little-endian input mod the group order L, the other 32 become zero. |
| `Scalar25519.Products` | libs/pd-support/monocypher.c:759-782 | The unrolled product columns plus c stand for a·b + c without overflow. |
| `Scalar25519.Row` | libs/pd-support/monocypher.c:759-781 | One row of the product added to the columns. |
| `Scalar25519.Widen` | libs/pd-support/monocypher.c:759-782 | The columns start as c. |
| `Scalar25519.CarryProduct` | libs/pd-support/monocypher.c:790-813 | The carries before the reduction keep the value and bring every limb below 2^31. |
| `Scalar25519.ScMuladd` | libs/pd-support/monocypher.c:712-931 | 32 output bytes = (a·b + c) mod L for all 32-byte a, b, c. |
| `Poly1305.MaskedDigits` | libs/pd-support/monocypher.c:1298-1303 | The five 26-bit masks on overlapping 32-bit loads are the byte clamp of RFC 8439, section 2.5. |
| `Poly1305.KeyLimbs` | libs/pd-support/monocypher.c:1298-1303 | The limbs of r stand for the clamped first half of the key. |
| `Poly1305.LoadsAreDigits` | libs/pd-support/monocypher.c:1325-1329 | The five overlapping loads are the base-2^26 digits of the block. |
| `Poly1305.MulReduce` | libs/pd-support/monocypher.c:1331-1359 | h·r mod 2^130-5 in 64-bit columns without overflow, with limbs small enough for the next block. |
| `Poly1305.CarryUp` | libs/pd-support/monocypher.c:1347-1359 | The carry pass keeps the value mod 2^130-5. |
| `Poly1305.BlockLimbs` | libs/pd-support/monocypher.c:1317-1363 | One block: h becomes (h + block)·r mod 2^130-5. |
| `Poly1305.RfcAccAppend` | libs/pd-support/monocypher.c:1317-1363 | The RFC accumulator is a left fold over 16-byte blocks. |
| `Poly1305.Context.constructor` | libs/pd-support/monocypher.c:1296-1315 | A fresh context has absorbed nothing and holds the clamped r and the words of s. |
| `Poly1305.Context.Block` | libs/pd-support/monocypher.c:1317-1363 | Absorbing one full block extends the absorbed message by those 16 bytes. |
| `Poly1305.Context.CopyIn` | libs/pd-support/monocypher.c:1371 | Bytes copied into the buffer at its end. |
| `Poly1305.Context.TopUp` | libs/pd-support/monocypher.c:1367-1374 | The partial buffer takes as many bytes as fit, in order. |
| `Poly1305.Context.Fill` | libs/pd-support/monocypher.c:1367-1379 | A full buffer is absorbed and emptied; buffered plus absorbed bytes are always the message so far. |
| `Poly1305.Context.Whole` | libs/pd-support/monocypher.c:1381-1385 | The loop over full blocks absorbs exactly their bytes. |
| `Poly1305.Context.Rest` | libs/pd-support/monocypher.c:1387-1390 | The tail is buffered. |
| `Poly1305.Context.Update` | libs/pd-support/monocypher.c:1365-1391 | Whatever the split into calls, the context stands for the concatenation of all bytes given so far. |
| `Poly1305.Context.PadBuffer` | libs/pd-support/monocypher.c:1396-1397 | A one byte, then zeros. |
| `Poly1305.Context.CloseMessage` | libs/pd-support/monocypher.c:1395-1399 | After the last partial block the accumulator is that of RFC 8439, section 2.5.1, for the whole message. |
| `Poly1305.CarryPass` | libs/pd-support/monocypher.c:1404-1410 | The final carry pass gives proper digits of the same residue. |
| `Poly1305.AddFive` | libs/pd-support/monocypher.c:1412-1417 | h + 5 with its carries: whether it reaches 2^130 decides h >= 2^130-5. |
| `Poly1305.Select` | libs/pd-support/monocypher.c:1412-1427 | The branch-free comparison with 2^130-5 picks the residue below it. |
| `Poly1305.FinalLimbs` | libs/pd-support/monocypher.c:1401-1427 | The limbs before the tag are the digits of the accumulator mod 2^130-5. |
| `Poly1305.TagBytes` | libs/pd-support/monocypher.c:1430-1438 | The four words stored little-endian. |
| `Poly1305.Context.Final` | libs/pd-support/monocypher.c:1393-1441 | The stored 16 bytes are the four words of lines 1430 to 1433 for the fully reduced accumulator of the whole message, and the context is wiped. |
| `Poly1305.Context.Wipe` | libs/pd-support/monocypher.c:1440 | Key, accumulator and buffered bytes all become zero. |
| `Poly1305.Mac` | libs/pd-support/monocypher.c:1296-1441 | Key and message in, tag out: the 16 bytes are the RFC 8439 tag if and only if bits 32-51, 64-77 and 96-103 of the RFC accumulator are zero. |
| `Poly1305.TagExact` | libs/pd-support/monocypher.c:1429-1433 | The 128-bit tag number equals (h + s) mod 2^128 if and only if h1 < 2^6, h2 < 2^12 and h3 < 2^18. |
| `Poly1305.TagBits` | libs/pd-support/monocypher.c:1429-1433 | That condition on limbs is: accumulator bits 32-51, 64-77 and 96-103 are all zero. |
| `Poly1305.TagIsRfcIff` | libs/pd-support/monocypher.c:1429-1438 | For every key and message: the tag this code stores is the RFC 8439 tag if and only if those accumulator bits are zero. |
| `Poly1305.TagCounterexample` | libs/pd-support/monocypher.c:1429-1438 | Four zero bytes under a key whose first half is 1 (which the clamp keeps): the tag returned differs from that of RFC 8439, whatever the second half of the key. |
| `Lapic.CountCompose` | platform/guest-vmm/x86_apic.c:38-47 | Counting e1 and then e2 timer periods is counting e1 + e2. |
| `Lapic.AdvanceCompose` | platform/guest-vmm/x86_apic.c:30-48 | Polling is invisible: advancing to t1 and on to t2 equals advancing to t2 at once, for counter, phase, pending vector and error flag. |
| `Lapic.OneTick` | platform/guest-vmm/x86_apic.c:30-48 | Advancing by one tick is the hardware rule: prescaler, decrement, reload or stop, interrupt. |
| `Lapic.AdvanceIsTicks` | platform/guest-vmm/x86_apic.c:30-48 | The closed-form division code equals iterating that one-tick rule any number of times. |
| `Lapic.HighestFrom` | platform/guest-vmm/x86_apic.c:49-53 | The scan gives the largest set vector from 16 up to its bound, or 0. |
| `Lapic.Highest` | platform/guest-vmm/x86_apic.c:49-53 | The largest vector in 16..255, or 0 if there is none. |
| `Lapic.AdvanceKeeps` | platform/guest-vmm/x86_apic.c:30-48 | Passing time loses no interrupt and touches neither service nor trigger bits. |
| `Lapic.AcceptOutranks` | platform/guest-vmm/x86_apic.c:67-77 | Accepting is possible only for a requested vector of a strictly higher class than everything in service, and does not move the timer. |
| `Lapic.AcceptKeeps` | platform/guest-vmm/x86_apic.c:67-77 | Accepting loses no level interrupt and keeps service classes distinct. |
| `Lapic.AcceptOnTop` | platform/guest-vmm/x86_apic.c:67-77 | The accepted vector becomes the highest in service. |
| `Lapic.RouteKeeps` | platform/guest-vmm/x86_apic.c:87-95 | Routing loses nothing; a level interrupt routed in is held from then on. |
| `Lapic.RetireKeeps` | platform/guest-vmm/x86_apic.c:128-134 | End of interrupt removes the highest vector in service and no other level interrupt. |
| `Lapic.IoMaps` | platform/guest-vmm/x86_apic.c:109-187 | Of all register accesses only EOI and the command register touch request, service and trigger bits. |
| `Lapic.IoTimer` | platform/guest-vmm/x86_apic.c:109-187 | No register access leaves the timer counter above its initial count. |
| `Lapic.IoKeeps` | platform/guest-vmm/x86_apic.c:109-187 | No register access loses a held interrupt except the one EOI retires. |
| `Lapic.LocalApic.Init` | platform/guest-vmm/x86_apic.c:3-12 | Refused exactly for ids from 255 on, and then nothing changes; otherwise the reset state, which meets the invariant. |
| `Lapic.LocalApic.Scan` | platform/guest-vmm/x86_apic.c:49-53 | The bit scan computes the largest set vector. |
| `Lapic.LocalApic.Pending` | platform/guest-vmm/x86_apic.c:59-66 | Asking for the pending vector advances the timer as ticks would and loses nothing; a clock that went back is refused without effect. |
| `Lapic.LocalApic.Accept` | platform/guest-vmm/x86_apic.c:67-77 | Accepts exactly the pending vector; a refusal changes nothing. |
| `Lapic.LocalApic.Route` | platform/guest-vmm/x86_apic.c:87-95 | Accepts exactly when enabled and addressed. |
| `Lapic.LocalApic.Access` | platform/guest-vmm/x86_apic.c:109-187 | A refused access changes nothing; an accepted one keeps the invariant and every held interrupt but the retired one. |
| `IoApic.Ending` | platform/guest-vmm/x86_ioapic.c:99-105 | EOI selects exactly the latched inputs that were accepted with this vector. |
| `IoApic.Eoi` | platform/guest-vmm/x86_ioapic.c:99-105 | EOI unlatches exactly the inputs accepted with this vector, none for a vector outside 16..255, and changes nothing else. |
| `IoApic.EntryReadsBack` | platform/guest-vmm/x86_ioapic.c:37-57 | A stored half of a redirection entry reads back as stored, remote IRR in place of the status bits; the other half and every other entry read as before. |
| `IoApic.Controller.Init` | platform/guest-vmm/x86_ioapic.c:6-12 | Refused exactly for ids above 15, and then nothing changes; otherwise every input is masked and nothing latched. |
| `IoApic.Controller.EndOfInterrupt` | platform/guest-vmm/x86_ioapic.c:99-105 | The loop over inputs clears exactly the selected ones. |
| `Interrupts.DeliverKeeps` | platform/guest-vmm/x86_firmware.c:1783-1794 | Delivery latches an input only together with a processor that holds its vector. |
| `Interrupts.IcrKeeps` | platform/guest-vmm/x86_smp.c:20-65 | An inter-processor command other than INIT strands nothing. |
| `Interrupts.AccessKeeps` | platform/guest-vmm/x86_firmware.c:1664-1679 | A register access with the broadcast EOI strands nothing. |
| `Interrupts.NextKeeps` | platform/guest-vmm/x86_firmware.c:1664-1679 | Every step of the machine except INIT keeps: each latched level input has its vector requested or in service, marked level, on some processor. |
| `Interrupts.RunKeeps` | platform/guest-vmm/x86_firmware.c:1783-1804 | The same over every sequence of steps without INIT. |
| `Interrupts.PowerOnHolds` | platform/guest-vmm/x86_apic.c:3-12 | It holds at power-on for any number of processors. |
| `Interrupts.NeverStranded` | platform/guest-vmm/x86_firmware.c:1783-1804 | From power-on, over every INIT-free history of accesses, assertions, deliveries, accepts and commands on any number of processors, no level interrupt is stranded. |
| `Interrupts.TopIsHighest` | platform/guest-vmm/x86_apic.c:96-101 | The vector EOI retires is the top of the stack of accepted vectors. |
| `Interrupts.PushStack` | platform/guest-vmm/x86_apic.c:67-77 | Accepting pushes on that stack. |
| `Interrupts.PopStack` | platform/guest-vmm/x86_apic.c:128-134 | EOI pops it. |
| `Interrupts.IsrFrame` | platform/guest-vmm/x86_firmware.c:1664-1679 | No other step of any processor moves it. |
| `Interrupts.NestedStep` | platform/guest-vmm/x86_firmware.c:1664-1679 | One step of any kind keeps the service bits equal to the stack of nested accepts. |
| `Interrupts.NestedIsStack` | platform/guest-vmm/x86_firmware.c:1783-1804 | Over every INIT-free history the in-service set is exactly the stack of accepts not yet retired: EOIs retire interrupts last accepted, first retired. |
| `Interrupts.EoiEffect` | platform/guest-vmm/x86_firmware.c:1664-1679 | The exact effect of one EOI write on both controllers. |
| `Interrupts.EoiReopens` | platform/guest-vmm/x86_firmware.c:1664-1679 | Retiring a level vector unlatches its inputs; an input still asserted and unmasked can be routed again at once. |
| `Interrupts.DrainReopens` | platform/guest-vmm/x86_firmware.c:1664-1679 | However deep the nesting above it, writing EOI once per nested interrupt reopens the input. |
| `Interrupts.InitKeepsIff` | platform/guest-vmm/x86_smp.c:53-58 | INIT strands no level interrupt if and only if every latched vector is also held by a processor the command does not address. |
| `Interrupts.InitStrands` | platform/guest-vmm/x86_smp.c:53-58 | From power-on: enable the only local APIC, program and assert a level input, deliver it, then INIT. The input stays latched with no processor left to retire it. |
| `Calendar.CountYears` | platform/guest-vmm/x86_rtc.c:14-15 | The year loop finds the year and the day in it. |
| `Calendar.CountMonths` | platform/guest-vmm/x86_rtc.c:16 | The month loop finds the month and the day in it. |
| `Calendar.YearOf` | platform/guest-vmm/x86_rtc.c:14-15 | Year and day of year: the only pair that adds up to the day count. |
| `Calendar.MonthOf` | platform/guest-vmm/x86_rtc.c:16 | Month and day of month, likewise. |
| `Calendar.Decode` | platform/guest-vmm/x86_rtc.c:9-18 | The loops compute the civil date of a second. |
| `Calendar.Encode` | platform/guest-vmm/x86_rtc.c:19-29 | Accepts exactly the valid dates from 1970 to 9999 and returns their second. |
| `Calendar.DecodeEncode` | platform/guest-vmm/x86_rtc.c:9-29 | Every second before year 10000 survives decode and encode. |
| `Calendar.EncodeDecode` | platform/guest-vmm/x86_rtc.c:9-29 | Every date the encoder accepts comes back from decode with its weekday made the civil one; years of the century from 100 up, which it accepts too, come back carried into the century. |
| `Calendar.SecondsInjective` | platform/guest-vmm/x86_rtc.c:19-29 | Two accepted dates with the same second are the same date up to that carry and the weekday. |
| `Calendar.YearStartClosed` | platform/guest-vmm/x86_rtc.c:24-25 | The leap-year loop equals the closed form of the Gregorian calendar. |
| `Calendar.LimitIsYear10000` | platform/guest-vmm/x86_rtc.c:2 | The constant is the first second of year 10000. |
| `Calendar.BeforeLimit` | platform/guest-vmm/x86_rtc.c:19-29 | No valid date reaches the limit. |
| `Rtc.PeriodsExact` | platform/guest-vmm/x86_rtc.c:41-42 | The split multiplication is floor(ticks·hz/HZ) and cannot wrap 64 bits. |
| `Rtc.ParseFormat` | platform/guest-vmm/x86_rtc.c:90-110 | In every mode (BCD or binary, 12 or 24 hours) an accepted register byte formats back to the same byte. |
| `Rtc.FirstDay` | platform/guest-vmm/x86_rtc.c:63-65 | An alarm that rings in a gap rings within its first day, so capping the scan at 86400 loses nothing. |
| `Rtc.Scan` | platform/guest-vmm/x86_rtc.c:60-74 | The capped second-by-second scan finds an alarm exactly if one rings in the whole gap. |
| `Rtc.Sample` | platform/guest-vmm/x86_rtc.c:46-81 | The sampling code computes the flags and the date for this tick. |
| `Rtc.Sampled` | platform/guest-vmm/x86_rtc.c:46-81 | Sampling succeeds exactly if the clock did not go back and the date is before year 10000; it changes only flags and the last tick. |
| `Rtc.CurrentCompose` | platform/guest-vmm/x86_rtc.c:46-81 | Polling is invisible: sampling in between changes neither later flags nor later dates. |
| `Rtc.ReadInvisible` | platform/guest-vmm/x86_rtc.c:111-194 | Reading any register but the flags register changes no later access, whatever the ticks. |
| `Rtc.IoKeeps` | platform/guest-vmm/x86_rtc.c:111-194 | Every access keeps the clock state in order. |
| `Rtc.Device.Reset` | platform/guest-vmm/x86_rtc.c:30-35 | Refused exactly for epochs from year 10000 on, and then nothing changes; otherwise the state of a fresh clock. |
| `Rtc.Device.Access` | platform/guest-vmm/x86_rtc.c:111-194 | A refused access changes nothing; an accepted one keeps the state in order. |
| `Rtc.RestartedShows` | platform/guest-vmm/x86_rtc.c:178-183 | After a restart from date g, k seconds later the clock shows g plus k seconds, weekday chosen by the guest included. |
| `Rtc.ShownMoves` | platform/guest-vmm/x86_rtc.c:76-77 | The shown date moves by exactly the elapsed seconds and its weekday by the elapsed days. |
| `Rtc.BiasShows` | platform/guest-vmm/x86_rtc.c:180-181 | The stored bias reproduces the chosen weekday on every later day. |
| `Rtc.BiasMoves` | platform/guest-vmm/x86_rtc.c:77 | The biased weekday moves one step a day. |
| `Rtc.CommitRefusedIff` | platform/guest-vmm/x86_rtc.c:173-185 | Leaving SET mode is refused if and only if the staged date is invalid. |
| `Rtc.CommitShows` | platform/guest-vmm/x86_rtc.c:173-185 | After leaving SET mode the clock shows the staged date plus the seconds elapsed, to the end of year 9999. |
| `Rtc.CommitReadsBack` | platform/guest-vmm/x86_rtc.c:173-185 | Within the first second it shows exactly what was staged. |
| `Rtc.StagedReadsBack` | platform/guest-vmm/x86_rtc.c:121-148 | In SET mode a written field reads back as written and no other field changes. |
| `Rtc.CenturyKeeps` | platform/guest-vmm/x86_rtc.c:134-143 | Writing the century in normal mode keeps time of day, weekday and the phase within the second. |
| `Rtc.StoppedHolds` | platform/guest-vmm/x86_rtc.c:156-167 | While the divider is held in reset the date stands still. |
| `Rtc.ResumeShows` | platform/guest-vmm/x86_rtc.c:156-167 | Releasing it starts the date again from where it stood. |
| `Packed.Le32Value` | platform/framebuffer/observer.c:8-11 | Four stored bytes stand for the value. |
| `Packed.PutLe32` | platform/framebuffer/observer.c:8-11 | Writes those four bytes and no others. |
| `Packed.RunAt` | platform/framebuffer/observer.c:19-21 | The run found is all one pixel and cannot be longer. |
| `Packed.RunIsRepeat` | platform/framebuffer/observer.c:19-21 | A run is its pixel repeated. |
| `Packed.ExpandAppend` | tests/platform/test_framebuffer_observer.c:38-49 | The decoder reads an appended pair as one more run. |
| `Packed.PackRun` | platform/framebuffer/observer.c:19-25 | One more run written; what is written so far decodes to what is consumed so far. |
| `Packed.PackRuns` | platform/framebuffer/observer.c:17-26 | Decodes to the consumed prefix; stops early only when a further pair would pass the wire limit. |
| `Packed.PutRuns` | platform/framebuffer/observer.c:36-38 | A packed reply with its header decodes to the consumed pixels. |
| `Packed.PutRaw` | platform/framebuffer/observer.c:27-34 | So does a raw one. |
| `Packed.PackedRead` | platform/framebuffer/observer.c:15-39 | Every reply decodes, under the independent decoder of the tests, to a nonempty prefix of the source of whole pixels; it is never longer than sending that prefix raw and never passes the wire limit. |
| `Packed.FetchAll` | tests/platform/test_framebuffer_observer.c:85-95 | Asking again from where the last reply ended returns the whole snapshot, in at most one reply per raw chunk. |
| `DeviceTree.ItemsParse` | platform/guest-vmm/fdt_builder.c:172-252 | The calls of any tree parse back to that tree, to any depth. |
| `DeviceTree.TreeParse` | platform/guest-vmm/fdt_builder.c:172-252 | A tree is determined by the calls that describe it. |
| `DeviceTree.NextIs` | platform/guest-vmm/fdt_builder.c:41-86 | The reader (chapter 5 of the Devicetree Specification) reads one encoded call back and stops at its end. |
| `DeviceTree.ReadBack` | platform/guest-vmm/fdt_builder.c:41-86 | The encoded calls followed by the end token read back as exactly those calls. |
| `DeviceTree.InternedName` | platform/guest-vmm/fdt_builder.c:94-138 | A name interned at an offset is what a reader finds there. |
| `DeviceTree.InternedSurvives` | platform/guest-vmm/fdt_builder.c:94-138 | Later names never change earlier ones. |
| `DeviceTree.EncodeAppend` | platform/guest-vmm/fdt_builder.c:41-86 | Appending a call appends its bytes. |
| `DeviceTree.EncodeAligned` | platform/guest-vmm/fdt_builder.c:80-86 | The structure block stays aligned to four bytes. |
| `FdtBuilder.Builder.constructor` | platform/guest-vmm/fdt_builder.c:142-170 | Refused exactly for buffers under 120 bytes; otherwise an empty structure over a zeroed header. |
| `FdtBuilder.Builder.Emit` | platform/guest-vmm/fdt_builder.c:54-66 | Appends the bytes if they fit below the strings, else records error -1 and appends nothing; an earlier error stays. |
| `FdtBuilder.Builder.EmitU32` | platform/guest-vmm/fdt_builder.c:41-51 | The same for one big-endian word. |
| `FdtBuilder.Builder.EmitStr` | platform/guest-vmm/fdt_builder.c:69-77 | The same for a string and its terminator. |
| `FdtBuilder.Builder.EmitAlign4` | platform/guest-vmm/fdt_builder.c:80-86 | Pads with zeros to a multiple of four. |
| `FdtBuilder.Builder.Matches` | platform/guest-vmm/fdt_builder.c:101-111 | Compares one table entry with a name exactly. |
| `FdtBuilder.Builder.Search` | platform/guest-vmm/fdt_builder.c:98-117 | Finds a name if and only if the table has an entry for it. |
| `FdtBuilder.Builder.PutString` | platform/guest-vmm/fdt_builder.c:120-127 | One byte at the end of the table, or error -2 exactly at the end of the buffer. |
| `FdtBuilder.Builder.Append` | platform/guest-vmm/fdt_builder.c:119-137 | Adds a name at the end of the table, or error -2 exactly when it does not fit. |
| `FdtBuilder.Builder.StrIntern` | platform/guest-vmm/fdt_builder.c:94-138 | Afterwards the offset names the string; it is added exactly when it was not there, and no earlier name moves. |
| `FdtBuilder.Builder.BeginNode` | platform/guest-vmm/fdt_builder.c:172-177 | One more begin call is encoded, an absent name as an empty one, or the exact error. |
| `FdtBuilder.Builder.EmitBegin` | platform/guest-vmm/fdt_builder.c:172-177 | Token, name and padding are the encoding of the call. |
| `FdtBuilder.Builder.EndNode` | platform/guest-vmm/fdt_builder.c:179-182 | One more end call is encoded, or the exact error. |
| `FdtBuilder.Builder.PropHeader` | platform/guest-vmm/fdt_builder.c:188-194 | Name interned and header emitted; error -2 before -1. |
| `FdtBuilder.Builder.PropU32` | platform/guest-vmm/fdt_builder.c:196-200 | A property with one big-endian word, or the exact error. |
| `FdtBuilder.Builder.PropU64` | platform/guest-vmm/fdt_builder.c:202-207 | With a 64-bit word. |
| `FdtBuilder.Builder.PropString` | platform/guest-vmm/fdt_builder.c:209-220 | With a terminated, padded string, an absent one as empty. |
| `FdtBuilder.Builder.PropReg64` | platform/guest-vmm/fdt_builder.c:222-229 | With base and size. |
| `FdtBuilder.Builder.PropReg64N` | platform/guest-vmm/fdt_builder.c:231-243 | With a list of bases and sizes. |
| `FdtBuilder.Builder.PropCells` | platform/guest-vmm/fdt_builder.c:245-252 | With an array of words. |
| `FdtBuilder.Builder.EmitCells` | platform/guest-vmm/fdt_builder.c:248-251 | The words one after another. |
| `FdtBuilder.Builder.EmitText` | platform/guest-vmm/fdt_builder.c:215-219 | The string, its terminator and its padding. |
| `FdtBuilder.MoveDown` | platform/guest-vmm/fdt_builder.c:274-281 | The forward byte loop moves the strings to a lower, overlapping place intact. |
| `FdtBuilder.PadEnd` | platform/guest-vmm/fdt_builder.c:283-288 | Pads the end and returns the rounded size. |
| `FdtBuilder.WriteWords` | platform/guest-vmm/fdt_builder.c:290-301 | Writes the header words and nothing else. |
| `FdtBuilder.BlobReads` | platform/guest-vmm/fdt_builder.c:254-304 | A blob with this header and layout reads as its structure and strings blocks. |
| `FdtBuilder.Builder.Arrange` | platform/guest-vmm/fdt_builder.c:274-281 | The strings block moved behind the structure block, both intact. |
| `FdtBuilder.Builder.PutHeader` | platform/guest-vmm/fdt_builder.c:290-301 | With the header in place the buffer reads as its blocks. |
| `FdtBuilder.Builder.Complete` | platform/guest-vmm/fdt_builder.c:264-304 | Everything after the end token. |
| `FdtBuilder.Builder.Seal` | platform/guest-vmm/fdt_builder.c:268-303 | Moved, padded and headed, the buffer reads as the same calls. |
| `FdtBuilder.RoundFits` | platform/guest-vmm/fdt_builder.c:283-288 | The rounded size fits the buffer exactly if the unrounded one fits the largest multiple of four in it. |
| `FdtBuilder.Builder.Finish` | platform/guest-vmm/fdt_builder.c:254-304 | Fails exactly if the end token does not fit; otherwise the returned size lies within the buffer if and only if structure and strings fit its largest multiple of four, and then the blob reads back as exactly the calls that built it. The error -4 of the source is unreachable. |
| `FdtBuilder.Overshoots` | platform/guest-vmm/fdt_builder.c:254-304 | A 169-byte buffer and one property with an 84-byte name and no cells: the size returned is 172. |
| `FdtBuilder.FinishedTree` | platform/guest-vmm/fdt_builder.c:254-304 | A finished blob built by the calls of a tree reads back as that tree. |
| `Rings.TakenContents` | platform/blk-virt/blk_virt_pump.c:96-106 | Taking removes exactly the oldest element, across 32-bit wrap. |
| `Rings.PostedLen` | platform/blk-virt/blk_virt_pump.c:108-118 | Posting makes the ring one longer. |
| `Rings.ClashIff` | platform/blk-virt/blk_virt_pump.c:90-118 | Which live entry shares the slot of the next one: none, or the one 2^32 mod capacity back. |
| `Rings.LandsIff` | platform/blk-virt/blk_virt_pump.c:90-118 | Storing the next entry disturbs no live one if and only if the capacity divides 2^32, or its index has not wrapped, or it lies at least 2^32 mod capacity past the wrap, or fewer entries than that are live. |
| `Rings.PostedContents` | platform/blk-virt/blk_virt_pump.c:108-118 | Posting appends the entry, and replaces one live entry exactly if that condition fails. |
| `Rings.PostLoses` | platform/blk-virt/blk_virt_pump.c:108-118 | Three slots and one live entry at index 2^32-1: the next post replaces it. |
| `Rings.OverlaidMore` | platform/blk-virt/blk_virt_pump.c:108-118 | Several posts leave the entries in order, each replaced by the one posted 2^32 mod capacity later where that one had no room. |
| `Rings.OverlaidIff` | platform/blk-virt/blk_virt_pump.c:108-118 | Nothing is lost over several posts exactly if each has room or stores what it replaces. |
| `Rings.SlotsDistinct` | platform/blk-virt/blk_virt_pump.c:34-44 | Slots of a window are distinct if the capacity divides 2^32 or the window does not pass the wrap. |
| `Rings.SlotsCollide` | platform/blk-virt/blk_virt_pump.c:34-44 | Otherwise two of them collide. |
| `Rings.CollisionlessIff` | platform/blk-virt/blk_virt_pump.c:34-44 | So a ring may be filled without collision exactly under that condition. |
| `BlockPump.ServeKeeps` | platform/blk-virt/blk_virt_pump.c:202-246 | A request touches only its client, answers with its own id, and is refused without effect when it is invalid. |
| `BlockPump.ServeAll` | platform/blk-virt/blk_virt_pump.c:248-334 | One answer per request, in order, with matching ids. |
| `BlockPump.ReadAfterWrite` | platform/blk-virt/blk_virt_pump.c:228-246 | A read of blocks just written returns the bytes written, wherever the two buffers lie. |
| `BlockPump.WriteElsewhere` | platform/blk-virt/blk_virt_pump.c:228-246 | A write changes no byte outside its blocks. |
| `BlockPump.Step` | platform/blk-virt/blk_virt_pump.c:275-330 | One turn of the loop serves the oldest request and posts its answer. |
| `BlockPump.Drain` | platform/blk-virt/blk_virt_pump.c:275-330 | Serves exactly as many requests as there are requests and free answer slots. |
| `BlockPump.PumpClient` | platform/blk-virt/blk_virt_pump.c:257-331 | A client with disordered counters loses its queue and no other effect follows; otherwise its quota is served in order. |
| `BlockPump.Pump` | platform/blk-virt/blk_virt_pump.c:248-334 | Clients are served in turn over the same media; the count returned is the sum of their quotas. |
| `BlockTraffic.FilledFlow` | platform/blk-virt/blk_virt_pump.c:108-118 | An entry stored before it is published changes nothing a reader can see, if it has room. |
| `BlockTraffic.PublishedFlow` | platform/blk-virt/blk_virt_pump.c:108-118 | Publishing it makes it the newest. |
| `BlockTraffic.CopiedFlow` | platform/blk-virt/blk_virt_pump.c:96-106 | The oldest entry is what the reader copies. |
| `BlockTraffic.ReleasedFlow` | platform/blk-virt/blk_virt_pump.c:96-106 | Releasing it frees its slot. |
| `BlockTraffic.ClientKeeps` | platform/blk-virt/blk_virt_pump.c:248-334 | Every access of the client (storing and publishing a request, copying and releasing an answer, rewriting its data) keeps both rings in order. |
| `BlockTraffic.PumpKeeps` | platform/blk-virt/blk_virt_pump.c:275-330 | So does every access of the pump; the answer to a request it has taken always finds a free slot. |
| `BlockTraffic.Run` | platform/blk-virt/blk_virt_pump.c:248-334 | So does every interleaving of client and pump. |
| `BlockTraffic.InOrderAlways` | platform/blk-virt/blk_virt_pump.c:248-334 | From empty rings at any index, over every interleaving: requests are executed once each in the order submitted, the client receives the answers in that order with their ids, and every request is in a ring, underway or answered, as long as every entry had room. |
| `BlockTraffic.AlwaysClean` | platform/blk-virt/blk_virt_pump.c:34-44 | With a capacity that divides 2^32 every entry has room. |
| `BlockTraffic.TurnIsSteps` | platform/blk-virt/blk_virt_pump.c:275-330 | One turn of the loop of Drain is those five accesses of the pump. |
| `HostTransfer.Host.Chunk` | platform/blk-virt/blk_virt.c:207-225 | One host call moves one chunk either way; a failed one leaves the client data alone and, of the medium, all but its own sectors. |
| `HostTransfer.MovedWrite` | platform/blk-virt/blk_virt.c:207-225 | Successive chunks written make one longer write. |
| `HostTransfer.Host.Call` | platform/blk-virt/blk_virt.c:215-218 | One host call: a write stores the staging bytes, a read fills them; a failed read leaves the medium alone, a failed write may leave anything in its sectors. |
| `HostTransfer.MovedRead` | platform/blk-virt/blk_virt.c:207-225 | Successive chunks read make one longer read. |
| `HostTransfer.Host.MovedChunk` | platform/blk-virt/blk_virt.c:207-225 | One turn of the loop extends what has moved by one chunk, or fails with what had moved before and the failed sectors. |
| `HostTransfer.Host.Transfer` | platform/blk-virt/blk_virt.c:196-231 | Chunking is invisible: success moves exactly the asked sectors as one transfer would; a failure returns the first failing code after exactly the chunks before it, with nothing changed past the sectors of the failed call. |
| `CapLease.IdParts` | libs/pd-support/cap_lease.c:26-40 | Slot and 24-bit generation can be read back from an id. |
| `CapLease.Open` | libs/pd-support/cap_lease.c:55-85 | The loop opens the first slot that is not active. |
| `CapLease.InitCounted` | libs/pd-support/cap_lease.c:42-53 | A fresh table has opened nothing. |
| `CapLease.OpenCounted` | libs/pd-support/cap_lease.c:55-85 | The n-th opening of a slot gets the n-th id of that slot and activates only it. |
| `CapLease.CloseCounted` | libs/pd-support/cap_lease.c:87-114 | Closing changes no count. |
| `CapLease.IdsAgreeIff` | libs/pd-support/cap_lease.c:26-40 | Two ids agree exactly if slot and opening number mod 2^24 agree. |
| `CapLease.StaleCloseIff` | libs/pd-support/cap_lease.c:87-114 | An old id closes a lease if and only if the slot is active and a multiple of 2^24 = 16777216 openings lie between. |
| `CapLease.NotStaleSoon` | libs/pd-support/cap_lease.c:87-114 | So an old id is refused for the next 16777215 openings of its slot. |
| `CapLease.CycledCounted` | libs/pd-support/cap_lease.c:55-114 | Opening and closing n times from a fresh table uses the first slot n times and leaves it free. |
| `CapLease.StaleIdCloses` | libs/pd-support/cap_lease.c:55-114 | After 2^24 such rounds the next lease of the slot is closed by the very first id. |
| `CapLend.StartHolds` | libs/pd-support/cap_lend.c:49-56 | The empty book is consistent. |
| `CapLend.OpenSucceeds` | libs/pd-support/cap_lend.c:112-170 | With a free record a lease can always be opened. |
| `CapLend.CloseSucceeds` | libs/pd-support/cap_lend.c:172-217 | The lease of a record in use can always be closed. |
| `CapLend.LendKeeps` | libs/pd-support/cap_lend.c:112-170 | Lending, failed mint included, keeps records and active leases in one-to-one correspondence and each original lent at most once. |
| `CapLend.WithdrawKeeps` | libs/pd-support/cap_lend.c:172-217 | So does withdrawing, refused revocation included. |
| `CapLend.RunKeeps` | libs/pd-support/cap_lend.c:112-217 | So does every history of calls and kernel answers from the empty book. |
| `CapLend.LeaseErrorIff` | libs/pd-support/cap_lend.c:112-170 | A narrowing loan fails for lack of a lease exactly if the original is lent already or all records are in use. |
| `CapLend.ErrorsReachable` | libs/pd-support/cap_lend.c:112-217 | On every history: revocation never reports the lease-close error, and the lease error has exactly that cause. |
| `CapLend.Lender.constructor` | libs/pd-support/cap_lend.c:49-56 | Starts with the empty book. |
| `CapLend.Lender.Find` | libs/pd-support/cap_lend.c:92-100 | First record of the original. |
| `CapLend.Lender.FindFree` | libs/pd-support/cap_lend.c:102-110 | First unused record. |
| `CapLend.Lender.Lend` | libs/pd-support/cap_lend.c:112-170 | The in-place code does the specified step. |
| `CapLend.Lender.Revoke` | libs/pd-support/cap_lend.c:172-217 | The in-place code does the specified step and never reports the lease-close error. |
| `Display.ExecuteKeeps` | platform/display/service.c:33-63 | No request writes the front bank; it changes only when a complete frame is presented and then is exactly the bytes written since BEGIN. |
| `Display.NextKeeps` | platform/display/service.c:18-77 | Every single load, store or block copy of producer or driver keeps the one-slot queue in one of its phases. |
| `Display.Run` | platform/display/service.c:18-77 | So does every interleaving of those accesses, of any length. |
| `Display.RunSafe` | platform/display/service.c:18-77 | After any interleaving at most one exchange is outstanding, the driver executes it with the payload it was published with, the front bank holds one whole frame. |
| `Display.FrontUntouched` | platform/display/service.c:18-77 | No step of either side writes the front bank. |
| `Display.StageStep` | platform/display/service.c:18-77 | Every access of either side moves an exchange on through its stages: the driver untouched before it executes, one execution after, its answer in the slot until it is taken. |
| `Display.Exchanged` | platform/display/service.c:18-77 | A request submitted to an empty queue, the driver anywhere in its polling, then any receives and any accesses of the two sides in any order: the payload stays, the request is executed at most once, and an answer that was taken is the answer to that one execution. |
| `Display.Polls` | platform/display/service.c:64-71 | On an empty queue the driver only polls. |
| `Display.FillsFirst` | platform/display/service.c:64-71 | When the driver polls while the payload is filled makes no difference. |
| `Display.DrivesOpen` | platform/display/service.c:64-77 | Once a request is published every access of the driver brings it one step nearer to its answer. |
| `DisplayProducer.Forwarder.constructor` | platform/display/producer.c:19-61 | Producer and driver start with equal frame counts. |
| `DisplayProducer.PromptDelivers` | platform/display/producer.c:19-61 | A driver that makes nine accesses in every such wait and a device that shows the frame deliver the whole picture. |
| `DisplayProducer.Forwarder.Exchange` | platform/display/producer.c:4-18 | For every schedule of the driver: succeeds exactly if an id is left, the answer comes in time and checks; then driver and producer agree on cookie and count. |
| `DisplayProducer.Forwarder.Selected` | platform/display/producer.c:22-24 | The first surface with the selected handle. |
| `DisplayProducer.Forwarder.FillPiece` | platform/display/producer.c:38-46 | Each copied piece of a row is that part of the rectangle. |
| `DisplayProducer.Forwarder.FillChunk` | platform/display/producer.c:36-46 | One chunk of the rectangle, row by row, in the shared payload. |
| `DisplayProducer.Forwarder.Begin` | platform/display/producer.c:32-33 | Exact success condition, for every schedule, and the state it leaves. |
| `DisplayProducer.Forwarder.SendChunk` | platform/display/producer.c:35-52 | The driver has taken one chunk more, exactly if its exchange is answered in time. |
| `DisplayProducer.Forwarder.Finish` | platform/display/producer.c:53-54 | The frame is shown exactly if the last exchange is answered in time and the device presents. |
| `DisplayProducer.Forwarder.Send` | platform/display/producer.c:32-54 | Exact success condition over all exchanges of one picture, for every schedule of each. |
| `DisplayProducer.Forwarder.Forward` | platform/display/producer.c:19-61 | Whatever the driver does between any two accesses of the producer: returns 1 exactly if there is a new showable frame, ids and a cookie are left, every exchange is answered in time and the device presents, and then the front bank is the selected rectangle byte for byte; returns 0 exactly if nothing is new; a failed attempt retires the producer for good, and anything else changes nothing. |
| `Surfaces.FlatSlice` | platform/framebuffer/service.c:128-136 | Byte positions of a rectangle sent row by row. |
| `Surfaces.CopyRows` | platform/framebuffer/service.c:128-136 | The row loop copies exactly the rectangle. |
| `Surfaces.PutRowsGet` | platform/framebuffer/service.c:126-136 | Reading a rectangle just written returns what was written. |
| `Surfaces.PutRowsElsewhere` | platform/framebuffer/service.c:126-136 | Writing a rectangle changes no byte outside its rows. |
| `Surfaces.PictureSize` | platform/framebuffer/service.c:72-87 | A rectangle has width·height pixels of four bytes. |
| `Framebuffer.AreaSet` | platform/framebuffer/service.c:41-44 | The pending and committed areas of all surfaces are disjoint parts of the arena. |
| `Framebuffer.StartHolds` | platform/framebuffer/service.c:34-46 | A fresh session is consistent. |
| `Framebuffer.CreatedKeeps` | platform/framebuffer/service.c:105-117 | A created handle was never issued before. |
| `Framebuffer.WrittenKeeps` | platform/framebuffer/service.c:126-136 | Writing keeps every committed frame. |
| `Framebuffer.FlippedKeeps` | platform/framebuffer/service.c:137-142 | After a flip the committed pixels are the pending ones. |
| `Framebuffer.DestroyedKeeps` | platform/framebuffer/service.c:148-151 | Destroying clears the selection with its surface. |
| `Framebuffer.ExecuteKeeps` | platform/framebuffer/service.c:89-153 | Every request keeps: live handles distinct and issued, selection inside a live surface, committed pixels those of the last flip. |
| `Framebuffer.WriteRect` | platform/framebuffer/service.c:128-136 | The row loop writes exactly the rectangle into the arena. |
| `Framebuffer.Service.constructor` | platform/framebuffer/service.c:34-46 | A fresh session is consistent. |
| `Framebuffer.Service.Detach` | platform/framebuffer/service.c:159-172 | A detached client keeps only its handle count and generation. |
| `Framebuffer.Service.Handle` | platform/framebuffer/service.c:89-153 | The in-place code does the specified step and keeps the session consistent. |
| `Framebuffer.Service.Write` | platform/framebuffer/service.c:126-136 | WRITE in place. |
| `Framebuffer.Service.Read` | platform/framebuffer/service.c:126-136 | READ in place. |
| `Framebuffer.WriteThenFlip` | platform/framebuffer/service.c:126-142 | A rectangle written and flipped reads back as written. |
| `DisplayProducer.Forwarder.Submit` | platform/display/service.c:18-25 | Submitting on an empty queue publishes the request, whatever the driver does meanwhile; it counts the load a polling driver has ready. |
| `DisplayProducer.Forwarder.Receive` | platform/display/service.c:26-32 | Finds the answer exactly if the driver has made its nine accesses, and takes it. |
| `DisplayProducer.ArrivesIff` | platform/framebuffer/framebuffer_pd.c:34-47 | An exchange is answered in time exactly when the driver has made nine accesses on it before the hundredth attempt loads the tail. |
| `DisplayProducer.Forwarder.Converse` | platform/framebuffer/framebuffer_pd.c:25-50 | Submit and up to a hundred receives: an answer is taken exactly if it comes in time, and it is that of one execution on the payload submitted. |
| `Framebuffer.Service.Stage` | platform/framebuffer/rebind.c:29-37 | A frame staged in place, or the exact refusal. |
| `Framebuffer.Service.Commit` | platform/framebuffer/rebind.c:38-47 | A complete rebind in place: fresh surfaces, the old handle count, the next generation; or the exact refusal. |
| `Framebuffer.Service.Abort` | platform/framebuffer/rebind.c:48-56 | A rebind given up in place, or the exact refusal. |
| `Framebuffer.NextKeeps` | platform/framebuffer/rebind.c:6-56 | Requests, payloads rewritten by the client, detach, staged, committed and aborted rebinds all keep the session; the generation and the issued handles never go back. |
| `Framebuffer.Run` | platform/framebuffer/rebind.c:6-56 | So does every history of them. |
| `Framebuffer.NeverReissued` | platform/framebuffer/service.c:105-113 | Over every history, rebinds included, no handle is issued twice. |
| `Framebuffer.Chosen` | platform/framebuffer/observer.c:79-82 | The lookup finds the only surface the selection can name. |
| `Framebuffer.CaptureBounds` | platform/framebuffer/observer.c:84-89 | The copy stays inside surface and snapshot. |
| `Framebuffer.Capture` | platform/framebuffer/observer.c:73-92 | Succeeds exactly if the selection names a flipped surface; the snapshot then starts with exactly the selected rectangle of the last flip and is otherwise unchanged. |
| `Observer.WatchableKeeps` | platform/framebuffer/observer.c:79-82 | Every step of a client keeps its selection within what it shows. |
| `Observer.Find` | platform/framebuffer/observer.c:79-82 | The selected surface, exactly if it has been flipped. |
| `Observer.Copy` | platform/framebuffer/observer.c:84-88 | The selected rectangle of the last flip at the front of the snapshot. |
| `Observer.Watcher.constructor` | platform/framebuffer/observer.c:41-49 | No cookie given out. |
| `Observer.Watcher.Issue` | platform/framebuffer/observer.c:84-92 | The captured picture stands under a cookie never given out before. |
| `Observer.Watcher.Capture` | platform/framebuffer/observer.c:73-92 | Succeeds exactly for a permitted client that shows a frame while cookies are left, each refusal has its exact cause, and a refusal changes nothing. |
| `Observer.Watcher.Use` | platform/framebuffer/observer.c:93-116 | Under the current cookie, reads return the bytes asked for of the picture captured when it was given out, packed reads decode to a nonempty prefix of them; exact bounds. |
| `Observer.Watcher.Execute` | platform/framebuffer/observer.c:68-116 | Over any calls, whatever the clients do in between: a cookie stands for one picture for ever, and is answered only while it is the last one given out and not released. |
| `PageWalk.WalkChain` | platform/guest-vmm/x86_memory.c:21-38 | A successful walk starts at the entry for the address in the given table, each further entry lies in the table the one before names, all lie in RAM and permit the access, and the address is the frame of the last one plus the offset in its page. |
| `PageWalk.SameWalk` | platform/guest-vmm/x86_memory.c:21-38 | From any level: addresses in one leaf page share the walk and differ only in the offset. |
| `PageWalk.WalkSamePage` | platform/guest-vmm/x86_memory.c:12-40 | The whole walk is constant over the page of its leaf, 4 KiB or 2 MiB. |
| `FwCfg.PortReadFormed` | platform/guest-vmm/x86_config.c:318-330 | Port reads keep the counters within 32 bits. |
| `FwCfg.PortReads` | platform/guest-vmm/x86_config.c:318-330 | n port reads return n bytes. |
| `FwCfg.PortReadsClosed` | platform/guest-vmm/x86_config.c:318-330 | n port reads return the next n bytes of the item and count them once, saturating. |
| `FwCfg.DmaBytesAre` | platform/guest-vmm/x86_config.c:125-140 | DMA byte i is the byte at that offset. |
| `FwCfg.DmaIsReads` | platform/guest-vmm/x86_config.c:110-153 | An accepted DMA read returns and counts exactly what the same number of port reads would. |
| `StringIo.ForwardCovers` | platform/guest-vmm/x86_string.c:83-90 | Every byte of a forward run walks as its first byte does. |
| `StringIo.BackwardCovers` | platform/guest-vmm/x86_string.c:83-90 | Likewise backwards. |
| `StringIo.RunVisits` | platform/guest-vmm/x86_string.c:91-99 | A run visits the entries of its one walk. |
| `StringIo.AddEntry` | platform/guest-vmm/x86_string.c:93-98 | The table gets the entry once and flags it; it refuses only when full. |
| `StringIo.AddWalk` | platform/guest-vmm/x86_string.c:91-99 | All levels of a walk, the leaf dirty. |
| `StringIo.Run` | platform/guest-vmm/x86_string.c:80-88 | Length of a run, zero exactly when the range test refuses it. |
| `StringIo.ForwardPasses` | platform/guest-vmm/x86_string.c:87-88 | Forwards the range test refuses nothing but unmapped bytes. |
| `StringIo.BackwardRefused` | platform/guest-vmm/x86_string.c:87-88 | Backwards it also refuses mapped bytes: two bytes ending at the top of RAM. |
| `StringIo.RunEnds` | platform/guest-vmm/x86_string.c:81-86 | A run that stops early stops at the end of its page. |
| `StringIo.Plan` | platform/guest-vmm/x86_string.c:72-101 | Accepts exactly if every byte is mapped and every page entered passes the range test; the tables of 5 segments and 32 entries never fill. |
| `StringIo.ReadBytes` | platform/guest-vmm/x86_string.c:103-109 | n bytes of the configuration device. |
| `StringIo.Mark` | platform/guest-vmm/x86_string.c:110-112 | Accessed and dirty bits for exactly the visited entries. |
| `StringIo.StoreSegment` | platform/guest-vmm/x86_string.c:113-116 | The bytes of one segment. |
| `StringIo.Store` | platform/guest-vmm/x86_string.c:113-116 | All bytes, segment by segment, are the bytes stored one at a time. |
| `StringIo.Insb` | platform/guest-vmm/x86_string.c:57-121 | The batched transfer succeeds exactly under that condition and then leaves RAM, device, address and count as the byte-at-a-time transfer that marks first and stores then; a refusal changes nothing. |
| `StringIo.InterleavedIff` | platform/guest-vmm/x86_string.c:110-116 | It equals the transfer that marks and stores byte by byte if and only if every stored byte that lands on a page-table entry already carries the marks later bytes would set. |
| `StringIo.InterleavedDiffers` | platform/guest-vmm/x86_string.c:110-116 | A page table mapping itself shows the difference. |
| `Lifecycle.RpcKeeps` | platform/guest-vmm/runtime.c:19-157 | Every call keeps: after a teardown attempt nothing starts, stops or resumes the guest until a reset has succeeded. |
| `Lifecycle.DestroyKeeps` | platform/guest-vmm/runtime.c:19-157 | In particular every outcome of DESTROY. |
| `Lifecycle.NextKeeps` | platform/guest-vmm/runtime.c:159-186 | And every restart step. |
| `Lifecycle.RunQuiet` | platform/guest-vmm/runtime.c:19-186 | So does every history of calls, answers and restart steps. |
| `Lifecycle.ResetBetween` | platform/guest-vmm/runtime.c:19-186 | Between a teardown attempt and a later start, stop or resume there is always a successful reset. |
| `Lifecycle.RpcSteady` | platform/guest-vmm/runtime.c:19-157 | Every call keeps: resumes only while stopped, starts and stops only while not, and the state word says which. |
| `Lifecycle.RunPaired` | platform/guest-vmm/runtime.c:19-186 | So in every history stops and resumes alternate, restarts and failed attempts included. |
| `Lifecycle.Vmm.constructor` | platform/guest-vmm/runtime.c:19-157 | Starts ready and not started. |
| `Lifecycle.Vmm.Handle` | platform/guest-vmm/runtime.c:19-157 | The in-place handler does the specified step. |
| `Retries.Extend` | platform/guest-vmm/teardown.c:26-114 | One more attempt of the next planned action keeps to the plan. |
| `Retries.EarlierDone` | platform/guest-vmm/teardown.c:26-114 | When an action is attempted, exactly the planned actions before it have succeeded, whatever was retried, and none of those is attempted again. |
| `Teardown.AdvanceDone` | platform/guest-vmm/teardown.c:26-114 | Each stage adds its own action to what is done. |
| `Teardown.OnPlan` | platform/guest-vmm/teardown.c:26-114 | What is done is always a prefix of the full plan. |
| `Teardown.Machine.constructor` | platform/guest-vmm/teardown.c:26-114 | Nothing done. |
| `Teardown.Machine.Stage` | platform/guest-vmm/teardown.c:48-52 | One attempt; the flag is set only on success. |
| `Teardown.Machine.Skip` | platform/guest-vmm/teardown.c:63-74 | A stage this build leaves out passes at once. |
| `Teardown.Machine.DetachQueues` | platform/guest-vmm/teardown.c:48-62 | Network, block, serial, in this order. |
| `Teardown.Machine.DetachOptional` | platform/guest-vmm/teardown.c:63-74 | Input and graphics, if built. |
| `Teardown.Machine.RevokeQueues` | platform/guest-vmm/teardown.c:75-85 | Queue pools in order, resuming where the last call stopped. |
| `Teardown.Machine.RevokeGraphicsPools` | platform/guest-vmm/teardown.c:86-93 | Graphics pools likewise. |
| `Teardown.Machine.ReleaseGuest` | platform/guest-vmm/teardown.c:101-112 | RAM, then paging. |
| `Teardown.Machine.DetachDevices` | platform/guest-vmm/teardown.c:48-74 | Devices detached in order, stopping at the first refusal. |
| `Teardown.Machine.RevokePools` | platform/guest-vmm/teardown.c:75-93 | Queue pools, then graphics pools, each once. |
| `Teardown.Machine.ReleaseMemory` | platform/guest-vmm/teardown.c:94-112 | Execution pool, RAM, paging. |
| `Teardown.Machine.Step` | platform/guest-vmm/teardown.c:26-114 | Complete exactly when every action of the plan has succeeded once, over any number of calls; each call stops at its first refusal, and without one it completes. |
| `Teardown.PlanDistinct` | platform/guest-vmm/teardown.c:26-114 | No action is planned twice, for any build. |
| `Teardown.MemoryLast` | platform/guest-vmm/teardown.c:26-114 | Over any number of retries no pool, execution, RAM or paging action is attempted before every device has detached. |
| `Recreate.NextDetach` | platform/guest-vmm/arm_recreate.c:29-33 | The next attempted backend is the next planned detach. |
| `Recreate.NextRelease` | platform/guest-vmm/arm_recreate.c:34-37 | The next resource is the next planned release. |
| `Recreate.State.constructor` | platform/guest-vmm/arm_recreate.c:23-65 | Nothing attempted. |
| `Recreate.State.DetachAll` | platform/guest-vmm/arm_recreate.c:29-33 | Detaches the attempted backends in order, stopping at the first refusal. |
| `Recreate.State.TryDetach` | platform/guest-vmm/arm_recreate.c:30-32 | One attempt; the backend is forgotten only on success. |
| `Recreate.State.Fail` | platform/guest-vmm/arm_recreate.c:55-59 | The backends touched become the cleanup plan and a first cleanup is attempted. |
| `Recreate.State.Cleanup` | platform/guest-vmm/arm_recreate.c:23-39 | Pending until every planned action has succeeded once; completes if nothing refuses, and every call that finds cleanup pending first retires the old guest. |
| `Recreate.State.Run` | platform/guest-vmm/arm_recreate.c:40-65 | Publishes exactly if the mask is valid, no attempt failed before, a generation is left and every enabled step succeeds; a failure cleans up exactly the backends touched up to the failing step, and nothing is ever published again. |
| `Recreate.ReleaseLast` | platform/guest-vmm/arm_recreate.c:23-39 | No resource is released before every attempted backend has detached. |
| `Recreate.PlanDistinct` | platform/guest-vmm/arm_recreate.c:23-39 | No action is planned twice. |
| `Endowment.Validate` | libs/pd-support/endowment.c:19-72 | The loops accept exactly the valid endowments. |
| `Endowment.ValidWithin` | libs/pd-support/endowment.c:19-72 | An accepted capability has a holding of the same slot and kind whose rights include its own. |
| `Endowment.ValidIff` | libs/pd-support/endowment.c:19-72 | For holdings without duplicates, acceptance is exactly that. |
| `ChildSpawn.Child.constructor` | libs/pd-support/child_spawn.c:283-287 | Nothing staged. |
| `ChildSpawn.Child.RetypeOne` | libs/pd-support/child_spawn.c:107-125 | One more staged slot exactly if there is one and the kernel agrees; a refusal gives the slot back. |
| `ChildSpawn.Child.MapRetrying` | libs/pd-support/child_spawn.c:127-150 | Succeeds exactly if the kernel maps after at most three missing tables, each of which it grants, and the slots last; one slot per table supplied. |
| `ChildSpawn.Child.SupplyTable` | libs/pd-support/child_spawn.c:139-147 | One table, exactly if a slot is left and the kernel grants creating and mapping it. |
| `ChildSpawn.Child.StagingTeardown` | libs/pd-support/child_spawn.c:173-180 | Every staged slot deleted, and with the CNode every mint. |
| `ChildSpawn.Child.FailTeardown` | libs/pd-support/child_spawn.c:204-216 | Nothing of this call remains; only frames it mapped are unmapped. |
| `ChildSpawn.Child.BuildSpace` | libs/pd-support/child_spawn.c:306-329 | CNode, address space and its identifier. |
| `ChildSpawn.Child.BuildThread` | libs/pd-support/child_spawn.c:373-447 | Stack, message buffer, thread and registers, without resuming it. |
| `ChildSpawn.Child.BindThread` | libs/pd-support/child_spawn.c:449-534 | Fault handler and scheduling context. |
| `ChildSpawn.Child.MapFrames` | libs/pd-support/child_spawn.c:343-371 | The content frame and every extra frame. |
| `ChildSpawn.Child.Endow` | libs/pd-support/child_spawn.c:548-591 | Capabilities minted in order, each recorded after it was accepted, with its badge exactly if its kind carries one. |
| `ChildSpawn.Child.Construct` | libs/pd-support/child_spawn.c:302-591 | Everything before the resume: on success exactly the requested capabilities, mappings and report; it succeeds exactly if the kernel grants every call, supplying up to three missing tables a mapping, and the slots last. |
| `ChildSpawn.Child.Spawn` | libs/pd-support/child_spawn.c:242-636 | The child is runnable exactly on success, and then holds exactly the requested capabilities and mappings and the ledger reports them; every failing exit restores the ledger, and every one but a refused start leaves nothing behind; success is exactly: valid request, 24 scratch slots, every call granted with up to three missing tables a mapping, slots enough for those tables, and the start granted. |
| `ChildSpawn.Granted` | libs/pd-support/child_spawn.c:302-591 | A spawn never needs more than 6 + 3·(3 + extra frames) slots. |
| `ChildSpawn.SlotsSuffice` | libs/pd-support/child_spawn.c:275-278 | So with up to three extra frames the 24 slots asked for are always enough. |
| `ChildSpawn.RolledBack` | platform/inspect/endow_ledger.c:96-126 | Rolling back to a mark restores the ledger exactly. |
| `ChildSpawn.MintsWithin` | libs/pd-support/child_spawn.c:548-560 | What a child receives stays within what its parent declared to hold. |

## Left out

- Group law of Curve25519: the ladder is proved equal to the RFC 7748 procedure, not to scalar multiplication on the curve.
- Constant-time behaviour: `gf_sel` and the Poly1305 selection are modelled as exchanges and choices; masks are written as arithmetic on their bits.
- Unrolled limb code is written as loops and helper methods with the same order of operations.
- SHA-512, ChaCha20, Ed25519 point arithmetic and signature verification are not modelled.
- Poly1305.Context.Final: states the tag the code stores; equality with RFC 8439 is false and its exact condition is `Poly1305.TagIsRfcIff`.
- Lapic.IoKeeps: the model-specific-register view of the base address and the interrupt-window test of the host loop are not modelled.
- FdtBuilder.Builder.constructor: buffers of 4 GiB and more, whose size the source cuts to 32 bits, are excluded.
- FdtBuilder.Builder.PropHeader: property names are byte strings without zero bytes; a NULL property name is not modelled.
- FdtBuilder.Builder.PropCells: `fdt_prop_u32` and `fdt_prop_u64` are modelled through it; the words are emitted in the same order.
- BlockPump.Pump: the client makes no access during this call; `BlockTraffic.InOrderAlways` is about clients that do, and about ones that post and take only within the capacity. Memory is sequentially consistent, and clients' data areas and disks do not overlap. Queue detach and storage-information set-up are left out.
- HostTransfer.Host.Transfer: calls stay on the medium, and a failed call changes nothing outside its sectors.
- CapLease.Open: `aos_lease_get` is not modelled; it may return a lease that is no longer active.
- CapLend.Lender.Lend: the lazy initialisation of the book is its constructor; lookup by original is left out.
- Display.Run: copying a whole request, payload or response is one step, and memory is sequentially consistent between steps; the acquire and release orders are taken to give that.
- DisplayProducer.Forwarder.Forward: the driver's accesses while the payload is filled are counted to the exchange that follows, which `Display.FillsFirst` shows to make no difference. Only the producer and the driver write the shared region.
- Framebuffer.Service.Handle: the request queue around the operations and its wire structures are left out.
- Observer.Watcher.Execute: the observer's request queue is left out.
- StringIo.Insb: bit 63 and the reserved bits are those of the walk; concurrent processors are stopped during the transfer, as in the source.
- FwCfg.DmaIsReads: the descriptor interface around the DMA operation, its big-endian status word, and the other ports of the configuration device are left out.
- Lifecycle.Vmm.Handle: message layouts and the console and input calls of the same file are left out; the guest-id test is a parameter.
- Teardown.Machine.Step: stage markers of the proof build are left out; quiescing is three answers.
- ChildSpawn.Child.Spawn: deleting a capability and unmapping a frame are taken to succeed, since the source ignores their answers; the failing step's number, object sizes, addresses, a NULL list of extra frames, and a ledger that is NULL or of another version are left out. Rights are sets of bits.
- ChildSpawn.RolledBack: names, child indices and validation of ledgers are left out.
- ACPI tables, processor identification, PCI and port devices, virtio transports, IPC glue, boot profiles, schedulers and user-level services: not modelled.
