# simd-stress core, modelled in Dafny

`simd-stress` is a throughput microbenchmark: each worker thread owns four
zero-filled buffers and calls one kernel over and over until a wall-clock
deadline, then prints loops per second. This project models the parts of
`simd-stress.c` that have a precise meaning:

- the per-thread buffers of `struct thread_data` and their sizes as
  `init_thread_data` allocates them (class `ThreadBuffers.ThreadData`, its
  constructor);
- the integer kernel `madd52hi_epu64`: 256 chunks, each loading 64 bytes of
  `input_x` and `input_y` at byte offset `i*64` and 16 `int32_t`s of `input_z`
  at element offset `i*16`, and storing the VPMADD52HUQ result into `output` at
  element offset `i*16` (method `ThreadData.Madd52HiEpu64`, in place on the
  `output` array, proved against the function `KernelOutput`);
- the VPMADD52HUQ lane operation as the Intel 64 and IA-32 Architectures
  Software Developer's Manual, Volume 2, defines it: `a + ((b[51:0] * c[51:0]) >> 52)`
  modulo 2^64, with the intrinsic's argument order `(a = z, b = x, c = y)`
  (module `Lanes`);
- little-endian assembly of 64-bit lanes from bytes and from pairs of
  `int32_t`s, and the store of a lane back into two `int32_t`s;
- the dispatcher `run_simd` and the name table `instruction_desc`
  (module `Dispatch`);
- the spin kernel `nop_loop` as a counter loop;
- the loops-per-second division `loops / duration_sec`, as a pure function.

Element types follow the struct: `input_x` holds `u_int8_t`, `input_y`
`int8_t`, `input_z` and `output` `int32_t`. A vector load or store only moves
bit patterns, so signed elements are read through their two's-complement
pattern. The globals `simd_ins`, `nop_per_loop` and `duration_sec` become
parameters.

In `worker_thread` the reported figure is `loops / duration_sec`
(simd-stress.c:202), so a zero duration is a division by zero; `Throughput`
returns `None` for it. C converts the `int` duration to `unsigned long` before
dividing, and the model does the same for a negative duration.

The worker prints `instruction_desc[simd_ins]` before `run_simd` has checked
the selector, so an invalid selector is read past the end of that table.
`Description` therefore requires a valid selector, and
`DescriptionCoversKernels` proves that the valid selectors are exactly those
`run_simd` accepts.

## Model

| member | source | states |
|---|---|---|
| `Lanes.ByteBits` | simd-stress.c:68-69 | a byte read as signed or unsigned gives the same bit pattern in 0..255: the value itself or the value plus 256 |
| `Lanes.LittleEndian` | simd-stress.c:68-69 | the number held by n bytes in little-endian order is below 256^n |
| `Lanes.LittleEndianOfEncoding` | simd-stress.c:68-69 | decoding the n-byte little-endian encoding of any number below 256^n gives back that number |
| `Lanes.EncodingOfLittleEndian` | simd-stress.c:68-69 | encoding the number read from a byte string gives back the byte string |
| `Lanes.LittleEndianOfZeros` | simd-stress.c:68-69 | zero-filled memory loads as the lane 0 |
| `Lanes.LaneOfBytes` | simd-stress.c:68-69 | definition: the lane held by the 8 bytes at a byte offset, read little-endian |
| `Lanes.ToLittleEndian` | simd-stress.c:68-69 | the n-byte little-endian encoding of a number has n bytes; it is the inverse of `LittleEndian` (see the two round-trip lemmas) |
| `Lanes.ToI32` | simd-stress.c:73 | the `int32_t` stored for a 32-bit pattern has that bit pattern, and is non-negative exactly when bit 31 is clear |
| `Lanes.LowWord` | simd-stress.c:73 | definition: the `int32_t` a lane stores at its lower address (bits 31:0) |
| `Lanes.HighWord` | simd-stress.c:73 | definition: the `int32_t` a lane stores at its higher address (bits 63:32) |
| `Lanes.LaneOfWords` | simd-stress.c:70 | the lane held by two `int32_t`s has the first as its low word and the second as its high word |
| `Lanes.WordsOfLane` | simd-stress.c:73 | storing a lane as two `int32_t`s and loading them back gives the lane |
| `Lanes.Hi12` | simd-stress.c:72 | bits 63:52 of a lane, below 2^12 |
| `Lanes.Lo52` | simd-stress.c:72 | bits 51:0 of a lane: below 2^52, and the lane is bits 63:52 times 2^52 plus this field; a lane below 2^52 is its own low field |
| `Lanes.Hi52` | simd-stress.c:72 | the high half (bits 103:52) of the 104-bit product is below 2^52 and is the quotient of the product by 2^52 |
| `Lanes.Madd52Hi` | simd-stress.c:72 | a lane of VPMADD52HUQ is the accumulator plus the high half, wrapping past 2^64 at most once |
| `Lanes.Madd52HiIgnoresHighBits` | simd-stress.c:72 | bits 63:52 of both multiplicands do not affect the result |
| `Lanes.Madd52HiCommutes` | simd-stress.c:72 | swapping the two multiplicands does not change the result |
| `Lanes.Madd52HiSmallProduct` | simd-stress.c:72 | when the 52-bit product is below 2^52 the accumulator is returned unchanged |
| `ThreadBuffers.VectorGeometry` | simd-stress.c:23-28 | 64 bytes, 16 `int32_t`s and 8 lanes per 512-bit vector; each buffer is 256 vectors, 16384 bytes or 4096 `int32_t`s |
| `ThreadBuffers.LoadBytes` | simd-stress.c:68-69 | definition: the 512-bit load at a byte offset gives lane `j` from the 8 bytes at offset `off + 8j`; callable only when the 64 bytes lie inside the buffer |
| `ThreadBuffers.LoadWords` | simd-stress.c:70 | definition: the 512-bit load at an element offset gives lane `j` from `int32_t`s `off + 2j` and `off + 2j + 1`; callable only when the 16 elements lie inside the buffer |
| `ThreadBuffers.Madd52HiVec` | simd-stress.c:72 | definition: `_mm512_madd52hi_epu64` applies the lane operation to each of the eight lanes |
| `ThreadBuffers.Madd52HiVecLanewise` | simd-stress.c:72 | lanes do not interact: two argument triples that agree on lane `j` give results that agree on lane `j` |
| `ThreadBuffers.WordAt` | simd-stress.c:73 | definition: element `m` of a stored vector is the low word of lane `m/2` for even `m`, its high word for odd `m` |
| `ThreadBuffers.ChunkResult` | simd-stress.c:68-72 | definition: the vector loop iteration `i` computes from the chunk-`i` loads of `input_z`, `input_x`, `input_y` |
| `ThreadBuffers.KernelOutput` | simd-stress.c:60-75 | one kernel call determines all 4096 `int32_t`s of `output` from the three inputs alone |
| `ThreadBuffers.OutputWordsOfLane` | simd-stress.c:73 | output elements `16i+2j` and `16i+2j+1` are the low and high words of lane `j` of chunk `i` |
| `ThreadBuffers.ChunkLane` | simd-stress.c:68-72 | lane `j` of chunk `i` combines lane `j` of the same chunk of `input_z`, `input_x` and `input_y` |
| `ThreadBuffers.KernelLane` | simd-stress.c:64-73 | after the kernel, lane `j` of output chunk `i` read as 64 bits equals `z + hi52(lo52(x) * lo52(y))` mod 2^64 of the same lanes of `input_z`, `input_x`, `input_y` |
| `ThreadBuffers.KernelOnZeroBuffers` | simd-stress.c:64-73 | on all-zero inputs every output element is zero |
| `ThreadBuffers.ThreadData.Valid` | simd-stress.c:209-215 | definition: the buffer lengths `init_thread_data` allocates, and `output` distinct from `input_z` |
| `ThreadBuffers.ThreadData.constructor` | simd-stress.c:207-220 | `init_thread_data` gives four fresh, zero-filled buffers of 16384 bytes, 16384 bytes, 4096 and 4096 `int32_t`s |
| `ThreadBuffers.ThreadData.StoreOutput` | simd-stress.c:73 | a vector store writes exactly the 16 elements `[off, off+16)` of `output` and leaves every other element unchanged |
| `ThreadBuffers.ThreadData.Madd52HiEpu64` | simd-stress.c:60-75 | every load and store stays inside its buffer; the inputs are not written; `output` ends equal to `KernelOutput` of the inputs, whatever it held before |
| `ThreadBuffers.KernelTwice` | simd-stress.c:60-75 | a second kernel call on unchanged inputs leaves `output` exactly as the first call left it |
| `ThreadBuffers.KernelOnFreshBuffers` | simd-stress.c:209-215 | on freshly initialised buffers one kernel call leaves `output` all zero |
| `Dispatch.KernelOf` | simd-stress.c:104-114 | a selector names a kernel exactly when it is 0, 1 or 2 |
| `Dispatch.Selector` | simd-stress.c:104-114 | each kernel is chosen by one of the selectors 0, 1, 2 |
| `Dispatch.SelectorRoundTrip` | simd-stress.c:104-114 | selector and kernel determine each other in both directions |
| `Dispatch.InstructionDesc` | simd-stress.c:129-133 | definition: the three names, indexed by selector |
| `Dispatch.KernelName` | simd-stress.c:129-133 | definition: the mnemonic of each kernel, given per kernel rather than per table index |
| `Dispatch.Description` | simd-stress.c:191-192 | a valid lookup is for a selector `run_simd` accepts, and the table entry is the mnemonic of the kernel `run_simd` runs for that selector, so table order and dispatch order agree |
| `Dispatch.DescriptionCoversKernels` | simd-stress.c:129-133 | the name table is in bounds exactly for the selectors `run_simd` accepts, and distinct selectors have distinct names |
| `Dispatch.NopLoop` | simd-stress.c:97-102 | for `nop_per_loop < INT_MAX` the loop ends with its counter at `max(nop_per_loop, 0) + 1`, after exactly that many comparisons |
| `Dispatch.RunSimd` | simd-stress.c:104-114 | selectors 0, 1, 2 run the spin, integer and float kernels; any other selector exits with status 1 and runs no kernel; the integer kernel leaves `output` as `KernelOutput` states |
| `Dispatch.Throughput` | simd-stress.c:202 | loops per second: undefined (division by zero) exactly for a zero duration; the floor of `loops / duration` for a positive one; 0 or 1 for a negative one, which C turns into a divisor of 2^64 + duration |

## Left out

- `fmadd_pd` (simd-stress.c:78-93): double-precision fused multiply-add is floating-point arithmetic, which the model does not cover.
- RunSimd: for selector 2 the contract says only that the float kernel was chosen; it says nothing about the `output` that `fmadd_pd` stores.
- `worker_thread`'s deadline loop (simd-stress.c:194-201): it depends on the wall clock `time()`, and its only result is the loop count that `Throughput` takes as a parameter.
- The `printf` calls, including `%ld` printing of the unsigned quotient: output formatting is I/O.
- `rdtsc` and `cpuid` (simd-stress.c:45-57) and the cycle total: they read hardware state, and the total is never used.
- `main`'s thread creation and joining (simd-stress.c:222-251): concurrency; workers share only read-only globals, so each is modelled alone.
- `parse_options`, `help` and the `getopt` tables (simd-stress.c:116-182): command-line glue; their results are the parameters of the model.
- The `calloc` failure paths (simd-stress.c:212-217): allocation is modelled as succeeding; failure ends the process.
- The `input_ones` and `tid` fields of `struct thread_data`: the first is never allocated or read, the second belongs to thread management.
- `init_i32_max_tile_buffer`: declared but never called.
