/**
 * The per-thread buffers (`struct thread_data`, filled by `init_thread_data`)
 * and the integer kernel `madd52hi_epu64`, which walks ITERATIONS chunks of one
 * 512-bit vector each and stores `vpmadd52huq(z, x, y)` into `output`.
 */
module ThreadBuffers {
  import opened Lanes

  // The sizes are written as literals so that the verifier sees products such
  // as `i * DWORD_PER_VECTOR` as linear; VectorGeometry ties them together.
  const BITS_PER_VECTOR: int := 512
  const BYTES_PER_VECTOR: int := 64
  const DWORD_PER_VECTOR: int := 16
  /** 64-bit lanes in one vector. */
  const LANES_PER_VECTOR: int := 8
  /** Chunks processed by one kernel call. */
  const ITERATIONS: int := 256

  /** Bytes in each of `input_x` and `input_y`. */
  const BYTE_BUFFER_LENGTH: int := 16384
  /** `int32_t`s in each of `input_z` and `output`. */
  const DWORD_BUFFER_LENGTH: int := 4096

  /**
   * The constants derive from the vector width as the macros do, and every
   * buffer is ITERATIONS vectors: 16 KiB each, `int32_t` buffers included.
   */
  lemma VectorGeometry()
    ensures BYTES_PER_VECTOR == BITS_PER_VECTOR / 8
    ensures DWORD_PER_VECTOR == BITS_PER_VECTOR / 32
    ensures LANES_PER_VECTOR == BITS_PER_VECTOR / 64
    ensures BYTE_BUFFER_LENGTH == ITERATIONS * BYTES_PER_VECTOR
    ensures DWORD_BUFFER_LENGTH == ITERATIONS * DWORD_PER_VECTOR
    ensures 4 * DWORD_BUFFER_LENGTH == BYTE_BUFFER_LENGTH
  {
  }

  /** The contents of one 512-bit register, as eight 64-bit lanes. */
  type Vec = v: seq<U64> | |v| == 8 witness [0, 0, 0, 0, 0, 0, 0, 0]

  // ---------------------------------------------------------------------------
  // Vector loads and the lane-wise instruction
  // ---------------------------------------------------------------------------

  /** `_mm512_loadu_si512` of 64 bytes at byte offset `off` of a byte buffer. */
  function LoadBytes(buf: seq<int>, off: int): (v: Vec)
    requires 0 <= off && off + BYTES_PER_VECTOR <= |buf|
  {
    seq(8, j requires 0 <= j < 8 => LaneOfBytes(buf, off + 8 * j))
  }

  /** `_mm512_loadu_si512` of 16 `int32_t`s at element offset `off` of a word buffer. */
  function LoadWords(buf: seq<I32>, off: int): (v: Vec)
    requires 0 <= off && off + DWORD_PER_VECTOR <= |buf|
  {
    seq(8, j requires 0 <= j < 8 => LaneOfWords(buf[off + 2 * j], buf[off + 2 * j + 1]))
  }

  /** `_mm512_madd52hi_epu64(a, b, c)`: the VPMADD52HUQ lane operation on each lane. */
  function Madd52HiVec(a: Vec, b: Vec, c: Vec): Vec {
    seq(8, j requires 0 <= j < 8 => Madd52Hi(a[j], b[j], c[j]))
  }

  /**
   * The lanes do not interact: lane `j` of the result depends only on lane `j`
   * of the three arguments.
   */
  lemma Madd52HiVecLanewise(a: Vec, b: Vec, c: Vec, a': Vec, b': Vec, c': Vec, j: int)
    requires 0 <= j < LANES_PER_VECTOR
    requires a[j] == a'[j] && b[j] == b'[j] && c[j] == c'[j]
    ensures Madd52HiVec(a, b, c)[j] == Madd52HiVec(a', b', c')[j]
  {
  }

  /** The `int32_t` at element `m` of a stored vector. */
  function WordAt(v: Vec, m: int): I32
    requires 0 <= m < DWORD_PER_VECTOR
  {
    if m % 2 == 0 then LowWord(v[m / 2]) else HighWord(v[m / 2])
  }

  // ---------------------------------------------------------------------------
  // Specification of one kernel call, as a function of the three inputs
  // ---------------------------------------------------------------------------

  ghost predicate BufferSizes(x: seq<int>, y: seq<int>, z: seq<I32>) {
    |x| == BYTE_BUFFER_LENGTH && |y| == BYTE_BUFFER_LENGTH && |z| == DWORD_BUFFER_LENGTH
  }

  /** The vector chunk `i` of the loop stores. */
  function ChunkResult(x: seq<int>, y: seq<int>, z: seq<I32>, i: int): Vec
    requires BufferSizes(x, y, z) && 0 <= i < ITERATIONS
  {
    Madd52HiVec(LoadWords(z, i * DWORD_PER_VECTOR),
                LoadBytes(x, i * BYTES_PER_VECTOR),
                LoadBytes(y, i * BYTES_PER_VECTOR))
  }

  /** The whole `output` buffer after one kernel call. */
  function KernelOutput(x: seq<int>, y: seq<int>, z: seq<I32>): (out: seq<I32>)
    requires BufferSizes(x, y, z)
    ensures |out| == DWORD_BUFFER_LENGTH
  {
    seq(DWORD_BUFFER_LENGTH, k requires 0 <= k < DWORD_BUFFER_LENGTH =>
      WordAt(ChunkResult(x, y, z, k / DWORD_PER_VECTOR), k % DWORD_PER_VECTOR))
  }

  /** Elements 2j and 2j+1 of output chunk `i` are the two halves of lane `j` of ChunkResult. */
  lemma OutputWordsOfLane(x: seq<int>, y: seq<int>, z: seq<I32>, i: int, j: int)
    requires BufferSizes(x, y, z) && 0 <= i < ITERATIONS && 0 <= j < LANES_PER_VECTOR
    ensures var out, w := KernelOutput(x, y, z), i * DWORD_PER_VECTOR + 2 * j;
      out[w] == LowWord(ChunkResult(x, y, z, i)[j]) && out[w + 1] == HighWord(ChunkResult(x, y, z, i)[j])
  {
    var w := i * DWORD_PER_VECTOR + 2 * j;
    assert w / DWORD_PER_VECTOR == i && w % DWORD_PER_VECTOR == 2 * j;
    assert (w + 1) / DWORD_PER_VECTOR == i && (w + 1) % DWORD_PER_VECTOR == 2 * j + 1;
    assert (2 * j) % 2 == 0 && (2 * j) / 2 == j;
    assert (2 * j + 1) % 2 == 1 && (2 * j + 1) / 2 == j;
  }

  /** Lane `j` of ChunkResult combines lane `j` of each input chunk. */
  lemma ChunkLane(x: seq<int>, y: seq<int>, z: seq<I32>, i: int, j: int)
    requires BufferSizes(x, y, z) && 0 <= i < ITERATIONS && 0 <= j < LANES_PER_VECTOR
    ensures var w, b := i * DWORD_PER_VECTOR + 2 * j, i * BYTES_PER_VECTOR + 8 * j;
      ChunkResult(x, y, z, i)[j]
      == Madd52Hi(LaneOfWords(z[w], z[w + 1]), LaneOfBytes(x, b), LaneOfBytes(y, b))
  {
  }

  /**
   * Lane `j` of output chunk `i`, read back as a 64-bit number, is VPMADD52HUQ
   * of lane `j` of the same chunk of `input_z`, `input_x` and `input_y`.
   */
  lemma KernelLane(x: seq<int>, y: seq<int>, z: seq<I32>, i: int, j: int)
    requires BufferSizes(x, y, z) && 0 <= i < ITERATIONS && 0 <= j < LANES_PER_VECTOR
    ensures var out, w, b := KernelOutput(x, y, z), i * DWORD_PER_VECTOR + 2 * j, i * BYTES_PER_VECTOR + 8 * j;
      LaneOfWords(out[w], out[w + 1])
      == Madd52Hi(LaneOfWords(z[w], z[w + 1]), LaneOfBytes(x, b), LaneOfBytes(y, b))
  {
    OutputWordsOfLane(x, y, z, i, j);
    ChunkLane(x, y, z, i, j);
    WordsOfLane(ChunkResult(x, y, z, i)[j]);
  }

  /** On zero-filled inputs every output element is zero: 0 + hi52(0 * 0) == 0. */
  lemma KernelOnZeroBuffers(x: seq<int>, y: seq<int>, z: seq<I32>)
    requires BufferSizes(x, y, z)
    requires forall k :: 0 <= k < |x| ==> x[k] == 0
    requires forall k :: 0 <= k < |y| ==> y[k] == 0
    requires forall k :: 0 <= k < |z| ==> z[k] == 0
    ensures forall k :: 0 <= k < DWORD_BUFFER_LENGTH ==> KernelOutput(x, y, z)[k] == 0
  {
    forall b | 0 <= b && b + 8 <= BYTE_BUFFER_LENGTH
      ensures LaneOfBytes(x, b) == 0 && LaneOfBytes(y, b) == 0
    {
      LittleEndianOfZeros(x[b..b + 8]);
      LittleEndianOfZeros(y[b..b + 8]);
    }
    forall i | 0 <= i < ITERATIONS
      ensures forall j :: 0 <= j < 8 ==> ChunkResult(x, y, z, i)[j] == 0
    {
      var v := ChunkResult(x, y, z, i);
      forall j | 0 <= j < 8 ensures v[j] == 0 {
        assert LoadBytes(x, i * BYTES_PER_VECTOR)[j] == 0;
        assert LoadBytes(y, i * BYTES_PER_VECTOR)[j] == 0;
        assert LoadWords(z, i * DWORD_PER_VECTOR)[j] == 0;
      }
    }
  }

  // ---------------------------------------------------------------------------
  // The per-thread buffers and the in-place kernel
  // ---------------------------------------------------------------------------

  /** `struct thread_data`: the four buffers one worker owns. */
  class ThreadData {
    var inputX: array<U8>
    var inputY: array<I8>
    var inputZ: array<I32>
    var output: array<I32>

    /** The sizes `init_thread_data` allocates; `output` is a buffer of its own. */
    ghost predicate Valid()
      reads this
    {
      inputX.Length == BYTE_BUFFER_LENGTH && inputY.Length == BYTE_BUFFER_LENGTH &&
      inputZ.Length == DWORD_BUFFER_LENGTH && output.Length == DWORD_BUFFER_LENGTH &&
      inputZ != output
    }

    /** What the kernel leaves in `output`, given the current inputs. */
    ghost function Expected(): (out: seq<I32>)
      reads this, inputX, inputY, inputZ
      requires Valid()
    {
      KernelOutput(inputX[..], inputY[..], inputZ[..])
    }

    /**
     * `init_thread_data`: four fresh `calloc`ed buffers of the stated lengths,
     * every element zero (allocation failure, which exits, is not modelled).
     */
    constructor ()
      ensures Valid()
      ensures fresh(inputX) && fresh(inputY) && fresh(inputZ) && fresh(output)
      ensures forall k :: 0 <= k < BYTE_BUFFER_LENGTH ==> inputX[k] == 0 && inputY[k] == 0
      ensures forall k :: 0 <= k < DWORD_BUFFER_LENGTH ==> inputZ[k] == 0 && output[k] == 0
    {
      inputX := new U8[BYTE_BUFFER_LENGTH](_ => 0);
      inputY := new I8[BYTE_BUFFER_LENGTH](_ => 0);
      inputZ := new I32[DWORD_BUFFER_LENGTH](_ => 0);
      output := new I32[DWORD_BUFFER_LENGTH](_ => 0);
    }

    /** `_mm512_storeu_si512` of `v` at element offset `off` of `output`. */
    method StoreOutput(off: int, v: Vec)
      requires Valid() && 0 <= off && off + DWORD_PER_VECTOR <= output.Length
      modifies output
      ensures forall k :: 0 <= k < output.Length ==>
        output[k] == if off <= k < off + DWORD_PER_VECTOR then WordAt(v, k - off) else old(output[k])
    {
      forall m | 0 <= m < DWORD_PER_VECTOR {
        output[off + m] := WordAt(v, m);
      }
    }

    /**
     * `madd52hi_epu64`: chunk `i` loads 64 bytes of `input_x` and `input_y` at
     * byte offset i*64 and 16 words of `input_z` at element offset i*16, and
     * stores the VPMADD52HUQ result at element offset i*16 of `output`. Only
     * `output` changes, and its new value does not depend on its old one.
     */
    method Madd52HiEpu64()
      requires Valid()
      modifies output
      ensures Valid()
      ensures output[..] == Expected()
    {
      for i := 0 to ITERATIONS
        invariant forall k :: 0 <= k < i * DWORD_PER_VECTOR ==>
          output[k] == WordAt(ChunkResult(inputX[..], inputY[..], inputZ[..], k / DWORD_PER_VECTOR), k % DWORD_PER_VECTOR)
      {
        var vx := LoadBytes(inputX[..], i * BYTES_PER_VECTOR);
        var vy := LoadBytes(inputY[..], i * BYTES_PER_VECTOR);
        var vz := LoadWords(inputZ[..], i * DWORD_PER_VECTOR);
        var voutput := Madd52HiVec(vz, vx, vy);
        StoreOutput(i * DWORD_PER_VECTOR, voutput);
        forall k | i * DWORD_PER_VECTOR <= k < (i + 1) * DWORD_PER_VECTOR
          ensures k / DWORD_PER_VECTOR == i && k % DWORD_PER_VECTOR == k - i * DWORD_PER_VECTOR
        {
        }
      }
    }
  }

  /**
   * The kernel keeps no state and never reads `output`: a second call on
   * unchanged inputs stores exactly what the first one stored.
   */
  method KernelTwice(td: ThreadData) returns (first: seq<I32>)
    requires td.Valid()
    modifies td.output
    ensures first == td.Expected() && td.output[..] == first
  {
    td.Madd52HiEpu64();
    first := td.output[..];
    td.Madd52HiEpu64();
  }

  /** Freshly initialised buffers: one kernel call leaves `output` all zero. */
  method KernelOnFreshBuffers() returns (td: ThreadData)
    ensures td.Valid()
    ensures forall k :: 0 <= k < td.output.Length ==> td.output[k] == 0
  {
    td := new ThreadData();
    td.Madd52HiEpu64();
    KernelOnZeroBuffers(td.inputX[..], td.inputY[..], td.inputZ[..]);
  }
}
