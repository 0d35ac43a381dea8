/**
 * Kernel selection (`run_simd`), the table of kernel names
 * (`instruction_desc`), the spin kernel (`nop_loop`) and the loops-per-second
 * figure a worker reports.
 */
module Dispatch {
  import opened Wrappers
  import opened Lanes
  import opened ThreadBuffers

  const INT_MAX: int := 0x7fff_ffff

  /** The three kernels a selector can name. */
  datatype Kernel = NopKernel | MaddKernel | FmaddKernel

  /** The kernel `run_simd` runs for a selector; None for a selector it exits on. */
  function KernelOf(selector: int): (k: Option<Kernel>)
    ensures k.Some? <==> 0 <= selector <= 2
  {
    if selector == 0 then Some(NopKernel)
    else if selector == 1 then Some(MaddKernel)
    else if selector == 2 then Some(FmaddKernel)
    else None
  }

  /** The selector that chooses a kernel (the value given with `-i`). */
  function Selector(k: Kernel): (s: int)
    ensures 0 <= s <= 2
  {
    match k
    case NopKernel => 0
    case MaddKernel => 1
    case FmaddKernel => 2
  }

  /** Selector and kernel determine each other. */
  lemma SelectorRoundTrip(k: Kernel, selector: int)
    ensures KernelOf(Selector(k)) == Some(k)
    ensures KernelOf(selector) == Some(k) ==> Selector(k) == selector
  {
  }

  /** The mnemonic of the instruction each kernel exercises. */
  function KernelName(k: Kernel): string {
    match k
    case NopKernel => "nop_loop"
    case MaddKernel => "vpmadd52huq"
    case FmaddKernel => "vfmadd231pd"
  }

  /** `instruction_desc`: the name printed for each selector, in selector order. */
  const InstructionDesc: seq<string> := ["nop_loop", "vpmadd52huq", "vfmadd231pd"]

  /**
   * `instruction_desc[simd_ins]`. The worker reads this before `run_simd` has
   * looked at the selector, so only a valid selector may be looked up.
   */
  function Description(selector: int): (name: string)
    requires 0 <= selector < |InstructionDesc|
    ensures KernelOf(selector).Some?
    ensures name == KernelName(KernelOf(selector).value)
  {
    InstructionDesc[selector]
  }

  /**
   * The name lookup is in bounds exactly for the selectors `run_simd` accepts,
   * and distinct selectors have distinct names.
   */
  lemma DescriptionCoversKernels(s: int, t: int)
    ensures 0 <= s < |InstructionDesc| <==> KernelOf(s).Some?
    ensures 0 <= s < |InstructionDesc| && 0 <= t < |InstructionDesc| && s != t ==>
      Description(s) != Description(t)
  {
  }

  /**
   * `nop_loop`: `while (i++ < nop_per_loop);` on an `int` counter starting at
   * 0. Each round compares the old counter and then increments it, also on the
   * round whose comparison fails. The last increment would overflow if
   * `nop_per_loop` were INT_MAX, so that value is excluded.
   */
  method NopLoop(nopPerLoop: I32) returns (i: I32, comparisons: nat)
    requires nopPerLoop < INT_MAX
    ensures i == (if nopPerLoop < 0 then 0 else nopPerLoop) + 1
    ensures comparisons == i
  {
    ghost var rounds := if nopPerLoop < 0 then 0 else nopPerLoop;
    i, comparisons := 0, 0;
    var more := true;
    while more
      invariant 0 <= i <= rounds + 1 && comparisons == i
      invariant more ==> i <= rounds
      invariant !more ==> i == rounds + 1
      decreases rounds + 1 - i
    {
      more := i < nopPerLoop;
      i := i + 1;
      comparisons := comparisons + 1;
    }
  }

  /** What a call of `run_simd` amounts to: a kernel ran, or the process exited. */
  datatype Outcome = Ran(kernel: Kernel) | Exited(status: int)

  /**
   * `run_simd(type, td)`: selectors 0, 1 and 2 run the spin, integer and
   * floating-point kernels; any other selector calls `exit(1)` and runs none.
   */
  method RunSimd(selector: int, td: ThreadData, nopPerLoop: I32) returns (r: Outcome)
    requires td.Valid()
    requires selector == 0 ==> nopPerLoop < INT_MAX
    modifies td.output
    ensures td.Valid()
    ensures r == match KernelOf(selector) case Some(k) => Ran(k) case None => Exited(1)
    ensures r == Ran(MaddKernel) ==> td.output[..] == td.Expected()
    ensures r == Ran(NopKernel) || r.Exited? ==> td.output[..] == old(td.output[..])
  {
    if selector == 0 {
      var count, comparisons := NopLoop(nopPerLoop);
      r := Ran(NopKernel);
    } else if selector == 1 {
      td.Madd52HiEpu64();
      r := Ran(MaddKernel);
    } else if selector == 2 {
      // The double-precision kernel is not part of this model.
      r := Ran(FmaddKernel);
    } else {
      r := Exited(1);
    }
  }

  /**
   * `loops / duration_sec` as the worker prints it. C converts the `int`
   * duration to `unsigned long` before dividing, so a negative duration divides
   * by 2^64 + duration; a zero duration is a division by zero (None).
   */
  function Throughput(loops: U64, durationSec: I32): (r: Option<U64>)
    ensures r.None? <==> durationSec == 0
    ensures durationSec > 0 && r.Some? ==>
      r.value * durationSec <= loops < (r.value + 1) * durationSec
    ensures durationSec < 0 && r.Some? ==>
      r.value == if loops >= TWO64 + durationSec then 1 else 0
  {
    var divisor := durationSec % TWO64;
    assert durationSec >= 0 ==> divisor == durationSec;
    assert durationSec < 0 ==> divisor == durationSec + TWO64;
    if divisor == 0 then None
    else
      QuotientFacts(loops, durationSec, divisor);
      Some(loops / divisor)
  }

  lemma QuotientFacts(loops: nat, durationSec: int, divisor: int)
    requires loops < TWO64 && -0x8000_0000 <= durationSec < 0x8000_0000 && durationSec != 0
    requires divisor == if durationSec > 0 then durationSec else durationSec + TWO64
    ensures durationSec > 0 ==> (loops / divisor) * durationSec <= loops < (loops / divisor + 1) * durationSec
    ensures durationSec < 0 ==> loops / divisor == if loops >= TWO64 + durationSec then 1 else 0
  {
    if durationSec > 0 {
      DivisionBounds(loops, divisor);
    } else {
      QuotientBelowTwo(loops, divisor);
    }
  }

  lemma DivisionBounds(a: nat, d: int)
    requires d > 0
    ensures (a / d) * d <= a < (a / d + 1) * d
  {
  }

  lemma QuotientBelowTwo(a: nat, d: int)
    requires 0 < d && a < 2 * d
    ensures a / d == if a >= d then 1 else 0
  {
    DivisionBounds(a, d);
  }
}
