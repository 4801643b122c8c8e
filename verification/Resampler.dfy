/** The streaming resampler: a lowpass filter at the input rate, linear interpolation at fractional positions,
    and fixed-size chunks of 16-bit samples, with everything carried over from one block to the next. */
module Resampler {

  datatype Config = Config(step: real, coeffs: seq<real>, passthrough: bool, chunkSamples: nat)
  {
    /** Rates are positive; a filter has at least one tap and equal rates bypass it. */
    predicate Valid() {
      step > 0.0 && chunkSamples > 0 && |coeffs| > 0 && (passthrough ==> |coeffs| == 1)
    }

    function Taps(): nat { |coeffs| }
  }

  /** Everything carried from one block to the next. */
  datatype State = State(history: seq<real>, phase: real, prev: real, partial: seq<int>, totalIn: nat, totalOut: nat)

  /** What a block boundary guarantees: reads before the block go back one sample at most. */
  predicate Ready(c: Config, s: State) {
    c.Valid() && |s.history| == c.Taps() - 1 && |s.partial| < c.chunkSamples && s.phase > -1.0
      && (s.totalIn == 0 ==> s.phase == 0.0)
  }

  function Start(c: Config): State
    requires c.Valid()
  {
    State(seq(c.Taps() - 1, _ => 0.0), 0.0, 0.0, [], 0, 0)
  }

  // ---- Filtering ----

  function Dot(coeffs: seq<real>, buf: seq<real>, at: nat, k: nat): real
    requires k <= |coeffs| && at + k <= |buf|
  {
    if k == 0 then 0.0 else Dot(coeffs, buf, at, k - 1) + coeffs[k - 1] * buf[at + k - 1]
  }

  /** One filtered value per input sample; `buf` is the history followed by the block. */
  function Convolve(coeffs: seq<real>, buf: seq<real>): (r: seq<real>)
    requires |coeffs| > 0 && |buf| >= |coeffs| - 1
    ensures |r| == |buf| - (|coeffs| - 1)
  {
    seq(|buf| - (|coeffs| - 1), i requires 0 <= i < |buf| - (|coeffs| - 1) => Dot(coeffs, buf, i, |coeffs|))
  }

  function Filtered(c: Config, history: seq<real>, input: seq<real>): (r: seq<real>)
    requires c.Valid() && |history| == c.Taps() - 1
    ensures |r| == |input|
  {
    if c.passthrough then input else Convolve(c.coeffs, history + input)
  }

  // ---- Interpolation ----

  /** Read a filtered sample; position -1 is the last one of the block before. */
  function At(prev: real, filtered: seq<real>, i: int): real
    requires -1 <= i < |filtered|
  {
    if i < 0 then prev else filtered[i]
  }

  function Interpolate(prev: real, filtered: seq<real>, pos: real): real
    requires -1.0 < pos <= (|filtered| - 1) as real
  {
    var i := pos.Floor;
    var frac := pos - i as real;
    if frac == 0.0 then At(prev, filtered, i)
    else At(prev, filtered, i) + (At(prev, filtered, i + 1) - At(prev, filtered, i)) * frac
  }

  /** How many positions `pos`, `pos + step`, ... do not exceed `last`. */
  function Count(pos: real, last: real, step: real): nat
    requires step > 0.0
  {
    if pos > last then 0 else ((last - pos) / step).Floor + 1
  }

  lemma CountStep(pos: real, last: real, step: real)
    requires step > 0.0 && pos <= last
    ensures Count(pos, last, step) == 1 + Count(pos + step, last, step)
  {
    var x := last - pos;
    DivideLess(x, step);
    DivideMinus(x, step);
    assert last - (pos + step) == x - step;
    if pos + step <= last {
      assert (x / step - 1.0).Floor == (x / step).Floor - 1;
    }
  }

  lemma Sign(x: real, step: real)
    requires step > 0.0
    ensures x > 0.0 ==> x * step > 0.0
    ensures x < 0.0 ==> x * step < 0.0
  {}

  lemma DivideLess(x: real, step: real)
    requires step > 0.0 && x >= 0.0
    ensures x < step ==> 0.0 <= x / step < 1.0
  {
    var q := x / step;
    assert q * step == x;
    Sign(q, step);
    assert (1.0 - q) * step == step - x;
    Sign(1.0 - q, step);
  }

  lemma DivideMinus(x: real, step: real)
    requires step > 0.0
    ensures (x - step) / step == x / step - 1.0
  {
    var q, q' := x / step, (x - step) / step;
    assert q * step == x && q' * step == x - step;
    assert (q - q' - 1.0) * step == q * step - q' * step - step == 0.0;
    Sign(q - q' - 1.0, step);
  }

  function Emit(prev: real, filtered: seq<real>, pos: real, step: real): seq<real>
    requires step > 0.0 && pos > -1.0
    decreases Count(pos, (|filtered| - 1) as real, step)
  {
    if pos > (|filtered| - 1) as real then []
    else
      CountStep(pos, (|filtered| - 1) as real, step);
      [Interpolate(prev, filtered, pos)] + Emit(prev, filtered, pos + step, step)
  }

  /** The first position beyond the block. */
  function Next(pos: real, n: nat, step: real): (next: real)
    requires step > 0.0
    ensures next > (n - 1) as real
    decreases Count(pos, (n - 1) as real, step)
  {
    if pos > (n - 1) as real then pos
    else
      CountStep(pos, (n - 1) as real, step);
      Next(pos + step, n, step)
  }

  // ---- Chunking ----

  function Round(v: real): int { (v + 0.5).Floor }

  function Quantize(sample: real): (v: int)
    ensures -32768 <= v <= 32767
    ensures sample >= 1.0 ==> v == 32767
    ensures sample <= -1.0 ==> v == -32768
  {
    var v := if sample > 1.0 then 1.0 else if sample < -1.0 then -1.0 else sample;
    if v < 0.0 then Round(v * 32768.0) else Round(v * 32767.0)
  }

  /** Append samples to a partial chunk; every full chunk is put out. */
  function Pack(partial: seq<int>, samples: seq<real>, size: nat): (r: (seq<seq<int>>, seq<int>))
    requires |partial| < size
    ensures |r.1| < size && forall k :: 0 <= k < |r.0| ==> |r.0[k]| == size
    decreases |samples|
  {
    if samples == [] then ([], partial)
    else
      var full := partial + [Quantize(samples[0])];
      if |full| == size then
        var (chunks, rest) := Pack([], samples[1..], size);
        ([full] + chunks, rest)
      else Pack(full, samples[1..], size)
  }

  /** Interpolate and pack a filtered block, and move the state past it. */
  function Deliver(c: Config, s: State, input: seq<real>, filtered: seq<real>): (State, seq<seq<int>>)
    requires c.Valid() && s.phase > -1.0 && |s.partial| < c.chunkSamples && |filtered| == |input| > 0
  {
    var samples := Emit(s.prev, filtered, s.phase, c.step);
    var (chunks, partial) := Pack(s.partial, samples, c.chunkSamples);
    (State((s.history + input)[|input|..], Next(s.phase, |input|, c.step) - |input| as real, filtered[|input| - 1],
           partial,
           s.totalIn + |input|, s.totalOut + |samples|), chunks)
  }

  function ProcessBlock(c: Config, s: State, input: seq<real>): (State, seq<seq<int>>)
    requires Ready(c, s)
  {
    if input == [] then (s, []) else Deliver(c, s, input, Filtered(c, s.history, input))
  }

  // ---- Blocks do not matter ----

  lemma {:induction false} DotLocal(coeffs: seq<real>, a: seq<real>, i: nat, b: seq<real>, j: nat, k: nat)
    requires k <= |coeffs| && i + k <= |a| && j + k <= |b| && a[i..i + k] == b[j..j + k]
    ensures Dot(coeffs, a, i, k) == Dot(coeffs, b, j, k)
  {
    if k > 0 {
      assert a[i..i + k - 1] == a[i..i + k][..k - 1] && b[j..j + k - 1] == b[j..j + k][..k - 1];
      assert a[i + k - 1] == a[i..i + k][k - 1] && b[j + k - 1] == b[j..j + k][k - 1];
      DotLocal(coeffs, a, i, b, j, k - 1);
    }
  }

  /** Filtering block by block, with the history carried over, filters the whole. */
  lemma FilterSplit(c: Config, history: seq<real>, a: seq<real>, b: seq<real>)
    requires c.Valid() && |history| == c.Taps() - 1
    ensures Filtered(c, history, a + b) == Filtered(c, history, a) + Filtered(c, (history + a)[|a|..], b)
  {
    if !c.passthrough {
      var whole, first, second := history + (a + b), history + a, (history + a)[|a|..] + b;
      var f, g, h := Convolve(c.coeffs, whole), Convolve(c.coeffs, first), Convolve(c.coeffs, second);
      forall i | 0 <= i < |f| ensures f[i] == (g + h)[i] {
        var t := c.Taps();
        if i < |a| {
          DotLocal(c.coeffs, whole, i, first, i, t);
        } else {
          DotLocal(c.coeffs, whole, i, second, i - |a|, t);
        }
      }
    }
  }

  lemma EmitOnce(prev: real, f: seq<real>, pos: real, step: real)
    requires step > 0.0 && -1.0 < pos <= (|f| - 1) as real
    ensures Emit(prev, f, pos, step) == [Interpolate(prev, f, pos)] + Emit(prev, f, pos + step, step)
    ensures Next(pos, |f|, step) == Next(pos + step, |f|, step)
    ensures Count(pos + step, (|f| - 1) as real, step) < Count(pos, (|f| - 1) as real, step)
  {
    CountStep(pos, (|f| - 1) as real, step);
  }

  /** Interpolating over a whole block equals interpolating over its two parts. */
  lemma {:induction false} EmitSplit(prev: real, f: seq<real>, g: seq<real>, pos: real, step: real)
    requires step > 0.0 && pos > -1.0 && |f| > 0
    ensures Next(pos, |f|, step) - |f| as real > -1.0
    ensures Emit(prev, f + g, pos, step) ==
            Emit(prev, f, pos, step) + Emit(f[|f| - 1], g, Next(pos, |f|, step) - |f| as real, step)
    decreases Count(pos, (|f| - 1) as real, step)
  {
    var n := |f| as real;
    if pos > n - 1.0 {
      EmitShift(prev, f, g, pos, step);
    } else {
      EmitOnce(prev, f, pos, step);
      EmitOnce(prev, f + g, pos, step);
      InterpolateWithin(prev, f, g, pos);
      EmitSplit(prev, f, g, pos + step, step);
      Reassociate([Interpolate(prev, f, pos)], Emit(prev, f, pos + step, step),
                  Emit(f[|f| - 1], g, Next(pos, |f|, step) - n, step));
    }
  }

  lemma Reassociate(a: seq<real>, b: seq<real>, c: seq<real>)
    ensures a + (b + c) == a + b + c
  {}

  lemma InterpolateWithin(prev: real, f: seq<real>, g: seq<real>, pos: real)
    requires -1.0 < pos <= (|f| - 1) as real
    ensures Interpolate(prev, f + g, pos) == Interpolate(prev, f, pos)
  {}

  lemma InterpolateBeyond(prev: real, f: seq<real>, g: seq<real>, pos: real)
    requires |f| > 0 && (|f| - 1) as real < pos <= (|f + g| - 1) as real
    ensures Interpolate(prev, f + g, pos) == Interpolate(f[|f| - 1], g, pos - |f| as real)
  {
    assert (pos - |f| as real).Floor == pos.Floor - |f|;
  }

  /** Beyond the first part, positions count from its end and its last sample is the one before. */
  lemma {:induction false} EmitShift(prev: real, f: seq<real>, g: seq<real>, pos: real, step: real)
    requires step > 0.0 && |f| > 0 && pos > (|f| - 1) as real
    ensures Emit(prev, f + g, pos, step) == Emit(f[|f| - 1], g, pos - |f| as real, step)
    decreases Count(pos, (|f + g| - 1) as real, step)
  {
    var n := |f| as real;
    if pos <= (|f + g| - 1) as real {
      CountStep(pos, (|f + g| - 1) as real, step);
      InterpolateBeyond(prev, f, g, pos);
      assert pos + step - n == pos - n + step;
      EmitShift(prev, f, g, pos + step, step);
    }
  }

  lemma {:induction false} EmitLength(prev: real, f: seq<real>, pos: real, step: real)
    requires step > 0.0 && pos > -1.0
    ensures |Emit(prev, f, pos, step)| == Count(pos, (|f| - 1) as real, step)
    decreases Count(pos, (|f| - 1) as real, step)
  {
    if pos <= (|f| - 1) as real {
      CountStep(pos, (|f| - 1) as real, step);
      EmitLength(prev, f, pos + step, step);
    }
  }

  lemma {:induction false} PackSplit(partial: seq<int>, a: seq<real>, b: seq<real>, size: nat)
    requires |partial| < size
    ensures var (x, p) := Pack(partial, a, size);
            var (y, q) := Pack(p, b, size);
            Pack(partial, a + b, size) == (x + y, q)
    decreases |a|
  {
    if a == [] {
      assert a + b == b;
      assert [] + Pack(partial, b, size).0 == Pack(partial, b, size).0;
    } else {
      assert (a + b)[1..] == a[1..] + b;
      var full := partial + [Quantize(a[0])];
      if |full| == size {
        PackSplit([], a[1..], b, size);
        var (x, p) := Pack([], a[1..], size);
        assert [full] + (x + Pack(p, b, size).0) == [full] + x + Pack(p, b, size).0;
      } else {
        PackSplit(full, a[1..], b, size);
      }
    }
  }

  /** Cutting the input anywhere changes neither the chunks put out nor the state reached. */
  lemma SplitAnywhere(c: Config, s: State, a: seq<real>, b: seq<real>)
    requires Ready(c, s)
    ensures Ready(c, ProcessBlock(c, s, a).0)
    ensures var (mid, x) := ProcessBlock(c, s, a);
            var (end, y) := ProcessBlock(c, mid, b);
            ProcessBlock(c, s, a + b) == (end, x + y)
  {
    if a == [] {
      assert a + b == b;
      var y := ProcessBlock(c, s, b).1;
      assert [] + y == y;
    } else if b == [] {
      assert a + b == a;
      var x := ProcessBlock(c, s, a).1;
      assert x + [] == x;
    } else {
      SplitInside(c, s, a, b);
    }
  }

  lemma SplitInside(c: Config, s: State, a: seq<real>, b: seq<real>)
    requires Ready(c, s) && a != [] && b != [] && Ready(c, ProcessBlock(c, s, a).0)
    ensures var (mid, x) := ProcessBlock(c, s, a);
            var (end, y) := ProcessBlock(c, mid, b);
            ProcessBlock(c, s, a + b) == (end, x + y)
  {
    var history := (s.history + a)[|a|..];
    var f, g := Filtered(c, s.history, a), Filtered(c, history, b);
    FilterSplit(c, s.history, a, b);
    DeliverSplit(c, s, a, b, f, g);
    assert a + b != [];
    assert ProcessBlock(c, s, a + b) == Deliver(c, s, a + b, f + g);
  }

  lemma DeliverSplit(c: Config, s: State, a: seq<real>, b: seq<real>, f: seq<real>, g: seq<real>)
    requires c.Valid() && s.phase > -1.0 && |s.partial| < c.chunkSamples && |f| == |a| > 0 && |g| == |b| > 0
    ensures Deliver(c, s, a, f).0.phase > -1.0
    ensures var (mid, chunks) := Deliver(c, s, a, f);
            var (end, more) := Deliver(c, mid, b, g);
            Deliver(c, s, a + b, f + g) == (end, chunks + more)
  {
    EmitSplit(s.prev, f, g, s.phase, c.step);
    var (mid, chunks) := Deliver(c, s, a, f);
    var (end, more) := Deliver(c, mid, b, g);
    var (whole, all) := Deliver(c, s, a + b, f + g);
    var x, y := Emit(s.prev, f, s.phase, c.step), Emit(mid.prev, g, mid.phase, c.step);
    PackSplit(s.partial, x, y, c.chunkSamples);
    assert whole.history == end.history;
    assert whole.phase == end.phase by { NextSplit(s.phase, |a|, |b|, c.step); }
    assert whole.prev == end.prev;
    assert whole.totalIn == end.totalIn && whole.totalOut == end.totalOut;
  }

  lemma {:induction false} NextSplit(pos: real, m: nat, n: nat, step: real)
    requires step > 0.0 && m > 0
    ensures Next(pos, m + n, step) - (m + n) as real == Next(Next(pos, m, step) - m as real, n, step) - n as real
    decreases Count(pos, (m - 1) as real, step)
  {
    if pos > (m - 1) as real {
      NextShift(pos, m, n, step);
    } else {
      CountStep(pos, (m - 1) as real, step);
      NextSplit(pos + step, m, n, step);
    }
  }

  lemma {:induction false} NextShift(pos: real, m: nat, n: nat, step: real)
    requires step > 0.0
    ensures Next(pos, m + n, step) == Next(pos - m as real, n, step) + m as real
    decreases Count(pos, (m + n - 1) as real, step)
  {
    if pos <= (m + n - 1) as real {
      CountStep(pos, (m + n - 1) as real, step);
      NextShift(pos + step, m, n, step);
      assert pos + step - m as real == pos - m as real + step;
    }
  }

  /** Feed a list of blocks one after the other. */
  function Feed(c: Config, s: State, blocks: seq<seq<real>>): (State, seq<seq<int>>)
    requires Ready(c, s)
    decreases |blocks|
  {
    if blocks == [] then (s, [])
    else
      var (mid, x) := ProcessBlock(c, s, blocks[0]);
      var (end, y) := Feed(c, mid, blocks[1..]);
      (end, x + y)
  }

  function Concat(blocks: seq<seq<real>>): seq<real> {
    if blocks == [] then [] else blocks[0] + Concat(blocks[1..])
  }

  /** However a signal is cut into blocks, the chunks put out and the final phase, history, previous sample,
      partial chunk and counters are those of the whole signal processed at once. */
  lemma {:induction false} BlocksDoNotMatter(c: Config, s: State, blocks: seq<seq<real>>)
    requires Ready(c, s)
    ensures Feed(c, s, blocks) == ProcessBlock(c, s, Concat(blocks))
    decreases |blocks|
  {
    if blocks != [] {
      BlocksDoNotMatter(c, ProcessBlock(c, s, blocks[0]).0, blocks[1..]);
      SplitAnywhere(c, s, blocks[0], Concat(blocks[1..]));
    }
  }

  /** A fresh resampler turns N > 0 samples into floor((N - 1) / step) + 1. */
  lemma SamplesProduced(c: Config, blocks: seq<seq<real>>)
    requires c.Valid() && |Concat(blocks)| > 0
    ensures Feed(c, Start(c), blocks).0.totalOut == ((|Concat(blocks)| - 1) as real / c.step).Floor + 1
    ensures Feed(c, Start(c), blocks).0.totalIn == |Concat(blocks)|
  {
    var s, input := Start(c), Concat(blocks);
    BlocksDoNotMatter(c, s, blocks);
    EmitLength(s.prev, Filtered(c, s.history, input), s.phase, c.step);
  }

  // ---- What the samples are ----

  function Flatten(chunks: seq<seq<int>>): seq<int> {
    if chunks == [] then [] else chunks[0] + Flatten(chunks[1..])
  }

  function QuantizeAll(samples: seq<real>): (r: seq<int>)
    ensures |r| == |samples| && forall i :: 0 <= i < |samples| ==> r[i] == Quantize(samples[i])
  {
    if samples == [] then [] else [Quantize(samples[0])] + QuantizeAll(samples[1..])
  }

  /** Packing loses nothing: the chunks in order, then the partial chunk, are the quantized samples. */
  lemma {:induction false} PackKeepsAll(partial: seq<int>, samples: seq<real>, size: nat)
    requires |partial| < size
    ensures var (chunks, rest) := Pack(partial, samples, size);
            Flatten(chunks) + rest == partial + QuantizeAll(samples)
    decreases |samples|
  {
    if samples == [] {
      assert partial + QuantizeAll(samples) == partial;
      assert Flatten([]) + partial == partial;
    } else {
      var full, tail := partial + [Quantize(samples[0])], QuantizeAll(samples[1..]);
      assert partial + QuantizeAll(samples) == full + tail;
      if |full| == size {
        PackKeepsAll([], samples[1..], size);
        var (chunks, rest) := Pack([], samples[1..], size);
        assert [] + tail == tail;
      } else {
        PackKeepsAll(full, samples[1..], size);
      }
    }
  }

  /** The position of the j-th sample. */
  function Position(pos: real, j: nat, step: real): real
    decreases j
  {
    if j == 0 then pos else Position(pos + step, j - 1, step)
  }

  lemma {:induction false} PositionIs(pos: real, j: nat, step: real)
    ensures Position(pos, j, step) == pos + j as real * step
    decreases j
  {
    if j > 0 {
      PositionIs(pos + step, j - 1, step);
      assert j as real * step == (j - 1) as real * step + step;
    }
  }

  lemma {:induction false} EmitAt(prev: real, f: seq<real>, pos: real, step: real, j: nat)
    requires step > 0.0 && pos > -1.0 && j < |Emit(prev, f, pos, step)|
    ensures -1.0 < Position(pos, j, step) <= (|f| - 1) as real
    ensures Emit(prev, f, pos, step)[j] == Interpolate(prev, f, Position(pos, j, step))
    decreases j
  {
    if j > 0 { EmitAt(prev, f, pos + step, step, j - 1); }
  }

  lemma WholeSample(c: Config, s: State, input: seq<real>, filtered: seq<real>, j: nat)
    requires Ready(c, s) && input != [] && s.partial == [] && filtered == Filtered(c, s.history, input)
    requires j < |Emit(s.prev, filtered, s.phase, c.step)|
    ensures var (end, chunks) := ProcessBlock(c, s, input);
            var out, pos := Flatten(chunks) + end.partial, Position(s.phase, j, c.step);
            |out| == |Emit(s.prev, filtered, s.phase, c.step)| && -1.0 < pos <= (|filtered| - 1) as real
            && out[j] == Quantize(Interpolate(s.prev, filtered, pos))
  {
    var samples := Emit(s.prev, filtered, s.phase, c.step);
    PackKeepsAll([], samples, c.chunkSamples);
    assert [] + QuantizeAll(samples) == QuantizeAll(samples);
    EmitAt(s.prev, filtered, s.phase, c.step, j);
  }

  /** The j-th sample put out by a fresh resampler, whatever the blocks, is the filtered signal at the j-th
      position, which `PositionIs` places at j * step. */
  lemma OutputIsTheSignalResampled(c: Config, blocks: seq<seq<real>>, j: nat)
    requires c.Valid() && Concat(blocks) != [] && j < Feed(c, Start(c), blocks).0.totalOut
    ensures var (end, chunks) := Feed(c, Start(c), blocks);
            var filtered := Filtered(c, Start(c).history, Concat(blocks));
            var out, pos := Flatten(chunks) + end.partial, Position(0.0, j, c.step);
            |out| == end.totalOut && -1.0 < pos <= (|filtered| - 1) as real
            && out[j] == Quantize(Interpolate(0.0, filtered, pos))
  {
    var s, input := Start(c), Concat(blocks);
    BlocksDoNotMatter(c, s, blocks);
    WholeSample(c, s, input, Filtered(c, s.history, input), j);
  }

  // ---- The output, sample by sample ----

  /** The signal before its start is silence. */
  function Heard(input: seq<real>, i: int): real
    requires i < |input|
  {
    if i < 0 then 0.0 else input[i]
  }

  /** The taps from `k` on, over the input that ends with the n-th sample. */
  function Weighted(coeffs: seq<real>, input: seq<real>, n: nat, k: nat): real
    requires n < |input| && k <= |coeffs|
    decreases |coeffs| - k
  {
    if k == |coeffs| then 0.0
    else coeffs[k] * Heard(input, n - (|coeffs| - 1 - k)) + Weighted(coeffs, input, n, k + 1)
  }

  lemma {:induction false} DotIsWeighted(coeffs: seq<real>, buf: seq<real>, input: seq<real>, n: nat, k: nat)
    requires |coeffs| > 0 && n < |input| && k <= |coeffs| && |buf| == |coeffs| - 1 + |input|
    requires forall i :: 0 <= i < |buf| ==> buf[i] == Heard(input, i - (|coeffs| - 1))
    ensures Dot(coeffs, buf, n, k) + Weighted(coeffs, input, n, k) == Weighted(coeffs, input, n, 0)
    decreases k
  {
    if k > 0 {
      DotIsWeighted(coeffs, buf, input, n, k - 1);
      assert buf[n + k - 1] == Heard(input, n - (|coeffs| - 1 - (k - 1)));
    }
  }

  /** The filtered signal at a position: every tap weighs one of the samples up to there, the last tap the newest. */
  lemma FilterIsConvolution(c: Config, input: seq<real>, n: nat)
    requires c.Valid() && n < |input| && !c.passthrough
    ensures Filtered(c, Start(c).history, input)[n] == Weighted(c.coeffs, input, n, 0)
  {
    DotIsWeighted(c.coeffs, Start(c).history + input, input, n, c.Taps());
  }

  /** The 16-bit value of a sample: cut to the range from -1 to 1, scaled, and rounded to the nearest. */
  predicate Nearest(v: int, sample: real) {
    var cut := if sample > 1.0 then 1.0 else if sample < -1.0 then -1.0 else sample;
    var scaled := if cut < 0.0 then cut * 32768.0 else cut * 32767.0;
    v as real - 0.5 <= scaled < v as real + 0.5
  }

  lemma QuantizeIsNearest(sample: real)
    ensures Nearest(Quantize(sample), sample)
  {}

  /** The mean of two neighbours, weighed by how near they are to the position. */
  ghost predicate Between(filtered: seq<real>, pos: real, value: real) {
    exists i: nat :: BetweenAt(filtered, pos, i, value)
  }

  predicate BetweenAt(filtered: seq<real>, pos: real, i: nat, value: real) {
    && i < |filtered| && i as real <= pos < (i + 1) as real
    && if pos == i as real then value == filtered[i]
       else i + 1 < |filtered| && value == filtered[i] * ((i + 1) as real - pos) + filtered[i + 1] * (pos - i as real)
  }

  lemma InterpolateIsBetween(prev: real, filtered: seq<real>, pos: real)
    requires 0.0 <= pos <= (|filtered| - 1) as real
    ensures Between(filtered, pos, Interpolate(prev, filtered, pos))
  {
    var i := pos.Floor;
    var w, value := pos - i as real, Interpolate(prev, filtered, pos);
    if w != 0.0 {
      Mean(filtered[i], filtered[i + 1], w);
      assert (i + 1) as real - pos == 1.0 - w;
    }
    assert BetweenAt(filtered, pos, i, value);
  }

  lemma Mean(a: real, b: real, w: real)
    ensures a + (b - a) * w == a * (1.0 - w) + b * w
  {}

  lemma ValueBetween(filtered: seq<real>, pos: real, v: int) returns (value: real)
    requires 0.0 <= pos <= (|filtered| - 1) as real && v == Quantize(Interpolate(0.0, filtered, pos))
    ensures Between(filtered, pos, value) && Nearest(v, value)
  {
    value := Interpolate(0.0, filtered, pos);
    InterpolateIsBetween(0.0, filtered, pos);
    QuantizeIsNearest(value);
  }

  lemma PositionNotNegative(j: nat, step: real)
    requires step > 0.0
    ensures Position(0.0, j, step) >= 0.0
  {
    PositionIs(0.0, j, step);
  }

  /** Whatever the blocks, the j-th sample put out is nearest to the mean of the two filtered samples around its
      position, which `PositionIs` places at j times the step. */
  lemma OutputIsExact(c: Config, blocks: seq<seq<real>>, j: nat) returns (pos: real, value: real)
    requires c.Valid() && Concat(blocks) != [] && j < Feed(c, Start(c), blocks).0.totalOut
    ensures pos == Position(0.0, j, c.step) && Between(Filtered(c, Start(c).history, Concat(blocks)), pos, value)
    ensures var (end, chunks) := Feed(c, Start(c), blocks);
            j < |Flatten(chunks) + end.partial| && Nearest((Flatten(chunks) + end.partial)[j], value)
  {
    OutputIsTheSignalResampled(c, blocks, j);
    pos := Position(0.0, j, c.step);
    PositionNotNegative(j, c.step);
    var (end, chunks) := Feed(c, Start(c), blocks);
    value := ValueBetween(Filtered(c, Start(c).history, Concat(blocks)), pos, (Flatten(chunks) + end.partial)[j]);
  }

  // ---- The resampler object ----

  /** One turn of the interpolation loop. */
  lemma EmitNext(prev: real, f: seq<real>, pos: real, step: real, done: seq<real>)
    requires step > 0.0 && -1.0 < pos <= (|f| - 1) as real
    ensures Count(pos + step, (|f| - 1) as real, step) < Count(pos, (|f| - 1) as real, step)
    ensures Next(pos, |f|, step) == Next(pos + step, |f|, step)
    ensures done + Emit(prev, f, pos, step) == done + [Interpolate(prev, f, pos)] + Emit(prev, f, pos + step, step)
  {
    CountStep(pos, (|f| - 1) as real, step);
    assert Emit(prev, f, pos, step) == [Interpolate(prev, f, pos)] + Emit(prev, f, pos + step, step);
  }

  lemma PackOne(partial: seq<int>, sample: real, size: nat)
    requires |partial| < size
    ensures var full := partial + [Quantize(sample)];
            Pack(partial, [sample], size) == if |full| == size then ([full], []) else ([], full)
  {
    assert [sample][1..] == [];
    var full := partial + [Quantize(sample)];
    assert [full] + [] == [full];
  }

  class Stream {
    const config: Config
    var history: array<real>
    var phase: real
    var prevFiltered: real
    var hasPrev: bool
    var chunk: array<int>
    var fill: nat
    var totalIn: nat
    var totalOut: nat

    function View(): State
      reads this, history, chunk
      requires fill <= chunk.Length
    {
      State(history[..], phase, prevFiltered, chunk[..fill], totalIn, totalOut)
    }

    ghost predicate Valid()
      reads this, history, chunk
    {
      fill < chunk.Length == config.chunkSamples && Ready(config, View()) && (hasPrev <==> totalIn > 0)
    }

    constructor (c: Config)
      requires c.Valid()
      ensures Valid() && config == c && View() == Start(c) && fresh(history) && fresh(chunk)
    {
      config := c;
      history := new real[c.Taps() - 1](_ => 0.0);
      phase, prevFiltered, hasPrev := 0.0, 0.0, false;
      chunk := new int[c.chunkSamples](_ => 0);
      fill, totalIn, totalOut := 0, 0, 0;
      new;
      assert View().history == Start(c).history;
    }

    /** Take one block and return the chunks it completes. */
    method Process(input: seq<real>) returns (out: seq<seq<int>>)
      requires Valid()
      modifies this, history, chunk
      ensures Valid() && history == old(history) && (chunk == old(chunk) || fresh(chunk))
      ensures (View(), out) == ProcessBlock(config, old(View()), input)
    {
      out := [];
      var n := |input|;
      if n == 0 {
        return;
      }
      ghost var start := View();
      var filtered := FilterBlock(input);
      out := Resample(start, input, filtered);
    }

    /** Interpolate a filtered block and move past it. */
    method Resample(ghost start: State, input: seq<real>, filtered: seq<real>) returns (out: seq<seq<int>>)
      requires config.Valid() && fill < chunk.Length == config.chunkSamples
      requires |filtered| == |input| > 0 && phase > -1.0 && (!hasPrev ==> phase >= 0.0)
      requires View() == start.(history := (start.history + input)[|input|..])
      modifies this, chunk
      ensures history == old(history) && history[..] == old(history[..]) && (chunk == old(chunk) || fresh(chunk))
      ensures fill < chunk.Length == config.chunkSamples && hasPrev && totalIn > 0
      ensures (View(), out) == Deliver(config, start, input, filtered)
    {
      var n, pos := |input|, phase;
      totalIn := totalIn + n;
      if !hasPrev && pos < 0.0 {
        pos := 0.0;
      }
      out, pos := EmitAll(filtered, pos);
      phase := pos - n as real;
      prevFiltered := filtered[n - 1];
      hasPrev := true;
    }

    /** The value at a position, between its two neighbours. */
    method Sample(filtered: seq<real>, pos: real) returns (sample: real)
      requires -1.0 < pos <= (|filtered| - 1) as real
      ensures sample == Interpolate(prevFiltered, filtered, pos)
    {
      var i0 := pos.Floor;
      var frac := pos - i0 as real;
      sample := At(prevFiltered, filtered, i0);
      if frac != 0.0 {
        sample := sample + (At(prevFiltered, filtered, i0 + 1) - sample) * frac;
      }
    }

    /** Interpolate from a position to the end of a filtered block. */
    method EmitAll(filtered: seq<real>, start: real) returns (out: seq<seq<int>>, pos: real)
      requires config.Valid() && fill < chunk.Length == config.chunkSamples && start > -1.0 && |filtered| > 0
      modifies this`chunk, this`fill, this`totalOut, chunk
      ensures fill < chunk.Length == config.chunkSamples && (chunk == old(chunk) || fresh(chunk))
      ensures pos == Next(start, |filtered|, config.step)
      ensures totalOut == old(totalOut) + |Emit(prevFiltered, filtered, start, config.step)|
      ensures (out, chunk[..fill]) == Pack(old(chunk[..fill]), Emit(prevFiltered, filtered, start, config.step),
                                           config.chunkSamples)
    {
      out, pos := [], start;
      ghost var done, partial, samples := [], chunk[..fill], Emit(prevFiltered, filtered, start, config.step);
      while pos <= (|filtered| - 1) as real
        invariant chunk == old(chunk) || fresh(chunk)
        invariant fill < chunk.Length == config.chunkSamples
        invariant pos > -1.0 && Next(pos, |filtered|, config.step) == Next(start, |filtered|, config.step)
        invariant samples == done + Emit(prevFiltered, filtered, pos, config.step)
        invariant totalOut == old(totalOut) + |done|
        invariant (out, chunk[..fill]) == Pack(partial, done, config.chunkSamples)
        decreases Count(pos, (|filtered| - 1) as real, config.step)
      {
        var sample := Sample(filtered, pos);
        EmitNext(prevFiltered, filtered, pos, config.step, done);
        PackSplit(partial, done, [sample], config.chunkSamples);
        var full := Push(sample);
        out := out + full;
        done := done + [sample];
        pos := pos + config.step;
      }
      assert done + [] == done;
    }

    method ConvolveLoop(buf: array<real>, n: nat) returns (filtered: seq<real>)
      requires config.Valid() && buf.Length == config.Taps() - 1 + n
      ensures filtered == Convolve(config.coeffs, buf[..])
    {
      filtered := [];
      for i := 0 to n
        invariant filtered == Convolve(config.coeffs, buf[..])[..i]
      {
        var acc := 0.0;
        for k := 0 to config.Taps()
          invariant acc == Dot(config.coeffs, buf[..], i, k)
        {
          acc := acc + config.coeffs[k] * buf[i + k];
        }
        filtered := filtered + [acc];
      }
    }

    /** Filter a block behind the carried history, and carry its end. */
    method FilterBlock(input: seq<real>) returns (filtered: seq<real>)
      requires config.Valid() && history.Length == config.Taps() - 1 && |input| > 0
      modifies history
      ensures filtered == Filtered(config, old(history[..]), input)
      ensures history[..] == (old(history[..]) + input)[|input|..]
    {
      if config.passthrough {
        filtered := input;
        return;
      }
      var n, h := |input|, history.Length;
      var before := history;
      var buf := new real[h + n](i requires 0 <= i < h + n reads before => if i < h then before[i] else input[i - h]);
      assert buf[..] == old(history[..]) + input;
      filtered := ConvolveLoop(buf, n);
      if n >= h {
        forall i | 0 <= i < h { history[i] := buf[n + i]; }
      } else {
        forall i | 0 <= i < h - n { history[i] := history[i + n]; }
        forall i | 0 <= i < n { history[h - n + i] := buf[h + i]; }
      }
    }

    /** Quantize one sample into the chunk, and put the chunk out when it is full. */
    method Push(sample: real) returns (full: seq<seq<int>>)
      requires fill < chunk.Length == config.chunkSamples
      modifies this`chunk, this`fill, this`totalOut, chunk
      ensures fill < chunk.Length == config.chunkSamples && (chunk == old(chunk) || fresh(chunk))
      ensures (full, chunk[..fill]) == Pack(old(chunk[..fill]), [sample], config.chunkSamples)
      ensures totalOut == old(totalOut) + 1
    {
      full := [];
      var v := sample;
      if v > 1.0 { v := 1.0; } else if v < -1.0 { v := -1.0; }
      chunk[fill] := if v < 0.0 then Round(v * 32768.0) else Round(v * 32767.0);
      fill := fill + 1;
      totalOut := totalOut + 1;
      PackOne(old(chunk[..fill]), sample, config.chunkSamples);
      assert chunk[..fill] == old(chunk[..fill]) + [Quantize(sample)];
      if fill == config.chunkSamples {
        assert chunk[..] == chunk[..fill];
        full := [chunk[..]];
        chunk := new int[config.chunkSamples](_ => 0);
        fill := 0;
      }
    }
  }
}
