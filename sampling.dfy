/**
 * Samplers: a plain Sampler pushes one decoded value per frame to its sink;
 * an Oversampler reads a sub-cycle counter from the frame, skips repeated
 * sub-cycles, counts gaps (modulo 65536) and pushes a burst of `stride`
 * int16 samples.
 */
module Sampling {
  import opened Wrappers
  import opened CInt
  import opened Names
  import opened Params

  /** One inbound PDO frame: header fields, payload size and the bytes from the start of the payload. */
  datatype Pdo = Pdo(cycle: uint16, workingCounter: int32, wcState: int32, size: nat, buffer: seq<byte>)

  /** cast_int32(mapping, buffer, 0): a channel's value decoded from the payload. */
  type CastFn = (Mapping, seq<byte>) -> int32

  /** The int16_t stored at byte offset `i` of the buffer. */
  function Int16At(buffer: seq<byte>, i: int): int
    requires 0 <= i && i + 1 < |buffer|
  {
    Int16LE(buffer[i], buffer[i + 1])
  }

  /** `stride` int16 samples starting at byte `offset` lie inside a buffer of `len` bytes. */
  predicate BurstFits(offset: int, stride: int, len: int)
  {
    stride <= 0 || (0 <= offset && offset + 2 * stride <= len)
  }

  /** The first `n` int16 samples from byte `offset`, in buffer order. */
  function Int16Samples(buffer: seq<byte>, offset: int, n: int): (r: seq<int>)
    requires BurstFits(offset, n, |buffer|)
    ensures |r| == if n < 0 then 0 else n
    ensures forall k :: 0 <= k < |r| ==> r[k] == Int16At(buffer, offset + 2 * k)
    decreases n
  {
    if n <= 0 then [] else Int16Samples(buffer, offset, n - 1) + [Int16At(buffer, offset + 2 * (n - 1))]
  }

  /** Which class a sampler is: a plain Sampler, or an Oversampler with its cycle channel and its XFC<n>_MISSED parameter. */
  datatype Kind = Single | Oversampling(cycle: Mapping, missedParam: int)

  /** The mutable part of a sampler: lastCycle, missed and the samples its sink has received. */
  datatype SamplerState = SamplerState(lastCycle: int32, missed: int32, sink: seq<int>)

  /** A sampler's configuration together with its state. */
  datatype SamplerView = SamplerView(kind: Kind, sample: Mapping, state: SamplerState)

  /** The state after one frame, and the value published to the missed parameter, if any. */
  datatype Step = Step(next: SamplerState, published: Option<int>)

  /** The Oversampler's contiguity test: `cyc` is the successor of `last` under C's truncating remainder by 65536. */
  predicate Follows(last: int32, cyc: int32)
  {
    CRem65536(last + 1) == cyc
  }

  /** Oversampler::on_pdo_message on values: `cyc` is the decoded cycle channel, `burst` the stride samples of this frame. */
  function OversampleStep(s: SamplerState, cyc: int32, burst: seq<int>): Step
  {
    if cyc == s.lastCycle then Step(s, None)
    else if !Follows(s.lastCycle, cyc) then
      Step(SamplerState(cyc, Inc32(s.missed), s.sink + burst), Some(MaskInt32Max(s.missed)))
    else Step(SamplerState(cyc, s.missed, s.sink + burst), None)
  }

  /** The oversampler's burst for this frame lies inside the buffer. */
  predicate Fits(v: SamplerView, pdo: Pdo, stride: int)
  {
    v.kind.Oversampling? ==> BurstFits(v.sample.offset, stride, |pdo.buffer|)
  }

  /** One sampler's on_pdo_message, dispatched on its class. */
  function SamplerStep(v: SamplerView, pdo: Pdo, stride: int, cast: CastFn): Step
    requires Fits(v, pdo, stride)
  {
    match v.kind
    case Single => Step(v.state.(sink := v.state.sink + [cast(v.sample, pdo.buffer)]), None)
    case Oversampling(cycle, _) =>
      OversampleStep(v.state, cast(cycle, pdo.buffer), Int16Samples(pdo.buffer, v.sample.offset, stride))
  }

  /** The parameter table after a sampler publishes `published` (only an Oversampler has a missed parameter). */
  function Publish(values: map<int, int>, count: nat, kind: Kind, published: Option<int>): map<int, int>
  {
    if kind.Oversampling? && published.Some? then SetParam(values, count, kind.missedParam, published.value)
    else values
  }

  /** The parameter table after every sampler of `vs`, in list order, has handled the frame. */
  function PublishAll(values: map<int, int>, count: nat, vs: seq<SamplerView>, pdo: Pdo, stride: int, cast: CastFn)
    : map<int, int>
    requires forall i :: 0 <= i < |vs| ==> Fits(vs[i], pdo, stride)
  {
    if vs == [] then values
    else
      var v := vs[|vs| - 1];
      Publish(PublishAll(values, count, vs[..|vs| - 1], pdo, stride, cast), count, v.kind,
              SamplerStep(v, pdo, stride, cast).published)
  }

  /** The views of `ss`, in list order. */
  ghost function Views(ss: seq<Sampler>): (vs: seq<SamplerView>)
    reads ss
    ensures |vs| == |ss| && forall i :: 0 <= i < |ss| ==> vs[i] == ss[i].View()
  {
    if ss == [] then [] else Views(ss[..|ss| - 1]) + [ss[|ss| - 1].View()]
  }

  /** The Oversampler missed parameters among `vs`. */
  function MissedParams(vs: seq<SamplerView>): set<int>
  {
    set i | 0 <= i < |vs| && vs[i].kind.Oversampling? :: vs[i].kind.missedParam
  }

  /** Samplers change no parameter other than the Oversamplers' missed parameters. */
  lemma {:induction false} PublishAllTouchesOnlyMissed(values: map<int, int>, count: nat, vs: seq<SamplerView>,
                                                       pdo: Pdo, stride: int, cast: CastFn, key: int)
    requires forall i :: 0 <= i < |vs| ==> Fits(vs[i], pdo, stride)
    requires key !in MissedParams(vs)
    ensures var r := PublishAll(values, count, vs, pdo, stride, cast);
            (key in r <==> key in values) && (key in r ==> r[key] == values[key])
  {
    if vs != [] {
      var n := |vs| - 1;
      assert MissedParams(vs[..n]) <= MissedParams(vs) by {
        forall p | p in MissedParams(vs[..n]) ensures p in MissedParams(vs) {
          var i :| 0 <= i < n && vs[..n][i].kind.Oversampling? && p == vs[..n][i].kind.missedParam;
          assert vs[i] == vs[..n][i];
        }
      }
      PublishAllTouchesOnlyMissed(values, count, vs[..n], pdo, stride, cast, key);
      if vs[n].kind.Oversampling? {
        assert vs[n].kind.missedParam in MissedParams(vs);
      }
    }
  }

  // ---------------------------------------------------------------------------
  // The Oversampler over a run of frames

  /** What an Oversampler takes from one frame: the decoded cycle and the burst of samples. */
  datatype BurstFrame = BurstFrame(cyc: int32, burst: seq<int>)

  /** The Oversampler's state after handling `fs` in order. */
  function OversampleRun(s: SamplerState, fs: seq<BurstFrame>): SamplerState
  {
    if fs == [] then s
    else
      var f := fs[|fs| - 1];
      OversampleStep(OversampleRun(s, fs[..|fs| - 1]), f.cyc, f.burst).next
  }

  /** The cycle of the frame before frame `i` (the state's lastCycle for the first). */
  function PrevCycle(last: int32, fs: seq<BurstFrame>, i: int): int32
    requires 0 <= i < |fs|
  {
    if i == 0 then last else fs[i - 1].cyc
  }

  /** Frame `i` repeats the cycle of the frame before it. */
  predicate Repeat(last: int32, fs: seq<BurstFrame>, i: int)
    requires 0 <= i < |fs|
  {
    fs[i].cyc == PrevCycle(last, fs, i)
  }

  /** Frame `i` is neither a repeat nor the direct successor (modulo 65536) of the frame before. */
  predicate IsGap(last: int32, fs: seq<BurstFrame>, i: int)
    requires 0 <= i < |fs|
  {
    !Repeat(last, fs, i) && !Follows(PrevCycle(last, fs, i), fs[i].cyc)
  }

  /** The gap frames of a run. */
  ghost function Gaps(last: int32, fs: seq<BurstFrame>): set<int>
  {
    set i | 0 <= i < |fs| && IsGap(last, fs, i)
  }

  /** The bursts of the frames that are not repeats, concatenated in frame order. */
  function AcceptedBursts(last: int32, fs: seq<BurstFrame>): seq<int>
  {
    if fs == [] then []
    else AcceptedBursts(last, fs[..|fs| - 1])
         + (if Repeat(last, fs, |fs| - 1) then [] else fs[|fs| - 1].burst)
  }

  /** Extending a run by one frame adds one gap exactly when that frame is a gap. */
  lemma GapsSnoc(last: int32, fs: seq<BurstFrame>)
    requires fs != []
    ensures var n := |fs| - 1;
            |Gaps(last, fs)| == |Gaps(last, fs[..n])| + (if IsGap(last, fs, n) then 1 else 0)
  {
    var n := |fs| - 1;
    var g := Gaps(last, fs[..n]);
    var h := if IsGap(last, fs, n) then g + {n} else g;
    forall i | 0 <= i < n
      ensures IsGap(last, fs, i) == IsGap(last, fs[..n], i)
    {
      assert fs[..n][i] == fs[i];
      assert PrevCycle(last, fs, i) == PrevCycle(last, fs[..n], i);
    }
    assert Gaps(last, fs) == h;
  }

  /** After a run, lastCycle is the last frame's cycle: a repeat already equals it. */
  lemma {:induction false} OversampleRunLast(s: SamplerState, fs: seq<BurstFrame>)
    ensures OversampleRun(s, fs).lastCycle == if fs == [] then s.lastCycle else fs[|fs| - 1].cyc
  {
    if fs != [] {
      OversampleRunLast(s, fs[..|fs| - 1]);
    }
  }

  /** Over any run of frames the sink receives exactly the bursts of the non-repeated frames, in order. */
  lemma {:induction false} OversampleRunSink(s: SamplerState, fs: seq<BurstFrame>)
    ensures OversampleRun(s, fs).sink == s.sink + AcceptedBursts(s.lastCycle, fs)
  {
    if fs != [] {
      var n := |fs| - 1;
      OversampleRunSink(s, fs[..n]);
      OversampleRunLast(s, fs[..n]);
      assert OversampleRun(s, fs[..n]).lastCycle == PrevCycle(s.lastCycle, fs, n);
    }
  }

  /**
   * Over any run of frames missed advances once per gap frame, however many
   * sub-cycles the gap spans.
   */
  lemma {:induction false} OversampleRunMissed(s: SamplerState, fs: seq<BurstFrame>)
    ensures OversampleRun(s, fs).missed == IncN(s.missed, |Gaps(s.lastCycle, fs)|)
  {
    if fs == [] {
      assert Gaps(s.lastCycle, fs) == {};
    } else {
      var n := |fs| - 1;
      OversampleRunMissed(s, fs[..n]);
      OversampleRunLast(s, fs[..n]);
      assert OversampleRun(s, fs[..n]).lastCycle == PrevCycle(s.lastCycle, fs, n);
      GapsSnoc(s.lastCycle, fs);
    }
  }

  /** Frames whose cycles count up by one modulo 65536 (65535 is followed by 0) never count as missed. */
  lemma ContiguousRunMissesNothing(s: SamplerState, fs: seq<BurstFrame>)
    requires 0 <= s.lastCycle
    requires forall i :: 0 <= i < |fs| ==> fs[i].cyc == (PrevCycle(s.lastCycle, fs, i) + 1) % 0x1_0000
    ensures OversampleRun(s, fs).missed == s.missed
  {
    OversampleRunMissed(s, fs);
    forall i | 0 <= i < |fs|
      ensures !IsGap(s.lastCycle, fs, i)
    {
      if i > 0 {
        assert fs[i - 1].cyc == (PrevCycle(s.lastCycle, fs, i - 1) + 1) % 0x1_0000;
      }
    }
    assert Gaps(s.lastCycle, fs) == {};
  }

  /** A frame repeating the cycle just handled changes nothing and publishes nothing. */
  lemma RepeatIsNoOp(s: SamplerState, cyc: int32, burst: seq<int>, burst': seq<int>)
    ensures var t := OversampleStep(s, cyc, burst).next;
            OversampleStep(t, cyc, burst') == Step(t, None)
  {
  }

  /** A gap frame publishes the count as it was before the increment, with the sign bit cleared. */
  lemma GapPublishesPreviousCount(s: SamplerState, cyc: int32, burst: seq<int>)
    requires cyc != s.lastCycle && !Follows(s.lastCycle, cyc)
    ensures OversampleStep(s, cyc, burst).published == Some(MaskInt32Max(s.missed))
    ensures OversampleStep(s, cyc, burst).next.missed == Inc32(s.missed)
  {
  }

  /** Since lastCycle starts at 0, a first frame whose cycle is 0 is skipped. */
  lemma FirstFrameAtCycleZeroSkipped(burst: seq<int>)
    ensures OversampleStep(SamplerState(0, 0, []), 0, burst) == Step(SamplerState(0, 0, []), None)
  {
  }

  /** Cycles 0, 1, 3 after construction: 0 is skipped, 1 follows, 3 misses once. */
  lemma SkippedCycleCountsOnce(b0: seq<int>, b1: seq<int>, b3: seq<int>)
    ensures OversampleRun(SamplerState(0, 0, []), [BurstFrame(0, b0), BurstFrame(1, b1), BurstFrame(3, b3)])
            == SamplerState(3, 1, b1 + b3)
  {
    var s := SamplerState(0, 0, []);
    var fs := [BurstFrame(0, b0), BurstFrame(1, b1), BurstFrame(3, b3)];
    assert fs[..2] == [BurstFrame(0, b0), BurstFrame(1, b1)];
    assert fs[..2][..1] == [BurstFrame(0, b0)];
    assert fs[..2][..1][..0] == [];
    assert OversampleRun(s, fs[..2][..1]) == s;
    assert Follows(0, 1);
    assert OversampleRun(s, fs[..2]) == SamplerState(1, 0, b1);
    assert !Follows(1, 3);
  }

  /** Cycles 65534, 65535, 0 after 65533: the wrap to 0 is contiguous. */
  lemma WrapIsContiguous(m: int32, sink: seq<int>, b0: seq<int>, b1: seq<int>, b2: seq<int>)
    ensures OversampleRun(SamplerState(65533, m, sink),
                          [BurstFrame(65534, b0), BurstFrame(65535, b1), BurstFrame(0, b2)]).missed == m
  {
    var fs := [BurstFrame(65534, b0), BurstFrame(65535, b1), BurstFrame(0, b2)];
    ContiguousRunMissesNothing(SamplerState(65533, m, sink), fs);
  }

  // ---------------------------------------------------------------------------
  // The Sampler / Oversampler objects

  class Sampler {
    const params: ParamTable     // the owning port's parameter table
    const channel: int
    const sample: Mapping
    const kind: Kind
    const adcFirst: int          // the gadc's parameters are adcFirst .. adcFirst + adcCount - 1
    const adcCount: nat
    var lastCycle: int32
    var missed: int32
    var sink: seq<int>           // the samples given to gadc_put_sample, in order

    /** gadc_has_parameter(adc, reason). */
    predicate OwnsParam(reason: int)
    {
      adcFirst <= reason < adcFirst + adcCount
    }

    ghost function State(): SamplerState
      reads this
    {
      SamplerState(lastCycle, missed, sink)
    }

    ghost function View(): SamplerView
      reads this
    {
      SamplerView(kind, sample, State())
    }

    /** Sampler(parent, channel, sample): gadc_new creates the adc's parameters in the port's table. */
    constructor Plain(params: ParamTable, channel: int, sample: Mapping, adcParamCount: nat)
      modifies params
      ensures this.params == params && this.channel == channel && this.sample == sample && kind == Single
      ensures adcFirst == old(params.count) && adcCount == adcParamCount
      ensures params.count == old(params.count) + adcParamCount && params.values == old(params.values)
      ensures State() == SamplerState(0, 0, [])
    {
      var first := params.count;
      var k := 0;
      while k < adcParamCount
        invariant 0 <= k <= adcParamCount
        invariant params.count == first + k && params.values == old(params.values)
      {
        var _ := params.CreateParam();
        k := k + 1;
      }
      this.params := params;
      this.channel := channel;
      this.sample := sample;
      kind := Single;
      adcFirst, adcCount := first, adcParamCount;
      lastCycle, missed, sink := 0, 0, [];
    }

    /** Oversampler(parent, channel, sample, cycle): the adc's parameters, then XFC<channel>_MISSED. */
    constructor Oversampler(params: ParamTable, channel: int, sample: Mapping, cycle: Mapping, adcParamCount: nat)
      modifies params
      ensures this.params == params && this.channel == channel && this.sample == sample
      ensures kind == Oversampling(cycle, old(params.count) + adcParamCount)
      ensures adcFirst == old(params.count) && adcCount == adcParamCount
      ensures params.count == old(params.count) + adcParamCount + 1 && params.values == old(params.values)
      ensures State() == SamplerState(0, 0, [])
    {
      var first := params.count;
      var k := 0;
      while k < adcParamCount
        invariant 0 <= k <= adcParamCount
        invariant params.count == first + k && params.values == old(params.values)
      {
        var _ := params.CreateParam();
        k := k + 1;
      }
      var missedParam := params.CreateParam();
      this.params := params;
      this.channel := channel;
      this.sample := sample;
      kind := Oversampling(cycle, missedParam);
      adcFirst, adcCount := first, adcParamCount;
      lastCycle, missed, sink := 0, 0, [];
    }

    /** on_pdo_message: `stride` is the device's oversampling rate. */
    method OnPdoMessage(pdo: Pdo, stride: int, cast: CastFn)
      requires Fits(View(), pdo, stride)
      modifies this, params`values
      ensures var step := SamplerStep(old(View()), pdo, stride, cast);
              && State() == step.next
              && params.values == Publish(old(params.values), params.count, kind, step.published)
    {
      match kind
      case Single =>
        sink := sink + [cast(sample, pdo.buffer)];
      case Oversampling(cycle, missedParam) =>
        assert BurstFits(sample.offset, stride, |pdo.buffer|);
        ghost var burst := Int16Samples(pdo.buffer, sample.offset, stride);
        ghost var s0 := State();
        var cyc := cast(cycle, pdo.buffer);
        if lastCycle == cyc {
          // a repeated cycle is ignored
          assert OversampleStep(State(), cyc, burst) == Step(State(), None);
          return;
        }
        if CRem65536(lastCycle + 1) != cyc {
          var _ := params.SetIntegerParam(missedParam, MaskInt32Max(missed));
          missed := Inc32(missed);
        }
        lastCycle := cyc;
        var s := 0;
        while s < stride
          modifies this`sink
          invariant BurstFits(sample.offset, stride, |pdo.buffer|)
          invariant 0 <= s <= (if stride > 0 then stride else 0)
          invariant sink == old(sink) + Int16Samples(pdo.buffer, sample.offset, s)
        {
          sink := sink + [Int16At(pdo.buffer, sample.offset + 2 * s)];
          s := s + 1;
        }
        assert Int16Samples(pdo.buffer, sample.offset, s) == burst;
    }
  }
}
