/**
 * One asyn port per EtherCAT device: at construction it wires the sampler
 * configs registered for the device and creates one parameter per PDO entry
 * mapping plus AL_STATE and ERROR_FLAG; per frame it runs its samplers,
 * publishes every mapping's value and the device's two status bytes; a
 * parameter write goes to the sampler that owns it, or else becomes a
 * write message for the mapping behind it (corrected routing: the code
 * indexes `mappings[reason]`, which is `WriteTargetAsWritten`).
 */
module Device {
  import opened Wrappers
  import opened CInt
  import opened Names
  import opened Params
  import opened Sampling

  /** One ADC_Ethercat_Sampler(port, channel, sample, cycle) registration. */
  datatype SamplerConfig = SamplerConfig(port: string, channel: int, sample: string, cycle: Option<string>)

  /** The device a port serves: its name, its ordered mapping list, its oversampling rate. */
  datatype DeviceInfo = DeviceInfo(name: string, mappings: seq<Mapping>, oversamplingRate: int)

  /** A sampler a config yields: its channel, its sample mapping and, for an Oversampler, its cycle mapping (indices into the mapping list). */
  datatype SamplerPlan = SamplerPlan(channel: int, sample: nat, cycle: Option<nat>)

  /** A WRITE_MESSAGE (tag MSG_WRITE) handed to the write queue. */
  datatype WriteMessage = WriteMessage(offset: int, bitPosition: int, bits: int, value: int32)

  // ---------------------------------------------------------------------------
  // Sampler wiring

  /** No mapping of the list is named `name`. */
  predicate Unnamed(ms: seq<Mapping>, name: string)
  {
    forall j :: 0 <= j < |ms| ==> ParamName(ms[j]) != name
  }

  /** The sampler one config yields for device `d`, if any. */
  function WireOne(conf: SamplerConfig, d: DeviceInfo): Option<SamplerPlan>
  {
    if conf.port != d.name then None
    else match Resolve(d.mappings, conf.sample)
      case None => None
      case Some(s) =>
        match conf.cycle
        case None => Some(SamplerPlan(conf.channel, s, None))
        case Some(c) =>
          match Resolve(d.mappings, c)
          case None => None
          case Some(ci) => Some(SamplerPlan(conf.channel, s, Some(ci)))
  }

  /**
   * A config yields a sampler exactly when it names this device and its
   * sample (and cycle, when given) resolve; the sampler carries the config's
   * channel and the mappings so named.
   */
  lemma WireOneResolves(conf: SamplerConfig, d: DeviceInfo)
    ensures var w := WireOne(conf, d);
            && (w.None? <==> (|| conf.port != d.name
                              || Unnamed(d.mappings, conf.sample)
                              || (conf.cycle.Some? && Unnamed(d.mappings, conf.cycle.value))))
            && (w.Some? ==>
                  && conf.port == d.name
                  && w.value.channel == conf.channel
                  && w.value.sample < |d.mappings|
                  && ParamName(d.mappings[w.value.sample]) == conf.sample
                  && (w.value.cycle.Some? <==> conf.cycle.Some?)
                  && (w.value.cycle.Some? ==>
                        (w.value.cycle.value < |d.mappings|
                         && ParamName(d.mappings[w.value.cycle.value]) == conf.cycle.value)))
  {
    ResolveFirstMatch(d.mappings, conf.sample);
    if conf.cycle.Some? {
      ResolveFirstMatch(d.mappings, conf.cycle.value);
    }
  }

  /** The samplers the configs yield, in config order. */
  function WirePlans(configs: seq<SamplerConfig>, d: DeviceInfo): (r: seq<SamplerPlan>)
    ensures |r| <= |configs|
  {
    if configs == [] then []
    else
      var last := WireOne(configs[|configs| - 1], d);
      WirePlans(configs[..|configs| - 1], d) + (if last.Some? then [last.value] else [])
  }

  /** Wiring respects config order: the samplers of a + b are those of a followed by those of b. */
  lemma {:induction false} WirePlansAppend(a: seq<SamplerConfig>, b: seq<SamplerConfig>, d: DeviceInfo)
    ensures WirePlans(a + b, d) == WirePlans(a, d) + WirePlans(b, d)
  {
    if b == [] {
      assert a + b == a;
    } else {
      var b' := b[..|b| - 1];
      assert (a + b)[..|a + b| - 1] == a + b';
      assert (a + b)[|a + b| - 1] == b[|b| - 1];
      WirePlansAppend(a, b', d);
    }
  }

  /** Configs registered for other ports wire nothing. */
  lemma {:induction false} OtherPortsWireNothing(configs: seq<SamplerConfig>, d: DeviceInfo)
    requires forall i :: 0 <= i < |configs| ==> configs[i].port != d.name
    ensures WirePlans(configs, d) == []
  {
    if configs != [] {
      OtherPortsWireNothing(configs[..|configs| - 1], d);
    }
  }

  /** Every wired sampler names mappings of the device by their parameter names, and only resolved configs yield one. */
  lemma {:induction false} WiredSamplersResolve(configs: seq<SamplerConfig>, d: DeviceInfo)
    ensures forall p :: p in WirePlans(configs, d) ==>
              && p.sample < |d.mappings|
              && (p.cycle.Some? ==> p.cycle.value < |d.mappings|)
    ensures (forall i :: 0 <= i < |configs| ==> WireOne(configs[i], d).Some?) ==> |WirePlans(configs, d)| == |configs|
  {
    if configs != [] {
      var n := |configs| - 1;
      WiredSamplersResolve(configs[..n], d);
      if forall i :: 0 <= i < |configs| ==> WireOne(configs[i], d).Some? {
        assert forall i :: 0 <= i < n ==> configs[..n][i] == configs[i];
      }
    }
  }

  /** The parameters the wired samplers create: each gadc's, plus one missed parameter per Oversampler. */
  function SamplerParamCount(plans: seq<SamplerPlan>, adcParamCount: nat): nat
  {
    if plans == [] then 0
    else SamplerParamCount(plans[..|plans| - 1], adcParamCount)
         + adcParamCount + (if plans[|plans| - 1].cycle.Some? then 1 else 0)
  }

  /** Any Oversampler among the samplers pushes the mapping parameters away from index 0. */
  lemma {:induction false} OversamplerShiftsMappingParams(plans: seq<SamplerPlan>, adcParamCount: nat, i: nat)
    requires i < |plans| && plans[i].cycle.Some?
    ensures SamplerParamCount(plans, adcParamCount) >= 1
  {
    var n := |plans| - 1;
    if i < n {
      OversamplerShiftsMappingParams(plans[..n], adcParamCount, i);
    }
  }

  /** The sampler object carries the plan's channel, mappings and class. */
  ghost predicate Realizes(s: Sampler, p: SamplerPlan, ms: seq<Mapping>)
  {
    && p.sample < |ms|
    && s.channel == p.channel
    && s.sample == ms[p.sample]
    && match p.cycle
       case None => s.kind == Single
       case Some(c) => c < |ms| && s.kind.Oversampling? && s.kind.cycle == ms[c]
  }

  // ---------------------------------------------------------------------------
  // Dispatch

  /** Each mapping's parameter set, in list order, to the mapping's decoded value. */
  function SetMappings(values: map<int, int>, count: nat, ms: seq<Mapping>, ps: seq<int>, buffer: seq<byte>, cast: CastFn)
    : map<int, int>
    requires |ms| == |ps|
  {
    if ms == [] then values
    else
      var n := |ms| - 1;
      SetParam(SetMappings(values, count, ms[..n], ps[..n], buffer, cast), count, ps[n], cast(ms[n], buffer))
  }

  /** With distinct created parameters, each mapping's parameter ends up holding that mapping's value; nothing else changes. */
  lemma {:induction false} SetMappingsValues(values: map<int, int>, count: nat, ms: seq<Mapping>, ps: seq<int>,
                                             buffer: seq<byte>, cast: CastFn)
    requires |ms| == |ps|
    requires forall k :: 0 <= k < |ps| ==> 0 <= ps[k] < count
    requires forall j, k :: 0 <= j < k < |ps| ==> ps[j] != ps[k]
    ensures var r := SetMappings(values, count, ms, ps, buffer, cast);
            && (forall k :: 0 <= k < |ps| ==> ps[k] in r && r[ps[k]] == cast(ms[k], buffer))
            && (forall key :: key !in ps ==> (key in r <==> key in values) && (key in r ==> r[key] == values[key]))
  {
    if ms != [] {
      var n := |ms| - 1;
      var ms', ps' := ms[..n], ps[..n];
      SetMappingsValues(values, count, ms', ps', buffer, cast);
      var prev := SetMappings(values, count, ms', ps', buffer, cast);
      var r := SetParam(prev, count, ps[n], cast(ms[n], buffer));
      assert SetMappings(values, count, ms, ps, buffer, cast) == r;
      forall k | 0 <= k < |ps|
        ensures ps[k] in r && r[ps[k]] == cast(ms[k], buffer)
      {
        if k < n {
          assert ps'[k] == ps[k] && ms'[k] == ms[k];
          assert ps[k] != ps[n];
        }
      }
      forall j | 0 <= j < n
        ensures ps'[j] in ps
      {
        assert ps'[j] == ps[j];
      }
    }
  }

  /** AL_STATE and ERROR_FLAG set from the two bytes at `meta`, read as signed chars. */
  function SetStatusBytes(values: map<int, int>, count: nat, alStateParam: int, errorFlagParam: int,
                          buffer: seq<byte>, meta: nat): map<int, int>
    requires meta + 1 < |buffer|
  {
    SetParam(SetParam(values, count, alStateParam, SignedChar(buffer[meta])), count, errorFlagParam,
             SignedChar(buffer[meta + 1]))
  }

  lemma PublishAllSnoc(values: map<int, int>, count: nat, vs: seq<SamplerView>, i: nat, pdo: Pdo, stride: int,
                       cast: CastFn)
    requires i < |vs| && forall j :: 0 <= j < |vs| ==> Fits(vs[j], pdo, stride)
    ensures PublishAll(values, count, vs[..i + 1], pdo, stride, cast)
            == Publish(PublishAll(values, count, vs[..i], pdo, stride, cast), count, vs[i].kind,
                       SamplerStep(vs[i], pdo, stride, cast).published)
  {
    assert vs[..i + 1][..i] == vs[..i];
  }

  /** The parameter indices first, first + 1, ..., first + n - 1. */
  predicate Consecutive(ps: seq<int>, first: int)
  {
    forall k :: 0 <= k < |ps| ==> ps[k] == first + k
  }

  /**
   * With the constructor's layout (mapping parameters, then AL_STATE, then
   * ERROR_FLAG), a frame that passes the bound check leaves every mapping's
   * parameter holding its decoded value and the two status parameters holding
   * the device's bytes.
   */
  lemma DispatchPublishes(values: map<int, int>, ms: seq<Mapping>, ps: seq<int>, first: nat,
                          buffer: seq<byte>, cast: CastFn, meta: nat)
    requires |ms| == |ps| && Consecutive(ps, first)
    requires meta + 1 < |buffer|
    ensures var count := first + |ps| + 2;
            var r := SetStatusBytes(SetMappings(values, count, ms, ps, buffer, cast), count,
                                    first + |ps|, first + |ps| + 1, buffer, meta);
            && (forall k :: 0 <= k < |ps| ==> ps[k] in r && r[ps[k]] == cast(ms[k], buffer))
            && r[first + |ps|] == SignedChar(buffer[meta])
            && r[first + |ps| + 1] == SignedChar(buffer[meta + 1])
  {
    var count := first + |ps| + 2;
    SetMappingsValues(values, count, ms, ps, buffer, cast);
  }

  // ---------------------------------------------------------------------------
  // Write routing

  /** The first sampler at or after `from` whose gadc owns `reason`; `adcs` holds each gadc's (first, count) parameter range. */
  function AdcOwnerFrom(adcs: seq<(int, nat)>, reason: int, from: nat): (r: Option<nat>)
    requires from <= |adcs|
    ensures r.Some? ==> from <= r.value < |adcs| && adcs[r.value].0 <= reason < adcs[r.value].0 + adcs[r.value].1
    ensures r.Some? ==> forall j :: from <= j < r.value ==> !(adcs[j].0 <= reason < adcs[j].0 + adcs[j].1)
    ensures r.None? ==> forall j :: from <= j < |adcs| ==> !(adcs[j].0 <= reason < adcs[j].0 + adcs[j].1)
    decreases |adcs| - from
  {
    if from == |adcs| then None
    else if adcs[from].0 <= reason < adcs[from].0 + adcs[from].1 then Some(from)
    else AdcOwnerFrom(adcs, reason, from + 1)
  }

  /** The gadc parameter ranges of the samplers, in list order. */
  function AdcRanges(ss: seq<Sampler>): (r: seq<(int, nat)>)
    ensures |r| == |ss| && forall i :: 0 <= i < |ss| ==> r[i] == (ss[i].adcFirst, ss[i].adcCount)
  {
    seq(|ss|, i requires 0 <= i < |ss| => (ss[i].adcFirst, ss[i].adcCount))
  }

  /** The MSG_WRITE message that writes `value` into mapping m's bit field. */
  function MappingWrite(m: Mapping, value: int32): WriteMessage
  {
    WriteMessage(m.offset, m.bitPosition, m.bits, value)
  }

  /** With the samplers laid out one after another, sampler j's first gadc parameter belongs to sampler j and to none before it. */
  lemma LaidOutOwner(list: seq<Sampler>, base: int, g: nat, count: int, j: nat)
    requires LaidOut(list, base, g, count) && 1 <= g && j < |list|
    ensures AdcOwnerFrom(AdcRanges(list), list[j].adcFirst, 0) == Some(j)
  {
    var adcs := AdcRanges(list);
    var r := AdcOwnerFrom(adcs, list[j].adcFirst, 0);
    assert SamplerAt(list[j], StartAt(list, base, j), g);
    assert adcs[j].0 <= list[j].adcFirst < adcs[j].0 + adcs[j].1;
    if r.value < j {
      LaidOutOrdered(list, base, g, count, r.value, j);
    }
  }

  /** A parameter at or above `limit` is owned by no sampler whose parameters all lie below `limit`. */
  lemma NoAdcOwnsParamsAbove(ss: seq<Sampler>, limit: int, reason: int)
    requires ParamsBelow(ss, limit) && limit <= reason
    ensures AdcOwnerFrom(AdcRanges(ss), reason, 0) == None
  {
  }

  /** The mapping a write of parameter `reason` addresses, as writeInt32 is written: `mappings[reason]` for 0 <= reason < pdos. */
  function WriteTargetAsWritten(reason: int, pdos: int): Option<nat>
  {
    if 0 <= reason < pdos then Some(reason) else None
  }

  /** The mapping whose parameter is `reason`, when the n mapping parameters are first .. first + n - 1. */
  function WriteTarget(reason: int, first: int, n: nat): (r: Option<nat>)
    ensures r.Some? ==> r.value < n && first + r.value == reason
    ensures r.None? <==> !(first <= reason < first + n)
  {
    if first <= reason < first + n then Some(reason - first) else None
  }

  /** Writing a mapping's own parameter addresses that mapping, whatever parameters were created before it. */
  lemma WriteTargetFindsOwnMapping(ps: seq<int>, first: int)
    requires Consecutive(ps, first)
    ensures forall k :: 0 <= k < |ps| ==> WriteTarget(ps[k], first, |ps|) == Some(k)
    ensures forall reason :: WriteTarget(reason, first, |ps|).Some? ==> reason in ps
  {
    forall k | 0 <= k < |ps|
      ensures WriteTarget(ps[k], first, |ps|) == Some(k)
    {
      assert ps[k] == first + k;
    }
    forall reason | WriteTarget(reason, first, |ps|).Some?
      ensures reason in ps
    {
      assert ps[reason - first] == reason;
    }
  }

  /** When no parameter precedes the mapping parameters and pdos counts the mappings, the written lookup is the right one. */
  lemma AsWrittenAgreesWithoutSamplerParams(n: nat, reason: int)
    ensures WriteTargetAsWritten(reason, n) == WriteTarget(reason, 0, n)
  {
  }

  /**
   * Once `first` > 0 parameters precede the mapping parameters (an
   * Oversampler's missed parameter is one), writing mapping 0's parameter
   * addresses mapping `first` instead, and writing the last mapping's
   * parameter sends nothing.
   */
  lemma AsWrittenMisroutes(first: nat, n: nat)
    requires 1 <= first < n
    ensures WriteTargetAsWritten(first + 0, n) == Some(first)
    ensures WriteTarget(first + 0, first, n) == Some(0)
    ensures WriteTargetAsWritten(first + n - 1, n) == None
    ensures WriteTarget(first + n - 1, first, n) == Some(n - 1)
  {
  }

  /** Two PDOs of one 16-bit entry each, PdoA.a and PdoB.b. */
  const ExampleA := Mapping("PdoA", "a", 0, 0, 16)
  const ExampleB := Mapping("PdoB", "b", 2, 0, 16)
  const ExampleDevice := DeviceInfo("DEV0", [ExampleA, ExampleB], 4)
  /** An Oversampler on DEV0 sampling PdoA.a with cycle counter PdoB.b. */
  const ExampleConfig := SamplerConfig("DEV0", 1, "PdoA.a", Some("PdoB.b"))

  lemma ExampleNameA()
    ensures ParamName(ExampleA) == "PdoA.a"
  {
    assert "PdoA" + "." + "a" == "PdoA.a";
    RemoveSpacesFixed("PdoA.a");
  }

  lemma ExampleNameB()
    ensures ParamName(ExampleB) == "PdoB.b"
  {
    assert "PdoB" + "." + "b" == "PdoB.b";
    RemoveSpacesFixed("PdoB.b");
  }

  lemma ExampleNamesResolve()
    ensures Resolve(ExampleDevice.mappings, "PdoA.a") == Some(0)
    ensures Resolve(ExampleDevice.mappings, "PdoB.b") == Some(1)
  {
    ExampleNameA();
    ExampleNameB();
    assert "PdoA.a"[3] != "PdoB.b"[3];
    assert ResolveFrom(ExampleDevice.mappings, "PdoB.b", 1) == Some(1);
  }

  /**
   * The example device, of a type with exactly the two PDOs PdoA and PdoB
   * (so pdos is 2), wires one Oversampler. With g gadc parameters, its gadc
   * takes 0 .. g - 1, its missed parameter is g, and PdoA.a and PdoB.b are
   * g + 1 and g + 2. As written, a write to PdoB.b never reaches a mapping; a
   * write to PdoA.a reaches PdoB.b when g is 0 and nothing otherwise; and when
   * g is at most 1 a write to the missed parameter is sent as a write to
   * mapping g.
   */
  lemma OversamplerDeviceMisroutes(g: nat)
    ensures var plans := WirePlans([ExampleConfig], ExampleDevice);
            var n := |ExampleDevice.mappings|;
            && plans == [SamplerPlan(1, 0, Some(1))]
            && SamplerParamCount(plans, g) == g + 1
            && WriteTarget(g + 1, g + 1, n) == Some(0) && WriteTarget(g + 2, g + 1, n) == Some(1)
            && WriteTargetAsWritten(g + 1, n) == (if g == 0 then Some(1) else None)
            && WriteTargetAsWritten(g + 2, n) == None
            && WriteTarget(g, g + 1, n) == None
            && (g <= 1 ==> WriteTargetAsWritten(g, n) == Some(g))
  {
    ExampleNamesResolve();
    assert WireOne(ExampleConfig, ExampleDevice) == Some(SamplerPlan(1, 0, Some(1)));
    assert [ExampleConfig][..0] == [];
    var plans := WirePlans([ExampleConfig], ExampleDevice);
    assert plans[..0] == [];
  }

  // ---------------------------------------------------------------------------
  // The port

  /**
   * One config's share of the constructor: create the sampler it asks for
   * (an Oversampler when it names a cycle mapping), or nothing when the
   * port or a mapping name does not match.
   */
  method WireSampler(table: ParamTable, conf: SamplerConfig, device: DeviceInfo, adcParamCount: nat)
    returns (s: Sampler?)
    requires ValidNames(device.mappings)
    modifies table
    ensures (s == null) <==> WireOne(conf, device).None?
    ensures s != null ==> && fresh(s) && s.params == table
                          && Realizes(s, WireOne(conf, device).value, device.mappings)
                          && s.State() == SamplerState(0, 0, [])
    ensures s != null ==> SamplerAt(s, old(table.count), adcParamCount)
    ensures table.values == old(table.values)
    ensures table.count == old(table.count)
              + if s == null then 0 else adcParamCount + (if s.kind.Oversampling? then 1 else 0)
  {
    s := null;
    if conf.port == device.name {
      var sampleMapping := MappingByName(device.mappings, conf.sample);
      if sampleMapping.Some? {
        if conf.cycle.None? {
          s := new Sampler.Plain(table, conf.channel, device.mappings[sampleMapping.value], adcParamCount);
        } else {
          var cycleMapping := MappingByName(device.mappings, conf.cycle.value);
          if cycleMapping.Some? {
            s := new Sampler.Oversampler(table, conf.channel, device.mappings[sampleMapping.value],
                                         device.mappings[cycleMapping.value], adcParamCount);
          }
        }
      }
    }
  }

  /** The constructor's sampler loop: wire every config in order, keeping the samplers created. */
  method WireSamplers(table: ParamTable, configs: seq<SamplerConfig>, device: DeviceInfo, adcParamCount: nat)
    returns (list: seq<Sampler>)
    requires ValidNames(device.mappings)
    modifies table
    ensures WiredAs(list, WirePlans(configs, device), table, device.mappings)
    ensures AllInitial(list)
    ensures table.count == old(table.count) + SamplerParamCount(WirePlans(configs, device), adcParamCount)
    ensures ParamsBelow(list, table.count)
    ensures LaidOut(list, old(table.count), adcParamCount, table.count)
    ensures table.values == old(table.values)
  {
    list := [];
    ghost var plans: seq<SamplerPlan> := [];
    var i := 0;
    while i < |configs|
      invariant 0 <= i <= |configs|
      invariant plans == WirePlans(configs[..i], device)
      invariant Wired(list, plans, table, device.mappings, old(table.count), adcParamCount, table.count)
      invariant AllInitial(list)
      invariant table.values == old(table.values)
    {
      list := WireNext(table, configs, i, device, adcParamCount, list, plans, old(table.count));
      plans := WirePlans(configs[..i + 1], device);
      i := i + 1;
    }
    assert configs[..i] == configs;
  }

  /** One iteration of the sampler loop: wire `configs[i]` and append its sampler, if any, to `list`. */
  method WireNext(table: ParamTable, configs: seq<SamplerConfig>, i: nat, device: DeviceInfo, adcParamCount: nat,
                  list: seq<Sampler>, ghost plans: seq<SamplerPlan>, ghost base: nat) returns (list': seq<Sampler>)
    requires ValidNames(device.mappings) && i < |configs|
    requires plans == WirePlans(configs[..i], device)
    requires Wired(list, plans, table, device.mappings, base, adcParamCount, table.count) && AllInitial(list)
    modifies table
    ensures Wired(list', WirePlans(configs[..i + 1], device), table, device.mappings, base, adcParamCount, table.count)
    ensures AllInitial(list')
    ensures table.values == old(table.values)
  {
    ghost var count0 := table.count;
    var s := WireSampler(table, configs[i], device, adcParamCount);
    assert AllInitial(list);
    AllInitialGrow(list, s);
    WiredStep(configs, i, device, table, list, plans, s, base, adcParamCount, count0, table.count);
    list' := if s == null then list else list + [s];
  }

  /** The loop's invariant over the samplers wired so far, with `count` the table's count. */
  ghost predicate Wired(list: seq<Sampler>, plans: seq<SamplerPlan>, table: ParamTable, ms: seq<Mapping>,
                        base: nat, g: nat, count: int)
  {
    && WiredAs(list, plans, table, ms)
    && LaidOut(list, base, g, count)
    && ParamsBelow(list, count)
    && count == base + SamplerParamCount(plans, g)
  }

  /** Wiring `configs[i]` into sampler `s` (or nothing) keeps Wired. */
  lemma WiredStep(configs: seq<SamplerConfig>, i: nat, device: DeviceInfo, table: ParamTable, list: seq<Sampler>,
                  plans: seq<SamplerPlan>, s: Sampler?, base: nat, g: nat, count0: int, count1: int)
    requires i < |configs| && plans == WirePlans(configs[..i], device)
    requires Wired(list, plans, table, device.mappings, base, g, count0)
    requires (s == null) <==> WireOne(configs[i], device).None?
    requires s != null ==> && s !in list && s.params == table && SamplerAt(s, count0, g)
                           && Realizes(s, WireOne(configs[i], device).value, device.mappings)
    requires count1 == count0 + if s == null then 0 else g + (if s.kind.Oversampling? then 1 else 0)
    ensures Wired(if s == null then list else list + [s], WirePlans(configs[..i + 1], device), table,
                  device.mappings, base, g, count1)
  {
    WiredNext(configs, i, device, table, list, plans, s, g);
    ParamsBelowGrow(list, s, count0, count1);
    if s != null {
      assert count1 == ParamEnd(s);
    }
    LaidOutGrow(list, s, base, g, count0, count1);
  }

  /** The samplers `list` are distinct, share `table`, are in their initial state and carry `plans`, one for one. */
  ghost predicate WiredAs(list: seq<Sampler>, plans: seq<SamplerPlan>, table: ParamTable, ms: seq<Mapping>)
  {
    && |list| == |plans|
    && (forall j :: 0 <= j < |list| ==> list[j].params == table && Realizes(list[j], plans[j], ms))
    && (forall j, k :: 0 <= j < k < |list| ==> list[j] != list[k])
  }

  /** The sampler's gadc parameters and, for an Oversampler, its missed parameter all lie in 0 .. limit - 1. */
  predicate OwnParamsBelow(s: Sampler, limit: int)
  {
    && 0 <= s.adcFirst && s.adcFirst + s.adcCount <= limit
    && (s.kind.Oversampling? ==> 0 <= s.kind.missedParam < limit)
  }

  /** Every sampler of `list` created its parameters below `limit`. */
  predicate ParamsBelow(list: seq<Sampler>, limit: int)
  {
    forall j :: 0 <= j < |list| ==> OwnParamsBelow(list[j], limit)
  }

  lemma ParamsBelowGrow(list: seq<Sampler>, s: Sampler?, limit: int, limit': int)
    requires ParamsBelow(list, limit) && limit <= limit'
    requires s != null ==> OwnParamsBelow(s, limit')
    ensures ParamsBelow(if s == null then list else list + [s], limit')
  {
    if s != null {
      assert forall j :: 0 <= j < |list| ==> (list + [s])[j] == list[j];
    }
  }

  /** The sampler's gadc owns the g parameters from `first` on, and an Oversampler's missed parameter is the one after them. */
  predicate SamplerAt(s: Sampler, first: int, g: nat)
  {
    && s.adcFirst == first && s.adcCount == g
    && (s.kind.Oversampling? ==> s.kind.missedParam == first + g)
  }

  /** The first parameter after sampler s's own: its gadc's, then an Oversampler's missed parameter. */
  function ParamEnd(s: Sampler): int
  {
    s.adcFirst + s.adcCount + (if s.kind.Oversampling? then 1 else 0)
  }

  /**
   * The samplers of `list` created their parameters one after another, in list
   * order, from `base` up to `count`: each starts where the one before it ends.
   */
  predicate LaidOut(list: seq<Sampler>, base: int, g: nat, count: int)
  {
    && (forall j {:trigger StartAt(list, base, j)} :: 0 <= j < |list| ==> SamplerAt(list[j], StartAt(list, base, j), g))
    && count == StartAt(list, base, |list|)
  }

  /** Where sampler j's parameters start when the samplers before it are laid out from `base`. */
  function StartAt(list: seq<Sampler>, base: int, j: nat): int
    requires j <= |list|
  {
    if j == 0 then base else ParamEnd(list[j - 1])
  }

  lemma LaidOutGrow(list: seq<Sampler>, s: Sampler?, base: int, g: nat, count0: int, count1: int)
    requires LaidOut(list, base, g, count0)
    requires s != null ==> SamplerAt(s, count0, g) && count1 == ParamEnd(s)
    requires s == null ==> count1 == count0
    ensures LaidOut(if s == null then list else list + [s], base, g, count1)
  {
    if s != null {
      var list' := list + [s];
      forall j | 0 <= j < |list'|
        ensures SamplerAt(list'[j], StartAt(list', base, j), g)
      {
        assert StartAt(list', base, j) == StartAt(list, base, j);
        if j < |list| {
          assert list'[j] == list[j];
        }
      }
      assert StartAt(list', base, |list'|) == ParamEnd(s);
    }
  }

  /** Laid out one after another, an earlier sampler's parameters all come before a later sampler's. */
  lemma {:induction false} LaidOutOrdered(list: seq<Sampler>, base: int, g: nat, count: int, i: nat, j: nat)
    requires LaidOut(list, base, g, count) && i < j < |list|
    ensures ParamEnd(list[i]) <= list[j].adcFirst
  {
    assert SamplerAt(list[j], StartAt(list, base, j), g);
    if i < j - 1 {
      assert SamplerAt(list[j - 1], StartAt(list, base, j - 1), g);
      LaidOutOrdered(list, base, g, count, i, j - 1);
    }
  }

  /**
   * The layout in the terms of the wired plans: sampler j's parameters start
   * after those of the samplers planned before it, and the samplers take
   * SamplerParamCount parameters in all.
   */
  lemma {:induction false} LaidOutCounts(list: seq<Sampler>, plans: seq<SamplerPlan>, base: int, g: nat, count: int)
    requires LaidOut(list, base, g, count) && |list| == |plans|
    requires forall j :: 0 <= j < |list| ==> (list[j].kind.Oversampling? <==> plans[j].cycle.Some?)
    ensures count == base + SamplerParamCount(plans, g)
    ensures forall j :: 0 <= j < |list| ==> list[j].adcFirst == base + SamplerParamCount(plans[..j], g)
  {
    if list != [] {
      var n := |list| - 1;
      var list', plans' := list[..n], plans[..n];
      forall j | 0 <= j <= n
        ensures StartAt(list', base, j) == StartAt(list, base, j)
      {
        if 0 < j {
          assert list'[j - 1] == list[j - 1];
        }
      }
      assert forall j :: 0 <= j < n ==> list'[j] == list[j];
      assert SamplerAt(list[n], StartAt(list, base, n), g);
      LaidOutCounts(list', plans', base, g, list[n].adcFirst);
      forall j | 0 <= j < |list|
        ensures list[j].adcFirst == base + SamplerParamCount(plans[..j], g)
      {
        if j < n {
          assert list'[j] == list[j] && plans'[..j] == plans[..j];
        }
      }
    }
  }

  /** Every sampler of `list` is still in the state its constructor gave it. */
  ghost predicate AllInitial(list: seq<Sampler>)
    reads list
  {
    forall j :: 0 <= j < |list| ==> list[j].State() == SamplerState(0, 0, [])
  }

  lemma AllInitialGrow(list: seq<Sampler>, s: Sampler?)
    requires AllInitial(list) && (s != null ==> s.State() == SamplerState(0, 0, []))
    ensures AllInitial(if s == null then list else list + [s])
  {
    if s != null {
      assert forall j :: 0 <= j < |list| ==> (list + [s])[j] == list[j];
    }
  }

  /** One step of the sampler loop keeps the wired list in step with WirePlans. */
  lemma WiredNext(configs: seq<SamplerConfig>, i: nat, device: DeviceInfo, table: ParamTable, list: seq<Sampler>,
                  plans: seq<SamplerPlan>, s: Sampler?, adcParamCount: nat)
    requires i < |configs|
    requires plans == WirePlans(configs[..i], device) && WiredAs(list, plans, table, device.mappings)
    requires (s == null) <==> WireOne(configs[i], device).None?
    requires s != null ==> && s !in list && s.params == table
                           && Realizes(s, WireOne(configs[i], device).value, device.mappings)
    ensures var next := WirePlans(configs[..i + 1], device);
            && WiredAs(if s == null then list else list + [s], next, table, device.mappings)
            && SamplerParamCount(next, adcParamCount)
               == SamplerParamCount(plans, adcParamCount)
                  + if s == null then 0 else adcParamCount + (if s.kind.Oversampling? then 1 else 0)
  {
    WirePlansSnoc(configs, i, device);
    if s != null {
      var plan := WireOne(configs[i], device).value;
      assert WirePlans(configs[..i + 1], device) == plans + [plan];
      WiredAsSnoc(list, plans, table, device.mappings, s, plan);
      SamplerParamCountSnoc(plans, plan, adcParamCount);
      assert s.kind.Oversampling? <==> plan.cycle.Some?;
    } else {
      assert plans + [] == plans;
    }
  }

  lemma WiredAsSnoc(list: seq<Sampler>, plans: seq<SamplerPlan>, table: ParamTable, ms: seq<Mapping>,
                    s: Sampler, p: SamplerPlan)
    requires WiredAs(list, plans, table, ms) && s !in list
    requires s.params == table && Realizes(s, p, ms)
    ensures WiredAs(list + [s], plans + [p], table, ms)
  {
    var list', plans' := list + [s], plans + [p];
    forall j | 0 <= j < |list'|
      ensures list'[j].params == table && Realizes(list'[j], plans'[j], ms)
    {
      if j < |list| {
        assert list'[j] == list[j] && plans'[j] == plans[j];
      }
    }
    forall j, k | 0 <= j < k < |list'|
      ensures list'[j] != list'[k]
    {
      if k < |list| {
        assert list'[j] == list[j] && list'[k] == list[k];
      } else {
        assert list'[j] == list[j] && list'[k] == s;
      }
    }
  }

  lemma WirePlansSnoc(configs: seq<SamplerConfig>, i: nat, d: DeviceInfo)
    requires i < |configs|
    ensures var plan := WireOne(configs[i], d);
            WirePlans(configs[..i + 1], d) == WirePlans(configs[..i], d) + (if plan.Some? then [plan.value] else [])
  {
    assert configs[..i + 1][..i] == configs[..i];
  }

  lemma SamplerParamCountSnoc(plans: seq<SamplerPlan>, p: SamplerPlan, adcParamCount: nat)
    ensures SamplerParamCount(plans + [p], adcParamCount)
            == SamplerParamCount(plans, adcParamCount) + adcParamCount + (if p.cycle.Some? then 1 else 0)
  {
    assert (plans + [p])[..|plans|] == plans;
  }

  /** createParam called n times: the new parameters are consecutive from the table's old count. */
  method CreateParams(table: ParamTable, n: nat) returns (ps: seq<int>)
    modifies table`count
    ensures table.count == old(table.count) + n
    ensures |ps| == n && Consecutive(ps, old(table.count))
  {
    ps := [];
    while |ps| < n
      invariant |ps| <= n
      invariant table.count == old(table.count) + |ps| && Consecutive(ps, old(table.count))
    {
      var index := table.CreateParam();
      ps := ps + [index];
    }
  }

  /** The constructor's createParam calls after the samplers: one parameter per mapping, then AL_STATE, then ERROR_FLAG. */
  method CreatePortParams(table: ParamTable, n: nat) returns (ps: seq<int>, al: int, err: int)
    modifies table`count
    ensures |ps| == n && Consecutive(ps, old(table.count))
    ensures al == old(table.count) + n && err == al + 1 && table.count == err + 1
  {
    ps := CreateParams(table, n);
    al := table.CreateParam();
    err := table.CreateParam();
  }

  class EcAsyn {
    const params: ParamTable
    const device: DeviceInfo
    const pdos: int
    const devid: nat
    const samplers: seq<Sampler>
    const mappingParams: seq<int>      // pdo_entry->parameter of each mapping, in list order
    const firstMappingParam: nat
    const alStateParam: int
    const errorFlagParam: int
    var writes: seq<WriteMessage>      // the messages sent to the write queue, oldest first

    ghost predicate Valid()
    {
      && |mappingParams| == |device.mappings| == pdos
      && Consecutive(mappingParams, firstMappingParam)
      && (forall i :: 0 <= i < |samplers| ==> samplers[i].params == params)
      && (forall i, j :: 0 <= i < j < |samplers| ==> samplers[i] != samplers[j])
      && ParamsBelow(samplers, firstMappingParam)
      && alStateParam == firstMappingParam + pdos && errorFlagParam == alStateParam + 1
    }

    /**
     * ecAsyn(device, pdos, writeq, devid): wire the samplers registered for
     * this device, then create a parameter per mapping, then AL_STATE and
     * ERROR_FLAG. Each gadc creates `adcParamCount` parameters.
     */
    constructor (device: DeviceInfo, pdos: int, devid: nat, configs: seq<SamplerConfig>, adcParamCount: nat)
      requires ValidNames(device.mappings)
      requires |device.mappings| == pdos
      ensures Valid() && fresh(params)
      ensures this.device == device && this.pdos == pdos && this.devid == devid
      ensures WiredAs(samplers, WirePlans(configs, device), params, device.mappings) && AllInitial(samplers)
      ensures LaidOut(samplers, 0, adcParamCount, firstMappingParam)
      ensures firstMappingParam == SamplerParamCount(WirePlans(configs, device), adcParamCount)
      ensures alStateParam == firstMappingParam + pdos && errorFlagParam == alStateParam + 1
      ensures params.count == errorFlagParam + 1 && params.values == map[]
      ensures writes == []
    {
      var table := new ParamTable();
      var list := WireSamplers(table, configs, device, adcParamCount);
      var first := table.count;
      var ps, al, err := CreatePortParams(table, |device.mappings|);
      params := table;
      this.device := device;
      this.pdos := pdos;
      this.devid := devid;
      samplers := list;
      mappingParams := ps;
      firstMappingParam := first;
      alStateParam, errorFlagParam := al, err;
      writes := [];
    }

    /**
     * on_pdo_message: run every sampler in list order, then publish every
     * mapping's value, then check the status bytes lie inside the message
     * (`aborted` when that assert would stop the process) and publish them.
     */
    method OnPdoMessage(pdo: Pdo, size: int, cast: CastFn) returns (aborted: bool)
      requires Valid()
      requires forall i :: 0 <= i < |samplers| && samplers[i].kind.Oversampling? ==>
                 BurstFits(samplers[i].sample.offset, device.oversamplingRate, |pdo.buffer|)
      requires size <= |pdo.buffer|
      modifies params`values, samplers
      ensures forall i :: 0 <= i < |samplers| ==>
                samplers[i].State() == SamplerStep(old(samplers[i].View()), pdo, device.oversamplingRate, cast).next
      ensures aborted <==> pdo.size + 2 * devid + 1 >= size
      ensures var afterSamplers := PublishAll(old(params.values), params.count, old(Views(samplers)), pdo,
                                              device.oversamplingRate, cast);
              var afterMappings := SetMappings(afterSamplers, params.count, device.mappings, mappingParams,
                                               pdo.buffer, cast);
              params.values == if aborted then afterMappings
                                else SetStatusBytes(afterMappings, params.count, alStateParam, errorFlagParam,
                                                    pdo.buffer, pdo.size + 2 * devid)
    {
      ghost var views := Views(samplers);
      RunSamplers(pdo, cast);
      ghost var afterSamplers := params.values;
      PublishMappings(pdo.buffer, cast);
      var meta := pdo.size + 2 * devid;
      aborted := !(meta + 1 < size);   // when the bound check fails the process stops here
      if !aborted {
        PublishStatus(pdo.buffer, meta);
      }
    }

    /** The end of on_pdo_message: AL_STATE and ERROR_FLAG take the two status bytes at `meta`. */
    method PublishStatus(buffer: seq<byte>, meta: nat)
      requires meta + 1 < |buffer|
      modifies params`values
      ensures params.values == SetStatusBytes(old(params.values), params.count, alStateParam, errorFlagParam,
                                              buffer, meta)
    {
      var status := params.SetIntegerParam(alStateParam, SignedChar(buffer[meta]));
      status := params.SetIntegerParam(errorFlagParam, SignedChar(buffer[meta + 1]));
    }

    /** The first half of on_pdo_message: every sampler, in list order, handles the frame. */
    method RunSamplers(pdo: Pdo, cast: CastFn)
      requires Valid()
      requires forall i :: 0 <= i < |samplers| && samplers[i].kind.Oversampling? ==>
                 BurstFits(samplers[i].sample.offset, device.oversamplingRate, |pdo.buffer|)
      modifies params`values, samplers
      ensures forall i :: 0 <= i < |samplers| ==>
                samplers[i].State() == SamplerStep(old(samplers[i].View()), pdo, device.oversamplingRate, cast).next
      ensures params.values == PublishAll(old(params.values), params.count, old(Views(samplers)), pdo,
                                          device.oversamplingRate, cast)
    {
      var stride := device.oversamplingRate;
      ghost var views := Views(samplers);
      ghost var values0 := params.values;
      var i := 0;
      while i < |samplers|
        invariant 0 <= i <= |samplers|
        invariant forall j :: 0 <= j < i ==> samplers[j].State() == SamplerStep(views[j], pdo, stride, cast).next
        invariant forall j :: i <= j < |samplers| ==> samplers[j].View() == views[j]
        invariant params.values == PublishAll(values0, params.count, views[..i], pdo, stride, cast)
      {
        assert forall j :: 0 <= j < |samplers| && j != i ==> samplers[j] != samplers[i];
        PublishAllSnoc(values0, params.count, views, i, pdo, stride, cast);
        samplers[i].OnPdoMessage(pdo, stride, cast);
        i := i + 1;
      }
      assert views[..i] == views;
    }

    /** The second half of on_pdo_message: every mapping's parameter gets the mapping's value, in list order. */
    method PublishMappings(buffer: seq<byte>, cast: CastFn)
      requires Valid()
      modifies params`values
      ensures params.values == SetMappings(old(params.values), params.count, device.mappings, mappingParams,
                                           buffer, cast)
    {
      var k := 0;
      while k < |device.mappings|
        invariant 0 <= k <= |device.mappings|
        invariant params.values
                  == SetMappings(old(params.values), params.count, device.mappings[..k], mappingParams[..k], buffer, cast)
      {
        var value := cast(device.mappings[k], buffer);
        var status := params.SetIntegerParam(mappingParams[k], value);
        assert device.mappings[..k + 1][..k] == device.mappings[..k];
        assert mappingParams[..k + 1][..k] == mappingParams[..k];
        k := k + 1;
      }
      assert device.mappings[..k] == device.mappings;
      assert mappingParams[..k] == mappingParams;
    }

    /**
     * writeInt32: the base class stores the value; a sampler whose gadc owns
     * the parameter handles the write; otherwise a write message for the
     * mapping behind the parameter is queued. `gadcWrite(i, reason, value)` is
     * what gadc_writeInt32 on the adc of sampler i returns.
     */
    method WriteInt32(reason: int, value: int32, gadcWrite: (nat, int, int) -> Status) returns (status: Status)
      requires Valid()
      modifies params`values, this`writes
      ensures params.values == SetParam(old(params.values), params.count, reason, value)
      ensures match AdcOwnerFrom(AdcRanges(samplers), reason, 0)
              case Some(i) => status == gadcWrite(i, reason, value) && writes == old(writes)
              case None =>
                && status == SetStatus(params.count, reason)
                && writes == old(writes) + match WriteTarget(reason, firstMappingParam, |device.mappings|)
                                           case None => []
                                           case Some(k) => [MappingWrite(device.mappings[k], value)]
      ensures forall k :: 0 <= k < |mappingParams| && reason == mappingParams[k] ==>
                writes == old(writes) + [MappingWrite(device.mappings[k], value)]
    {
      status := params.SetIntegerParam(reason, value);
      if firstMappingParam <= reason {
        NoAdcOwnsParamsAbove(samplers, firstMappingParam, reason);
      }
      ghost var adcs := AdcRanges(samplers);
      var i := 0;
      while i < |samplers|
        invariant 0 <= i <= |samplers|
        invariant AdcOwnerFrom(adcs, reason, i) == AdcOwnerFrom(adcs, reason, 0)
      {
        if samplers[i].OwnsParam(reason) {
          return gadcWrite(i, reason, value);
        }
        i := i + 1;
      }
      if firstMappingParam <= reason < firstMappingParam + |device.mappings| {
        var mapping := device.mappings[reason - firstMappingParam];
        writes := writes + [MappingWrite(mapping, value)];
      }
    }
  }

  /**
   * On a port fresh from its constructor, whatever samplers it wired, a write
   * of mapping k's parameter stores the value and queues exactly mapping k's
   * write message.
   */
  method WriteOnNewPort(device: DeviceInfo, pdos: int, devid: nat, configs: seq<SamplerConfig>, adcParamCount: nat,
                        k: nat, value: int32, gadcWrite: (nat, int, int) -> Status)
    returns (port: EcAsyn, status: Status)
    requires ValidNames(device.mappings) && |device.mappings| == pdos && k < pdos
    ensures port.firstMappingParam == SamplerParamCount(WirePlans(configs, device), adcParamCount)
    ensures status == Success
    ensures port.params.values == map[port.firstMappingParam + k := value as int]
    ensures port.writes == [MappingWrite(device.mappings[k], value)]
  {
    port := new EcAsyn(device, pdos, devid, configs, adcParamCount);
    status := port.WriteInt32(port.firstMappingParam + k, value, gadcWrite);
  }

  /** Laid out from 0 as `plans` say, sampler j's first gadc parameter is its own, below `first`, and placed by SamplerParamCount. */
  lemma LaidOutFirstParam(list: seq<Sampler>, plans: seq<SamplerPlan>, g: nat, first: int, j: nat)
    requires LaidOut(list, 0, g, first) && |list| == |plans| && 1 <= g && j < |list|
    requires forall i :: 0 <= i < |list| ==> (list[i].kind.Oversampling? <==> plans[i].cycle.Some?)
    ensures list[j].adcFirst == SamplerParamCount(plans[..j], g)
    ensures AdcOwnerFrom(AdcRanges(list), list[j].adcFirst, 0) == Some(j)
    ensures 0 <= list[j].adcFirst < first
  {
    LaidOutCounts(list, plans, 0, g, first);
    LaidOutOwner(list, 0, g, first, j);
    var n := |list| - 1;
    assert first == StartAt(list, 0, |list|) == ParamEnd(list[n]);
    assert SamplerAt(list[j], StartAt(list, 0, j), g);
    if j < n {
      LaidOutOrdered(list, 0, g, first, j, n);
      assert SamplerAt(list[n], StartAt(list, 0, n), g);
    }
  }

  /**
   * On a port fresh from its constructor, a write of sampler j's first gadc
   * parameter is offered to that sampler's adc, whose answer is returned, and
   * no write message is queued.
   */
  method WriteAdcParamOnNewPort(device: DeviceInfo, pdos: int, devid: nat, configs: seq<SamplerConfig>,
                                adcParamCount: nat, j: nat, value: int32, gadcWrite: (nat, int, int) -> Status)
    returns (port: EcAsyn, status: Status)
    requires ValidNames(device.mappings) && |device.mappings| == pdos
    requires 1 <= adcParamCount && j < |WirePlans(configs, device)|
    ensures j < |port.samplers|
    ensures port.samplers[j].adcFirst == SamplerParamCount(WirePlans(configs, device)[..j], adcParamCount)
    ensures status == gadcWrite(j, port.samplers[j].adcFirst, value)
    ensures port.params.values == map[port.samplers[j].adcFirst := value as int]
    ensures port.writes == []
  {
    port := new EcAsyn(device, pdos, devid, configs, adcParamCount);
    ghost var plans := WirePlans(configs, device);
    assert forall i :: 0 <= i < |plans| ==> Realizes(port.samplers[i], plans[i], device.mappings);
    LaidOutFirstParam(port.samplers, plans, adcParamCount, port.firstMappingParam, j);
    var reason := port.samplers[j].adcFirst;
    status := port.WriteInt32(reason, value, gadcWrite);
    assert port.params.values == map[][reason := value as int];
  }
}
