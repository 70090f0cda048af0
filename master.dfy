/**
 * The master's health tracker: it republishes each frame's cycle, working
 * counter and working-counter state, and counts frames whose cycle is not
 * exactly one more than the previous frame's (no modulo).
 */
module Master {
  import opened CInt
  import opened Params
  import opened Sampling

  /** The master's counters after one frame with cycle `cycle`. */
  datatype Counters = Counters(lastCycle: int, missed: int32)

  /** ecMaster::on_pdo_message on the two counters. */
  function MasterStep(c: Counters, cycle: uint16): Counters
  {
    Counters(cycle, if cycle != c.lastCycle + 1 then Inc32(c.missed) else c.missed)
  }

  /** The counters after frames with cycles `cs`, in order. */
  function MasterRun(c: Counters, cs: seq<uint16>): Counters
  {
    if cs == [] then c else MasterStep(MasterRun(c, cs[..|cs| - 1]), cs[|cs| - 1])
  }

  /** The cycle of the frame before frame `i` (the starting lastCycle for the first). */
  function Previous(last: int, cs: seq<uint16>, i: int): int
    requires 0 <= i < |cs|
  {
    if i == 0 then last else cs[i - 1]
  }

  /** Frame `i` does not carry exactly the previous cycle plus one. */
  predicate Breaks(last: int, cs: seq<uint16>, i: int)
    requires 0 <= i < |cs|
  {
    cs[i] != Previous(last, cs, i) + 1
  }

  /** The frames counted as missed. */
  ghost function MissedFrames(last: int, cs: seq<uint16>): set<int>
  {
    set i | 0 <= i < |cs| && Breaks(last, cs, i)
  }

  lemma BreaksSnoc(last: int, cs: seq<uint16>)
    requires cs != []
    ensures var n := |cs| - 1;
            |MissedFrames(last, cs)| == |MissedFrames(last, cs[..n])| + (if Breaks(last, cs, n) then 1 else 0)
  {
    var n := |cs| - 1;
    var g := MissedFrames(last, cs[..n]);
    forall i | 0 <= i < n
      ensures Breaks(last, cs, i) == Breaks(last, cs[..n], i)
    {
      assert cs[..n][i] == cs[i];
      assert Previous(last, cs, i) == Previous(last, cs[..n], i);
    }
    assert MissedFrames(last, cs) == if Breaks(last, cs, n) then g + {n} else g;
  }

  /**
   * Over any run of frames lastCycle ends at the last frame's cycle and
   * missed has advanced once per frame whose cycle is not the previous plus one.
   */
  lemma {:induction false} MasterRunCounts(c: Counters, cs: seq<uint16>)
    ensures MasterRun(c, cs).lastCycle == if cs == [] then c.lastCycle else cs[|cs| - 1]
    ensures MasterRun(c, cs).missed == IncN(c.missed, |MissedFrames(c.lastCycle, cs)|)
  {
    if cs == [] {
      assert MissedFrames(c.lastCycle, cs) == {};
    } else {
      var n := |cs| - 1;
      MasterRunCounts(c, cs[..n]);
      assert MasterRun(c, cs[..n]).lastCycle == Previous(c.lastCycle, cs, n);
      BreaksSnoc(c.lastCycle, cs);
    }
  }

  /** From construction, the published Missed value is the number of breaks modulo 2^31. */
  lemma PublishedMissedFromStart(cs: seq<uint16>)
    ensures MaskInt32Max(MasterRun(Counters(0, 0), cs).missed) == |MissedFrames(0, cs)| % 0x8000_0000
  {
    MasterRunCounts(Counters(0, 0), cs);
    MaskedCount(|MissedFrames(0, cs)|);
  }

  /** A frame repeating the previous cycle counts as missed: the master does not suppress duplicates. */
  lemma RepeatCountsAsMissed(c: Counters, cycle: uint16)
    requires c.lastCycle == cycle
    ensures MasterStep(c, cycle).missed == Inc32(c.missed)
  {
  }

  /** The wrap from 65535 to 0 counts as missed: the comparison has no modulo. */
  lemma WrapCountsAsMissed(m: int32)
    ensures MasterStep(Counters(65535, m), 0).missed == Inc32(m)
  {
  }

  class EcMaster {
    const params: ParamTable
    const cycleParam: nat
    const workingCounterParam: nat
    const missedParam: nat
    const wcStateParam: nat
    var lastCycle: int
    var missed: int32

    ghost function Counts(): Counters
      reads this
    {
      Counters(lastCycle, missed)
    }

    /** ecMaster(name): Cycle, WorkingCounter, Missed and WcState are created in that order. */
    constructor ()
      ensures fresh(params) && params.count == 4 && params.values == map[]
      ensures cycleParam == 0 && workingCounterParam == 1 && missedParam == 2 && wcStateParam == 3
      ensures Counts() == Counters(0, 0)
    {
      var table := new ParamTable();
      var p0 := table.CreateParam();
      var p1 := table.CreateParam();
      var p2 := table.CreateParam();
      var p3 := table.CreateParam();
      params := table;
      cycleParam, workingCounterParam, missedParam, wcStateParam := p0, p1, p2, p3;
      lastCycle, missed := 0, 0;
    }

    /** on_pdo_message: update the counters, then publish the frame's fields and the count. */
    method OnPdoMessage(pdo: Pdo)
      modifies this`lastCycle, this`missed, params`values
      ensures Counts() == MasterStep(old(Counts()), pdo.cycle)
      ensures params.values
              == SetParam(SetParam(SetParam(SetParam(old(params.values), params.count,
                   cycleParam, pdo.cycle), params.count,
                   workingCounterParam, pdo.workingCounter), params.count,
                   wcStateParam, pdo.wcState), params.count,
                   missedParam, MaskInt32Max(missed))
    {
      if pdo.cycle != lastCycle + 1 {
        missed := Inc32(missed);
      }
      lastCycle := pdo.cycle;
      var status := params.SetIntegerParam(cycleParam, pdo.cycle);
      status := params.SetIntegerParam(workingCounterParam, pdo.workingCounter);
      status := params.SetIntegerParam(wcStateParam, pdo.wcState);
      status := params.SetIntegerParam(missedParam, MaskInt32Max(missed));
    }
  }
}
