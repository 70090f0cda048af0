/**
 * The IOC side of the connection handshake: the first non-empty reply on a
 * connection carries the scanner's configuration, which is kept; every later
 * reconnection must deliver exactly the same bytes, or the process stops.
 */
module ConfigCheck {
  import opened Wrappers
  import opened CInt

  /** Where a sequence of connections has left the IOC. */
  datatype Outcome = Waiting | Loaded(config: seq<byte>) | Aborted

  /** One connection delivering `message` (empty when the receive returned nothing). */
  function ConfigStep(o: Outcome, message: seq<byte>): (r: Outcome)
    ensures message == [] ==> r == o
    ensures o.Waiting? && message != [] ==> r == Loaded(message)
    ensures o.Loaded? ==> (r == o <==> message == [] || message == o.config)
    ensures o.Loaded? && message != [] && message != o.config ==> r == Aborted
    ensures o.Aborted? ==> r.Aborted?
  {
    match o
    case Aborted => Aborted
    case Waiting => if message == [] then Waiting else Loaded(message)
    case Loaded(c) => if message == [] || message == c then o else Aborted
  }

  /** The outcome of the connections `ms`, in order. */
  function ConfigRun(ms: seq<seq<byte>>): Outcome
  {
    if ms == [] then Waiting else ConfigStep(ConfigRun(ms[..|ms| - 1]), ms[|ms| - 1])
  }

  /** The first connection that delivered a configuration, if any. */
  function FirstConfig(ms: seq<seq<byte>>): (r: Option<nat>)
    ensures r.Some? ==> r.value < |ms| && ms[r.value] != [] && forall i :: 0 <= i < r.value ==> ms[i] == []
    ensures r.None? ==> forall i :: 0 <= i < |ms| ==> ms[i] == []
  {
    if ms == [] then None
    else
      var f := FirstConfig(ms[..|ms| - 1]);
      if f.Some? then Some(f.value)
      else if ms[|ms| - 1] != [] then Some(|ms| - 1)
      else None
  }

  /** Some connection after the first configuration delivered different non-empty bytes. */
  predicate Changed(ms: seq<seq<byte>>, f: nat)
    requires f < |ms|
  {
    exists j :: f < j < |ms| && ms[j] != [] && ms[j] != ms[f]
  }

  /**
   * Over any sequence of connections, the IOC keeps the first configuration it
   * receives, and stops exactly when a later connection delivers a different one.
   */
  lemma {:induction false} ConfigRunKeepsFirst(ms: seq<seq<byte>>)
    ensures ConfigRun(ms) == match FirstConfig(ms)
                             case None => Waiting
                             case Some(f) => if Changed(ms, f) then Aborted else Loaded(ms[f])
  {
    if ms != [] {
      var n := |ms| - 1;
      var prefix := ms[..n];
      ConfigRunKeepsFirst(prefix);
      var f := FirstConfig(prefix);
      if f.Some? {
        var k := f.value;
        assert prefix[k] == ms[k];
        if Changed(prefix, k) {
          var j :| k < j < |prefix| && prefix[j] != [] && prefix[j] != prefix[k];
          assert ms[j] == prefix[j];
        }
      } else if ms[n] != [] {
        assert !Changed(ms, n);
      }
    }
  }

  /** Reconnecting with the very configuration already loaded never stops the IOC. */
  lemma SameConfigNeverAborts(c: seq<byte>, k: nat)
    requires c != []
    ensures ConfigRun(seq(k + 1, _ => c)) == Loaded(c)
  {
    var ms := seq(k + 1, _ => c);
    ConfigRunKeepsFirst(ms);
    assert ms[0] == c;
  }

  /** The config-related state of ENGINE_USER. */
  class ConfigReceiver {
    var configBuffer: Option<seq<byte>>   // config_buffer and config_size
    var readySignals: nat                 // messages sent on config_ready

    ghost function Outcome(): Outcome
      reads this
    {
      if configBuffer.None? then Waiting else Loaded(configBuffer.value)
    }

    ghost predicate Valid()
      reads this
    {
      (configBuffer.Some? ==> configBuffer.value != []) && readySignals == (if configBuffer.Some? then 1 else 0)
    }

    constructor ()
      ensures configBuffer.None? && readySignals == 0 && Valid()
    {
      configBuffer := None;
      readySignals := 0;
    }

    /**
     * receive_config_on_connect: `size` is what the receive returned and the
     * message is the first `size` bytes of the receive buffer. The connection
     * counts only when `size` is positive; `aborted` is the assert that stops
     * the process when a stored configuration differs.
     */
    method ReceiveConfigOnConnect(size: int, receiveBuffer: seq<byte>) returns (connected: bool, aborted: bool)
      requires Valid()
      requires size <= |receiveBuffer|
      modifies this
      ensures connected <==> size > 0
      ensures var message := if size > 0 then receiveBuffer[..size] else [];
              ConfigStep(old(Outcome()), message) == if aborted then Aborted else Outcome()
      ensures !aborted ==> Valid()
      ensures aborted ==> unchanged(this)
    {
      connected := size > 0;
      aborted := false;
      if size > 0 {
        var message := receiveBuffer[..size];
        if configBuffer.None? {
          configBuffer := Some(message);
          readySignals := readySignals + 1;
        } else {
          aborted := !(size == |configBuffer.value| && configBuffer.value == message);
        }
      }
    }
  }
}
