/** The open/release gate: `pmd_open` and `pmd_release`. The only state is
    `current_device`, which starts at -1 and is never assigned. */
module Gate {

  datatype GateState = GateState(currentDevice: int)

  /** The gate as the module loads it. */
  const InitialGate := GateState(-1)

  datatype Reply = Reply(ret: int, state: GateState)

  datatype Call = Open | Release

  /** `pmd_open`: logs and succeeds, touching no state. */
  function PmdOpen(s: GateState): (r: Reply)
    ensures r.ret == 0 && r.state == s
  {
    Reply(0, s)
  }

  /** `pmd_release`: returns early when no device is current; otherwise it
      would unmap the window but does not (left unfinished in the driver),
      so both paths succeed and change nothing. */
  function PmdRelease(s: GateState): (r: Reply)
    ensures r.ret == 0 && r.state == s
  {
    if s.currentDevice == -1 then Reply(0, s)
    else Reply(0, s)
  }

  /** Applies a sequence of open/release calls, collecting their return codes. */
  function RunGate(s: GateState, calls: seq<Call>): (r: (seq<int>, GateState))
    decreases |calls|
  {
    if calls == [] then ([], s)
    else
      var reply := match calls[0] case Open => PmdOpen(s) case Release => PmdRelease(s);
      var rest := RunGate(reply.state, calls[1..]);
      ([reply.ret] + rest.0, rest.1)
  }

  /** From any state, any sequence of opens and releases succeeds every time
      and leaves the state as it was. */
  lemma {:induction false} GateUnchanged(s: GateState, calls: seq<Call>)
    ensures |RunGate(s, calls).0| == |calls|
    ensures forall k :: 0 <= k < |calls| ==> RunGate(s, calls).0[k] == 0
    ensures RunGate(s, calls).1 == s
    decreases |calls|
  {
    if calls != [] {
      GateUnchanged(s, calls[1..]);
    }
  }

  /** From load, `current_device` stays -1, so every release takes the early return. */
  lemma GateStaysIdle(calls: seq<Call>)
    ensures |RunGate(InitialGate, calls).0| == |calls|
    ensures forall k :: 0 <= k < |calls| ==> RunGate(InitialGate, calls).0[k] == 0
    ensures RunGate(InitialGate, calls).1.currentDevice == -1
  {
    GateUnchanged(InitialGate, calls);
  }
}
