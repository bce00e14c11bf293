/** Runs of the control plane. */
module AdminRuns {
  import opened PolicyRevalidation
  import opened AdminModel

  datatype Request = Request(cmd: Command, writable: bool)

  predicate Stepped(zones: set<string>, requests: seq<Request>, states: seq<Control>, k: nat)
    requires k < |requests| && |states| == |requests| + 1
  {
    states[k + 1] == Update(zones, states[k], requests[k].cmd, requests[k].writable).0
  }

  /** A run: `states[k]` is the state after the first `k` requests. */
  predicate Behaviour(zones: set<string>, requests: seq<Request>, states: seq<Control>) {
    |states| == |requests| + 1 && forall k | 0 <= k < |requests| :: Stepped(zones, requests, states, k)
  }

  /** The names a request brings in are settled. */
  predicate SettledAt(zones: set<string>, requests: seq<Request>, states: seq<Control>, k: nat)
    requires k < |requests| && |states| == |requests| + 1
  {
    var next := Next(zones, states[k].config, requests[k].cmd);
    next.Some? ==> AllSettled(next.value.profiles)
  }

  lemma NextInSync(zones: set<string>, requests: seq<Request>, states: seq<Control>, k: nat)
    requires Behaviour(zones, requests, states) && k < |requests| && SettledAt(zones, requests, states, k)
    requires InSync(zones, states[k])
    ensures InSync(zones, states[k + 1])
  {
    hide Update, InSync, Next, AllSettled;
    assert Stepped(zones, requests, states, k);
    CommitIsAllOrNothing(zones, states[k], requests[k].cmd, requests[k].writable);
  }

  /** On settled names, file and active store reflect the configuration in every state of a run that starts so,
      whichever commits are refused or cannot be written. */
  lemma {:induction false} AlwaysInSync(zones: set<string>, requests: seq<Request>, states: seq<Control>, k: nat)
    requires Behaviour(zones, requests, states) && k <= |requests| && InSync(zones, states[0])
    requires forall m | 0 <= m < |requests| :: SettledAt(zones, requests, states, m)
    ensures InSync(zones, states[k])
  {
    hide Update, InSync, SettledAt;
    if k > 0 {
      AlwaysInSync(zones, requests, states, k - 1);
      assert SettledAt(zones, requests, states, k - 1);
      NextInSync(zones, requests, states, k - 1);
    }
  }
}
