/** Invitations over whole runs of the control plane. */
module Invitations {
  import opened Text
  import opened ConfigTypes
  import opened PolicyStore
  import opened AdminModel
  import opened AdminRuns

  /** Request `k` registers a house. */
  predicate RegistersAt(zones: set<string>, requests: seq<Request>, states: seq<Control>, k: nat)
    requires k < |requests| && |states| == |requests| + 1
  {
    requests[k].cmd.RegisterHouse? && Update(zones, states[k], requests[k].cmd, requests[k].writable).1
  }

  function Registrations(zones: set<string>, requests: seq<Request>, states: seq<Control>, n: nat): nat
    requires n <= |requests| && |states| == |requests| + 1
  {
    if n == 0 then 0
    else Registrations(zones, requests, states, n - 1) + if RegistersAt(zones, requests, states, n - 1) then 1 else 0
  }

  function UsedCount(invitations: seq<Invitation>): nat {
    if invitations == [] then 0
    else UsedCount(invitations[..|invitations| - 1]) + if invitations[|invitations| - 1].usedAt.Some? then 1 else 0
  }

  /** What a request makes of the invitations: a registration marks the first usable one with its code, a new
      invitation is appended, anything else leaves them alone. */
  lemma UpdateInvitations(zones: set<string>, st: Control, cmd: Command, writable: bool)
    ensures var before, after := st.config.invitations, Update(zones, st, cmd, writable);
            if !after.1 then after.0.config == st.config
            else if cmd.RegisterHouse? then
              var i := FindInvitation(before, cmd.codeHash, cmd.checkedAt, 0);
              i.Some? && after.0.config.invitations ==
                         before[i.value := before[i.value].(usedAt := Some(cmd.usedAt), email := "")]
            else if cmd.CreateInvitation? then
              after.0.config.invitations == before + [Invited(cmd.codeHash, cmd.email, cmd.now)]
            else after.0.config.invitations == before
  {
    hide Accept, NormalAll, Edited, ZonesKnown, WithZones, ZonedProfiles, WithPackage;
  }

  // ---- counting ---------------------------------------------------------------

  lemma {:induction false} UsedCountUpdate(invitations: seq<Invitation>, i: nat, used: Invitation)
    requires i < |invitations| && invitations[i].usedAt.None? && used.usedAt.Some?
    ensures UsedCount(invitations[i := used]) == UsedCount(invitations) + 1
  {
    var n := |invitations| - 1;
    if i < n {
      UsedCountUpdate(invitations[..n], i, used);
      assert invitations[i := used][..n] == invitations[..n][i := used];
    } else {
      assert invitations[i := used][..n] == invitations[..n];
    }
  }

  lemma UsedCountAppend(invitations: seq<Invitation>, added: Invitation)
    requires added.usedAt.None?
    ensures UsedCount(invitations + [added]) == UsedCount(invitations)
  {
    assert (invitations + [added])[..|invitations|] == invitations;
  }

  lemma NextUsed(zones: set<string>, requests: seq<Request>, states: seq<Control>, k: nat)
    requires Behaviour(zones, requests, states) && k < |requests|
    ensures UsedCount(states[k + 1].config.invitations) ==
            UsedCount(states[k].config.invitations) + if RegistersAt(zones, requests, states, k) then 1 else 0
  {
    hide Update;
    assert Stepped(zones, requests, states, k);
    var before, cmd := states[k].config.invitations, requests[k].cmd;
    UpdateInvitations(zones, states[k], cmd, requests[k].writable);
    if RegistersAt(zones, requests, states, k) {
      var i := FindInvitation(before, cmd.codeHash, cmd.checkedAt, 0).value;
      UsedCountUpdate(before, i, before[i].(usedAt := Some(cmd.usedAt), email := ""));
    } else if cmd.CreateInvitation? {
      UsedCountAppend(before, Invited(cmd.codeHash, cmd.email, cmd.now));
    }
  }

  /** Every registration uses up one invitation, and nothing else does. */
  lemma {:induction false} RegistrationsUseInvitations(zones: set<string>, requests: seq<Request>,
                                                       states: seq<Control>, n: nat)
    requires Behaviour(zones, requests, states) && n <= |requests|
    ensures UsedCount(states[n].config.invitations) ==
            UsedCount(states[0].config.invitations) + Registrations(zones, requests, states, n)
  {
    hide RegistersAt, UsedCount;
    if n > 0 {
      RegistrationsUseInvitations(zones, requests, states, n - 1);
      NextUsed(zones, requests, states, n - 1);
    }
  }

  // ---- one invitation's life ----------------------------------------------------

  /** An invitation after some requests: the same, or used up without its address, by a check at an instant no
      later than its expiry. */
  predicate Lives(before: Invitation, after: Invitation) {
    after == before ||
    (before.usedAt.None? && after.usedAt.Some? && after == before.(usedAt := after.usedAt, email := ""))
  }

  ghost predicate AllLive(before: seq<Invitation>, after: seq<Invitation>) {
    |before| <= |after| && forall i | 0 <= i < |before| :: Lives(before[i], after[i])
  }

  lemma NextLive(zones: set<string>, requests: seq<Request>, states: seq<Control>, k: nat)
    requires Behaviour(zones, requests, states) && k < |requests|
    ensures AllLive(states[k].config.invitations, states[k + 1].config.invitations)
  {
    hide Update;
    assert Stepped(zones, requests, states, k);
    UpdateInvitations(zones, states[k], requests[k].cmd, requests[k].writable);
  }

  /** Invitations are never removed, and a used one is never reused or un-used: from any state of a run to any later
      one, each stays what it was or becomes used once, losing its address. */
  lemma {:induction false} InvitationsAreUsedOnce(zones: set<string>, requests: seq<Request>, states: seq<Control>,
                                                  i: nat, j: nat)
    requires Behaviour(zones, requests, states) && i <= j <= |requests|
    ensures AllLive(states[i].config.invitations, states[j].config.invitations)
  {
    if i < j {
      InvitationsAreUsedOnce(zones, requests, states, i, j - 1);
      NextLive(zones, requests, states, j - 1);
      var a, b, c := states[i].config.invitations, states[j - 1].config.invitations, states[j].config.invitations;
      forall x | 0 <= x < |a|
        ensures Lives(a[x], c[x])
      {
        assert Lives(a[x], b[x]) && Lives(b[x], c[x]);
      }
    }
  }

  /** A registration uses an invitation with its own code that no request used before and that had not expired when
      it was checked. */
  lemma RegistrationHonoursInvitation(zones: set<string>, requests: seq<Request>, states: seq<Control>, k: nat)
    returns (i: nat)
    requires Behaviour(zones, requests, states) && k < |requests| && RegistersAt(zones, requests, states, k)
    ensures var before, after := states[k].config.invitations, states[k + 1].config.invitations;
            && i < |before| && before[i].codeHash == requests[k].cmd.codeHash && before[i].usedAt.None?
            && requests[k].cmd.checkedAt <= before[i].expiresAt
            && i < |after| && after[i].usedAt == Some(requests[k].cmd.usedAt) && after[i].email == ""
  {
    hide Update;
    assert Stepped(zones, requests, states, k);
    UpdateInvitations(zones, states[k], requests[k].cmd, requests[k].writable);
    i := FindInvitation(states[k].config.invitations, requests[k].cmd.codeHash, requests[k].cmd.checkedAt, 0).value;
  }

  // ---- distinct codes -----------------------------------------------------------

  ghost predicate DistinctCodes(invitations: seq<Invitation>) {
    forall i, j | 0 <= i < j < |invitations| :: invitations[i].codeHash != invitations[j].codeHash
  }

  predicate HasCode(invitations: seq<Invitation>, codeHash: string) {
    exists i :: 0 <= i < |invitations| && invitations[i].codeHash == codeHash
  }

  predicate FreshCodeAt(requests: seq<Request>, states: seq<Control>, k: nat)
    requires k < |requests| && |states| == |requests| + 1
  {
    requests[k].cmd.CreateInvitation? ==> !HasCode(states[k].config.invitations, requests[k].cmd.codeHash)
  }

  lemma NextDistinct(zones: set<string>, requests: seq<Request>, states: seq<Control>, k: nat)
    requires Behaviour(zones, requests, states) && k < |requests| && FreshCodeAt(requests, states, k)
    requires DistinctCodes(states[k].config.invitations)
    ensures DistinctCodes(states[k + 1].config.invitations)
  {
    hide Update;
    assert Stepped(zones, requests, states, k);
    UpdateInvitations(zones, states[k], requests[k].cmd, requests[k].writable);
  }

  lemma {:induction false} CodesStayDistinct(zones: set<string>, requests: seq<Request>, states: seq<Control>, k: nat)
    requires Behaviour(zones, requests, states) && k <= |requests|
    requires DistinctCodes(states[0].config.invitations)
    requires forall m | 0 <= m < |requests| :: FreshCodeAt(requests, states, m)
    ensures DistinctCodes(states[k].config.invitations)
  {
    hide FreshCodeAt, DistinctCodes;
    if k > 0 {
      CodesStayDistinct(zones, requests, states, k - 1);
      assert FreshCodeAt(requests, states, k - 1);
      NextDistinct(zones, requests, states, k - 1);
    }
  }

  /** With distinct codes each code registers at most one house, even when two registrations both found it valid
      before either asked for its commit. */
  lemma EachCodeRegistersOnce(zones: set<string>, requests: seq<Request>, states: seq<Control>, i: nat, j: nat)
    requires Behaviour(zones, requests, states) && i < j < |requests|
    requires DistinctCodes(states[0].config.invitations)
    requires forall m | 0 <= m < |requests| :: FreshCodeAt(requests, states, m)
    requires RegistersAt(zones, requests, states, i) && RegistersAt(zones, requests, states, j)
    ensures requests[i].cmd.codeHash != requests[j].cmd.codeHash
  {
    hide RegistersAt, FreshCodeAt;
    var a := RegistrationHonoursInvitation(zones, requests, states, i);
    var b := RegistrationHonoursInvitation(zones, requests, states, j);
    CodesStayDistinct(zones, requests, states, j);
    InvitationsAreUsedOnce(zones, requests, states, i, i + 1);
    InvitationsAreUsedOnce(zones, requests, states, i + 1, j);
    assert Lives(states[i].config.invitations[a], states[i + 1].config.invitations[a]);
    assert Lives(states[i + 1].config.invitations[a], states[j].config.invitations[a]);
  }

  // ---- redaction ----------------------------------------------------------------

  ghost predicate Redacted(invitations: seq<Invitation>) {
    forall i | 0 <= i < |invitations| && invitations[i].usedAt.Some? :: invitations[i].email == ""
  }

  lemma NextRedacted(zones: set<string>, requests: seq<Request>, states: seq<Control>, k: nat)
    requires Behaviour(zones, requests, states) && k < |requests| && Redacted(states[k].config.invitations)
    ensures Redacted(states[k + 1].config.invitations)
  {
    hide Update;
    assert Stepped(zones, requests, states, k);
    UpdateInvitations(zones, states[k], requests[k].cmd, requests[k].writable);
  }

  /** A used invitation has no address in any state of a run that starts so. */
  lemma {:induction false} UsedMeansRedacted(zones: set<string>, requests: seq<Request>, states: seq<Control>, k: nat)
    requires Behaviour(zones, requests, states) && k <= |requests| && Redacted(states[0].config.invitations)
    ensures Redacted(states[k].config.invitations)
  {
    hide Redacted;
    if k > 0 {
      UsedMeansRedacted(zones, requests, states, k - 1);
      NextRedacted(zones, requests, states, k - 1);
    }
  }
}
