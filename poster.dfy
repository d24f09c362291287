/** One pass of the body of the `while True` loop of `poster_task`, the
    posting loop that runs for every signed-in account. The pass is modelled
    as the sequence of actions it performs. What the pass reads while it is
    suspended (the record's `running` flag and `text`, which the handlers
    may change in place, and whether each send went through) comes in as a
    sequence of observations, one per group. */
module Poster {
  import opened Records

  /** An action of the posting task: a message sent to a group, or a sleep. */
  datatype Action = Send(group: string, text: string) | Sleep(seconds: nat)

  /** What the task sees when group i comes up: the `running` flag and the
      `text` of the record it captured, and whether the send then succeeded. */
  datatype Observation = Observation(running: bool, text: string, delivered: bool)

  /** Sleep taken when there is nothing to post. */
  const IdlePoll: nat := 5

  /** Sleep taken after each group. */
  const GroupPause: nat := 2

  /** The record captured at the start of the pass enables a round of sends. */
  predicate Active(snapshot: Option<Account>)
  {
    snapshot.Some? && snapshot.value.running && snapshot.value.groups != []
  }

  /** There is one observation for every group the pass might visit. */
  predicate Covers(snapshot: Option<Account>, obs: seq<Observation>)
  {
    snapshot.Some? ==> |snapshot.value.groups| <= |obs|
  }

  /** Index of the first of the first `n` groups at which posting is seen to be
      disabled, or `n` if it stays enabled throughout. */
  function StopIndex(obs: seq<Observation>, n: nat): (k: nat)
    requires n <= |obs|
    ensures k <= n
    ensures forall i :: 0 <= i < k ==> obs[i].running
    ensures k < n ==> !obs[k].running
  {
    if n == 0 || !obs[0].running then 0 else 1 + StopIndex(obs[1..], n - 1)
  }

  /** The inner `for` loop: each group in turn, stopping at the first one for
      which `running` is seen false; every attempt is followed by the group
      pause, whether or not the send succeeded. */
  function SendRun(groups: seq<string>, obs: seq<Observation>): (t: seq<Action>)
    requires |groups| <= |obs|
    ensures |t| == 2 * StopIndex(obs, |groups|)
  {
    if groups == [] || !obs[0].running then []
    else [Send(groups[0], obs[0].text), Sleep(GroupPause)] + SendRun(groups[1..], obs[1..])
  }

  /** The i-th group visited is sent to and then followed by the pause. */
  lemma {:induction false} SendRunAt(groups: seq<string>, obs: seq<Observation>, i: nat)
    requires |groups| <= |obs| && i < StopIndex(obs, |groups|)
    ensures SendRun(groups, obs)[2 * i] == Send(groups[i], obs[i].text)
    ensures SendRun(groups, obs)[2 * i + 1] == Sleep(GroupPause)
  {
    if i > 0 {
      SendRunAt(groups[1..], obs[1..], i - 1);
    }
  }

  /** The whole pass: an idle poll when there is no record, posting is off or
      there are no groups; otherwise the round of sends followed by the
      account's delay, read from the record once the round is over. */
  function CycleTrace(snapshot: Option<Account>, obs: seq<Observation>, finalDelay: nat): seq<Action>
    requires Covers(snapshot, obs)
  {
    if snapshot.None? || !snapshot.value.running then [Sleep(IdlePoll)]
    else if snapshot.value.groups == [] then [Sleep(IdlePoll)]
    else SendRun(snapshot.value.groups, obs) + [Sleep(finalDelay)]
  }

  /** The groups sent to, in the order of the sends. */
  function Sent(t: seq<Action>): seq<string>
  {
    if t == [] then []
    else (if t[0].Send? then [t[0].group] else []) + Sent(t[1..])
  }

  lemma {:induction false} SentAppend(a: seq<Action>, b: seq<Action>)
    ensures Sent(a + b) == Sent(a) + Sent(b)
  {
    if a == [] {
      assert a + b == b;
    } else {
      assert (a + b)[1..] == a[1..] + b;
      SentAppend(a[1..], b);
    }
  }

  lemma {:induction false} SendRunSent(groups: seq<string>, obs: seq<Observation>)
    requires |groups| <= |obs|
    ensures Sent(SendRun(groups, obs)) == groups[..StopIndex(obs, |groups|)]
  {
    if groups != [] && obs[0].running {
      var head := [Send(groups[0], obs[0].text), Sleep(GroupPause)];
      SentAppend(head, SendRun(groups[1..], obs[1..]));
      assert Sent(head) == [groups[0]];
      SendRunSent(groups[1..], obs[1..]);
      assert groups[..StopIndex(obs, |groups|)]
          == [groups[0]] + groups[1..][..StopIndex(obs[1..], |groups| - 1)];
    }
  }

  /** The groups a pass sends to are a prefix of the stored list, in stored
      order, each position at most once: exactly the groups before the first
      one at which `running` is seen false. Nothing is sent when there is no
      record, posting is off or the list is empty. */
  lemma CycleSends(snapshot: Option<Account>, obs: seq<Observation>, finalDelay: nat)
    requires Covers(snapshot, obs)
    ensures !Active(snapshot) ==> CycleTrace(snapshot, obs, finalDelay) == [Sleep(IdlePoll)]
    ensures Active(snapshot) ==>
      var gs := snapshot.value.groups;
      Sent(CycleTrace(snapshot, obs, finalDelay)) == gs[..StopIndex(obs, |gs|)]
  {
    if Active(snapshot) {
      var gs := snapshot.value.groups;
      SentAppend(SendRun(gs, obs), [Sleep(finalDelay)]);
      SendRunSent(gs, obs);
    }
  }

  /** A pass that keeps seeing posting enabled sends to every group once, in
      stored order. */
  lemma FullCycleSendsAll(snapshot: Option<Account>, obs: seq<Observation>, finalDelay: nat)
    requires Covers(snapshot, obs) && Active(snapshot)
    requires forall i :: 0 <= i < |snapshot.value.groups| ==> obs[i].running
    ensures Sent(CycleTrace(snapshot, obs, finalDelay)) == snapshot.value.groups
  {
    CycleSends(snapshot, obs, finalDelay);
    var gs := snapshot.value.groups;
    assert StopIndex(obs, |gs|) == |gs|;
    assert gs[..|gs|] == gs;
  }

  /** Shape of an active pass: send, pause, send, pause, ..., then the delay. */
  lemma CycleShape(snapshot: Option<Account>, obs: seq<Observation>, finalDelay: nat)
    requires Covers(snapshot, obs) && Active(snapshot)
    ensures var t := CycleTrace(snapshot, obs, finalDelay);
      var k := StopIndex(obs, |snapshot.value.groups|);
      && |t| == 2 * k + 1
      && t[2 * k] == Sleep(finalDelay)
      && forall i :: 0 <= i < k ==>
           t[2 * i] == Send(snapshot.value.groups[i], obs[i].text) && t[2 * i + 1] == Sleep(GroupPause)
  {
    var gs := snapshot.value.groups;
    forall i | 0 <= i < StopIndex(obs, |gs|)
      ensures CycleTrace(snapshot, obs, finalDelay)[2 * i] == Send(gs[i], obs[i].text)
      ensures CycleTrace(snapshot, obs, finalDelay)[2 * i + 1] == Sleep(GroupPause)
    {
      SendRunAt(gs, obs, i);
    }
  }

  lemma {:induction false} SendRunIgnoresDelivery(groups: seq<string>, obs: seq<Observation>, obs': seq<Observation>)
    requires |groups| <= |obs| && |obs| == |obs'|
    requires forall i :: 0 <= i < |obs| ==> obs[i].running == obs'[i].running && obs[i].text == obs'[i].text
    ensures SendRun(groups, obs) == SendRun(groups, obs')
  {
    if groups != [] && obs[0].running {
      SendRunIgnoresDelivery(groups[1..], obs[1..], obs'[1..]);
    }
  }

  /** Whether a send succeeded never changes what the pass does next: a failed
      send does not prevent the attempt on the next group, nor end the pass. */
  lemma DeliveryIgnored(snapshot: Option<Account>, obs: seq<Observation>, obs': seq<Observation>, finalDelay: nat)
    requires Covers(snapshot, obs) && |obs| == |obs'|
    requires forall i :: 0 <= i < |obs| ==> obs[i].running == obs'[i].running && obs[i].text == obs'[i].text
    ensures CycleTrace(snapshot, obs, finalDelay) == CycleTrace(snapshot, obs', finalDelay)
  {
    if snapshot.Some? {
      SendRunIgnoresDelivery(snapshot.value.groups, obs, obs');
    }
  }

  /** One pass of `poster_task`: reads the record captured at its start (or
      its absence) and performs the sends and sleeps in order. */
  method PostingCycle(snapshot: Option<Account>, obs: seq<Observation>, finalDelay: nat)
      returns (trace: seq<Action>)
    requires Covers(snapshot, obs)
    ensures trace == CycleTrace(snapshot, obs, finalDelay)
  {
    if snapshot.None? || !snapshot.value.running {
      return [Sleep(IdlePoll)];
    }
    var groups := snapshot.value.groups;
    if groups == [] {
      return [Sleep(IdlePoll)];
    }
    trace := [];
    var i := 0;
    while i < |groups|
      invariant 0 <= i <= |groups|
      invariant trace + SendRun(groups[i..], obs[i..]) == SendRun(groups, obs)
    {
      if !obs[i].running {
        break;
      }
      // The send's outcome obs[i].delivered is logged and otherwise ignored.
      trace := trace + [Send(groups[i], obs[i].text), Sleep(GroupPause)];
      i := i + 1;
    }
    trace := trace + [Sleep(finalDelay)];
  }
}
