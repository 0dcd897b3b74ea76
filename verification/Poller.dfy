/** The poll scheduler: one outstanding poll per instance, misses counted per tick. */
module Polling {
  import opened Prelude
  import opened FleetTypes

  const FORCE_FULL_EVERY_POLLS: nat := 12

  /** `armed`: the interval timer of this instance is running. */
  datatype Entry = Entry(armed: bool, outstanding: Option<nat>, missed: nat, pollCount: nat)

  datatype Polls = Polls(entries: map<InstanceId, Entry>, reqSeq: nat)

  const NO_POLLS: Polls := Polls(map[], 0)

  /** What the poller asks of the orchestrator. */
  datatype Effect = Quiet | SendPoll(reqId: nat, forceFull: bool) | OnStale | OnEvict

  // ----- the operations, as functions -----

  function Polled(p: Polls, i: InstanceId): (Polls, Effect)
    requires i in p.entries
  {
    var e := p.entries[i];
    var reqId := p.reqSeq + 1;
    (Polls(p.entries[i := e.(pollCount := e.pollCount + 1, outstanding := Some(reqId))], reqId),
     SendPoll(reqId, e.pollCount % FORCE_FULL_EVERY_POLLS == 0))
  }

  function Scheduled(p: Polls, i: InstanceId): Polls {
    if i in p.entries then p.(entries := p.entries[i := p.entries[i].(armed := true)]) else p
  }

  function Started(p: Polls, i: InstanceId): (Polls, Effect) {
    var (q, effect) := Polled(p.(entries := p.entries[i := Entry(false, None, 0, 0)]), i);
    (Scheduled(q, i), effect)
  }

  function Replied(p: Polls, i: InstanceId, reqId: nat): (Polls, bool) {
    if i !in p.entries || p.entries[i].outstanding != Some(reqId) then (p, false)
    else (p.(entries := p.entries[i := p.entries[i].(outstanding := None, missed := 0)]), true)
  }

  function Forgotten(p: Polls, i: InstanceId): Polls {
    p.(entries := p.entries - {i})
  }

  /** The timer of an instance fires. */
  function Ticked(p: Polls, i: InstanceId): (Polls, Effect) {
    if i !in p.entries || !p.entries[i].armed then (p, Quiet)
    else
      var e := p.entries[i].(armed := false);
      if e.outstanding.Some? then
        var late := p.(entries := p.entries[i := e.(missed := e.missed + 1)]);
        if e.missed + 1 >= 3 then (late, OnEvict)
        else (Scheduled(late, i), if e.missed + 1 == 2 then OnStale else Quiet)
      else
        var (q, effect) := Polled(p.(entries := p.entries[i := e]), i);
        (Scheduled(q, i), effect)
  }

  // ----- the class -----

  class Poller {
    var entries: map<InstanceId, Entry>
    var reqSeq: nat

    ghost function Model(): Polls
      reads this
    {
      Polls(entries, reqSeq)
    }

    constructor ()
      ensures Model() == NO_POLLS
    {
      entries, reqSeq := map[], 0;
    }

    predicate Has(i: InstanceId)
      reads this
    {
      i in entries
    }

    method Start(i: InstanceId) returns (effect: Effect)
      modifies this
      ensures (Model(), effect) == Started(old(Model()), i)
    {
      entries := entries[i := Entry(false, None, 0, 0)];
      effect := Poll(i);
      Schedule(i);
    }

    method Reply(i: InstanceId, reqId: nat) returns (matched: bool)
      modifies this
      ensures (Model(), matched) == Replied(old(Model()), i, reqId)
    {
      if i !in entries || entries[i].outstanding.None? || entries[i].outstanding.value != reqId {
        return false;
      }
      entries := entries[i := entries[i].(outstanding := None, missed := 0)];
      return true;
    }

    method Forget(i: InstanceId)
      modifies this
      ensures Model() == Forgotten(old(Model()), i)
    {
      if i in entries {
        entries := entries - {i};
      }
    }

    method Schedule(i: InstanceId)
      modifies this
      ensures Model() == Scheduled(old(Model()), i)
    {
      if i in entries {
        entries := entries[i := entries[i].(armed := true)];
      }
    }

    method Tick(i: InstanceId) returns (effect: Effect)
      modifies this
      ensures (Model(), effect) == Ticked(old(Model()), i)
    {
      if i !in entries || !entries[i].armed {
        return Quiet;
      }
      entries := entries[i := entries[i].(armed := false)];
      if entries[i].outstanding.Some? {
        var missed := entries[i].missed + 1;
        entries := entries[i := entries[i].(missed := missed)];
        assert entries == old(entries)[i := old(entries[i]).(armed := false, missed := missed)];
        effect := if missed == 2 then OnStale else Quiet;
        if missed >= 3 {
          return OnEvict;
        }
        Schedule(i);
        return;
      }
      effect := Poll(i);
      Schedule(i);
    }

    method Poll(i: InstanceId) returns (effect: Effect)
      requires i in entries
      modifies this
      ensures (Model(), effect) == Polled(old(Model()), i)
    {
      reqSeq := reqSeq + 1;
      var forceFull := entries[i].pollCount % FORCE_FULL_EVERY_POLLS == 0;
      entries := entries[i := entries[i].(pollCount := entries[i].pollCount + 1, outstanding := Some(reqSeq))];
      effect := SendPoll(reqSeq, forceFull);
    }
  }
}
