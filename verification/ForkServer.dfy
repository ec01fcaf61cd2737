/** The fork server: the mechanical one-worker guard, and the bounded reap of a worker. */
module ForkServing {
  import opened Options

  /** A worker process, named by the turn it was forked for. */
  type Handle = nat

  datatype SpawnResult = Spawned(handle: Handle) | NotReady | WorkerBusy | ForkFailed

  /** The guard and the handle not yet taken over by a reap. */
  datatype Server = Server(ready: bool, workerInFlight: bool, inflight: Option<Handle>) {
    /** A refused or failed fork leaves the guard as it was. */
    function Spawn(handle: Handle, forkSucceeds: bool): (Server, SpawnResult) {
      if !ready then (this, NotReady)
      else if workerInFlight then (this, WorkerBusy)
      else if !forkSucceeds then (this, ForkFailed)
      else (Server(true, true, Some(handle)), Spawned(handle))
    }

    function BeginReap(): Server {
      this.(inflight := None)
    }

    function EndReap(): Server {
      this.(workerInFlight := false)
    }
  }

  /** What a non-blocking `waitpid` says. */
  datatype WaitAnswer = StillRunning | Exited | NoSuchChild | CallFailed

  /** How a reap ended; given up on, or failed with an error, it leaves the worker to the system. */
  datatype ReapOutcome = ExitedAlone | ExitedAfterKill | LeftToOs | Failed

  ghost predicate AllRunning(answers: nat -> WaitAnswer, n: nat) {
    forall k :: 0 <= k < n ==> answers(k) == StillRunning
  }

  lemma NapUsesAPoll(left: real, nap: real, poll: real)
    requires 0.0 < poll <= nap
    ensures (left - nap) / poll <= left / poll - 1.0
  {
    assert (left - nap) / poll == left / poll - nap / poll;
    assert nap / poll >= 1.0;
  }

  /** The reap loop, against any sequence of `waitpid` answers and any sleeps of at least one poll
      interval. It stops at the first answer other than "still running"; it kills exactly when the
      deadline passed without one; and it gives up only after the whole grace period. */
  method WaitpidReap(answers: nat -> WaitAnswer, naps: nat -> real, longestNap: real,
                     timeout: real, poll: real, grace: real)
    returns (outcome: ReapOutcome, polls: nat, now: real)
    requires 0.0 < poll && 0.0 <= timeout && 0.0 <= grace
    requires forall k :: poll <= naps(k) <= longestNap
    ensures 0.0 <= now < timeout + grace + 2.0 * longestNap
    ensures outcome == LeftToOs ==> AllRunning(answers, polls) && timeout + grace <= now
    ensures outcome != LeftToOs ==>
              polls > 0 && AllRunning(answers, polls - 1) && answers(polls - 1) != StillRunning
    ensures outcome == Failed <==> polls > 0 && answers(polls - 1) == CallFailed
    ensures outcome == ExitedAlone ==> now < timeout + longestNap
    ensures outcome == ExitedAfterKill ==> timeout <= now
  {
    polls, now := 0, 0.0;
    var sleeps := 0;
    assert poll <= naps(0) <= longestNap;
    while true
      invariant 0.0 <= now < timeout + longestNap
      invariant AllRunning(answers, polls)
      decreases (timeout - now) / poll
    {
      var answer := answers(polls);
      polls := polls + 1;
      if answer != StillRunning {
        return if answer == CallFailed then Failed else ExitedAlone, polls, now;
      }
      if now >= timeout {
        var killDeadline := now + grace;
        while now < killDeadline
          invariant timeout <= now < timeout + grace + 2.0 * longestNap
          invariant AllRunning(answers, polls)
          invariant killDeadline >= timeout + grace && killDeadline < timeout + longestNap + grace
          decreases (killDeadline - now) / poll
        {
          answer := answers(polls);
          polls := polls + 1;
          if answer != StillRunning {
            return if answer == CallFailed then Failed else ExitedAfterKill, polls, now;
          }
          NapUsesAPoll(killDeadline - now, naps(sleeps), poll);
          now := now + naps(sleeps);
          sleeps := sleeps + 1;
        }
        return LeftToOs, polls, now;
      }
      NapUsesAPoll(timeout - now, naps(sleeps), poll);
      now := now + naps(sleeps);
      sleeps := sleeps + 1;
    }
  }

  class ForkServer {
    var ready: bool
    var workerInFlight: bool
    var inflight: Option<Handle>

    function View(): Server
      reads this
    {
      Server(ready, workerInFlight, inflight)
    }

    constructor ()
      ensures View() == Server(false, false, None)
    {
      ready, workerInFlight, inflight := false, false, None;
    }

    method Preload()
      modifies this
      ensures View() == old(View()).(ready := true)
    {
      ready := true;
    }

    /** `forkSucceeds` is the kernel's answer to the fork. */
    method Spawn(handle: Handle, forkSucceeds: bool) returns (r: SpawnResult)
      modifies this
      ensures (View(), r) == old(View()).Spawn(handle, forkSucceeds)
    {
      if !ready {
        return NotReady;
      }
      if workerInFlight {
        return WorkerBusy;
      }
      workerInFlight := true;
      if !forkSucceeds {
        workerInFlight := false;
        return ForkFailed;
      }
      inflight := Some(handle);
      return Spawned(handle);
    }

    /** `reap_current` up to its wait. */
    method BeginReap() returns (handle: Option<Handle>)
      modifies this
      ensures View() == old(View()).BeginReap() && handle == old(inflight)
    {
      handle, inflight := inflight, None;
    }

    /** `reap_current` after its wait, however the wait ended. */
    method EndReap()
      modifies this
      ensures View() == old(View()).EndReap()
    {
      workerInFlight := false;
    }

    /** A whole reap: whatever the worker does and however the wait ends, by an error too, it ends in bounded
        time with the guard released. */
    method ReapCurrent(answers: nat -> WaitAnswer, naps: nat -> real, longestNap: real,
                       timeout: real, poll: real, grace: real)
      returns (outcome: Option<ReapOutcome>, elapsed: real)
      requires 0.0 < poll && 0.0 <= timeout && 0.0 <= grace
      requires forall k :: poll <= naps(k) <= longestNap
      modifies this
      ensures View() == old(View()).BeginReap().EndReap()
      ensures outcome.None? <==> old(inflight).None?
      ensures outcome.Some? && outcome.value in {ExitedAlone, ExitedAfterKill} ==>
                exists k: nat :: AllRunning(answers, k) && answers(k) in {Exited, NoSuchChild}
      ensures 0.0 <= elapsed <= timeout + grace + 2.0 * longestNap
    {
      var handle := BeginReap();
      outcome, elapsed := None, 0.0;
      assert poll <= naps(0) <= longestNap;
      if handle.Some? {
        var ended, polls, now := WaitpidReap(answers, naps, longestNap, timeout, poll, grace);
        outcome, elapsed := Some(ended), now;
        if ended in {ExitedAlone, ExitedAfterKill} {
          assert answers(polls - 1) in {Exited, NoSuchChild};
        }
      }
      EndReap();
    }
  }
}
