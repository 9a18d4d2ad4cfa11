// The shared state of the scheduler process, updated in place by the atomic steps of `run_worker`.
// A method is what one task does between two suspension points; its precondition is what the
// suspension point waits for.
module SlotScheduler {
  import opened Counting
  import opened SlotSchedule
  import opened SlotMachine

  class Scheduler {
    const policy: Policy
    var now: nat
    var pending: nat          // the atomic counter
    var free: nat             // the permits of the semaphore
    var tasks: seq<Task>      // the spawned slot tasks, in admission order
    ghost var arrivals: seq<nat>
    ghost var accepted: seq<bool>

    ghost function View(): State
      reads this
    {
      State(now, pending, free, arrivals, accepted, tasks)
    }

    ghost predicate Valid()
      reads this
    {
      Inv(policy, View())
    }

    constructor (policy: Policy)
      requires Sensible(policy)
      ensures Valid() && this.policy == policy && View() == Initial(policy)
    {
      this.policy := policy;
      now, pending, free, tasks := 0, 0, policy.workers, [];
      arrivals, accepted := [], [];
      new;
      RunKeeps(policy, []);
    }

    // The handler: bounded admission, then the spawn of the slot task.
    method Arrive() returns (rejection: bool, reply: Reply)
      requires Valid() && Enabled(policy, View(), Event.Arrive)
      modifies this
      ensures Valid() && View() == Step(policy, old(View()), Event.Arrive)
      ensures rejection == (LiveAt(policy, Plan(policy, old(arrivals)), now) >= policy.pendingCap)
      ensures rejection ==> reply == QUEUE_FULL && pending == old(pending) && tasks == old(tasks)
      ensures !rejection ==> pending == old(pending) + 1 && tasks == old(tasks) + [Task(now, true, Queued)]
    {
      hide LiveAt, Plan;
      StepKeeps(policy, View(), Event.Arrive);
      PendingIsLive(policy, now, Plan(policy, arrivals), tasks);
      arrivals, accepted := arrivals + [now], accepted + [pending < policy.pendingCap];
      if pending < policy.pendingCap {
        pending := pending + 1;
        tasks := tasks + [Task(now, true, Queued)];
        rejection, reply := false, NORMALIZED;
      } else {
        rejection, reply := true, QUEUE_FULL;
      }
    }

    // The caller goes away: the slot task is its own, so only the caller's flag changes.
    method Disconnect(i: nat)
      requires Valid() && i < |tasks|
      modifies this`tasks
      ensures Valid() && View() == Step(policy, old(View()), Event.Disconnect(i))
      ensures tasks[i].phase == old(tasks[i].phase)
    {
      StepKeeps(policy, View(), Event.Disconnect(i));
      tasks := tasks[i := tasks[i].(connected := false)];
    }

    // `acquire_owned` returns; the deadline is fixed before the worker starts.
    method AcquirePermit(i: nat) returns (deadline: nat)
      requires Valid() && i < |tasks| && MayAcquire(View(), i)
      modifies this`free, this`tasks
      ensures Valid() && View() == Step(policy, old(View()), Acquire(i))
      ensures deadline == Plan(policy, arrivals)[i].start + policy.slot == now + policy.slot
    {
      StepKeeps(policy, View(), Acquire(i));
      HeadIsDue(policy, View(), i);
      free := free - 1;
      deadline := now + policy.slot;
      tasks := tasks[i := tasks[i].(phase := Running(now))];
    }

    // `timeout_at` returns: the process ended by itself before the deadline, or was killed at it.
    method EndProcess(i: nat, end: WorkerEnd)
      requires Valid() && i < |tasks| && tasks[i].phase.Running?
      requires end == Killed ==> tasks[i].phase.start + policy.slot <= now
      modifies this`tasks
      ensures Valid()
      ensures View() == Step(policy, old(View()), if end == Killed then TimesOut(i) else WorkerEnds(i, end))
      ensures free == old(free) && pending == old(pending)
    {
      StepKeeps(policy, View(), if end == Killed then TimesOut(i) else WorkerEnds(i, end));
      tasks := tasks[i := tasks[i].(phase := Padding(tasks[i].phase.start, end))];
    }

    // `sleep_until(deadline)` returns and the permit is dropped.
    method DropPermit(i: nat)
      requires Valid() && i < |tasks| && Enabled(policy, View(), Wakes(i))
      modifies this`free, this`tasks
      ensures Valid() && View() == Step(policy, old(View()), Wakes(i))
      ensures now == tasks[i].phase.start + policy.slot
    {
      StepKeeps(policy, View(), Wakes(i));
      assert Keeps(policy, now, Plan(policy, arrivals)[i], tasks[i]);
      free := free + 1;
      tasks := tasks[i := tasks[i].(phase := Unpermitted(tasks[i].phase.start, tasks[i].phase.end))];
    }

    // The slot task ends: its pending guard is dropped and the handler answers.
    method DropGuard(i: nat) returns (reply: Reply)
      requires Valid() && i < |tasks| && tasks[i].phase.Unpermitted?
      modifies this`pending, this`tasks
      ensures Valid() && View() == Step(policy, old(View()), DropsGuard(i))
      ensures reply == NORMALIZED == ReplyOf(tasks[i])
      ensures tasks[i].phase.at == Plan(policy, arrivals)[i].start + policy.slot
      ensures pending == old(pending) - 1
    {
      hide Plan, LiveAt;
      StepKeeps(policy, View(), DropsGuard(i));
      assert Keeps(policy, now, Plan(policy, arrivals)[i], tasks[i]);
      TallyBounds(HoldsGuard, tasks, i, i + 1);
      pending := pending - 1;
      tasks := tasks[i := tasks[i].(phase := Released(tasks[i].phase.start, tasks[i].phase.end, now))];
      reply := NORMALIZED;
    }

    method AdvanceClock(to: nat)
      requires Valid() && Enabled(policy, View(), Advance(to))
      modifies this`now
      ensures Valid() && View() == Step(policy, old(View()), Advance(to))
    {
      StepKeeps(policy, View(), Advance(to));
      now := to;
    }

    // All admitted runs have finished.
    ghost predicate Idle()
      reads this
    {
      forall j :: 0 <= j < |tasks| ==> tasks[j].phase.Released?
    }

    // All but one have.
    ghost predicate Alone(i: nat)
      reads this
    {
      i < |tasks| && forall j :: 0 <= j < |tasks| && j != i ==> tasks[j].phase.Released?
    }

    // In an idle scheduler nothing is held.
    lemma IdleIsFree()
      requires Valid() && Idle()
      ensures Sensible(policy) && free == policy.workers && pending == 0
    {
      TallyBounds(HoldsPermit, tasks, 0, 0);
      TallyBounds(HoldsGuard, tasks, 0, 0);
    }

    // From the permit to the end of the padded slot: the worker ends by itself or is killed, and either
    // way a whole slot passes.
    method HoldSlot(i: nat, deadline: nat, took: nat, end: WorkerEnd)
      requires Valid() && Alone(i) && tasks[i].phase == Running(now)
      requires now < deadline == now + policy.slot && end != Killed
      modifies this`now, this`tasks
      ensures Valid() && Alone(i) && now == deadline
      ensures tasks[i].phase == Padding(old(now), if took < policy.slot then end else Killed)
    {
      hide Inv;
      if took < policy.slot {
        if took > 0 {
          AdvanceClock(now + took);
        }
        EndProcess(i, end);
      }
      AdvanceClock(deadline);
      if took >= policy.slot {
        EndProcess(i, Killed);
      }
    }

    // The slot task of a run that waits alone, from its permit to the dropped guard.
    method ServeAlone(i: nat, took: nat, end: WorkerEnd) returns (reply: Reply)
      requires Valid() && Alone(i) && tasks[i].phase.Queued? && free > 0 && policy.slot > 0 && end != Killed
      modifies this`now, this`free, this`pending, this`tasks
      ensures Valid() && Idle()
      ensures reply == NORMALIZED && now == old(now) + policy.slot
      ensures pending == old(pending) - 1 && free == old(free)
    {
      hide Inv, Plan, LiveAt;
      var deadline := AcquirePermit(i);
      HoldSlot(i, deadline, took, end);
      DropPermit(i);
      reply := DropGuard(i);
    }

    // The whole of `run_worker` for a caller that meets an idle scheduler, with a worker that would end
    // by itself after the given time.  The caller may leave while it waits.
    method RunWorker(took: nat, end: WorkerEnd, leaves: bool) returns (rejection: bool, reply: Reply)
      requires Valid() && Idle() && end != Killed
      modifies this
      ensures Valid() && Idle()
      ensures rejection <==> policy.pendingCap == 0
      ensures rejection ==> reply == QUEUE_FULL && now == old(now)
      ensures !rejection ==> reply == NORMALIZED && now == old(now) + policy.slot
      ensures free == old(free) && pending == old(pending)
    {
      hide Inv, Plan, LiveAt;
      IdleIsFree();
      rejection, reply := Arrive();
      if !rejection {
        var i := |tasks| - 1;
        if leaves {
          Disconnect(i);
        }
        reply := ServeAlone(i, took, end);
      }
    }
  }
}
