// The timetable that `run_worker` realises: a FIFO queue in front of `workers` permits, each held
// for exactly one slot, behind a cap on the number of live runs.  Everything here is a function
// of the arrival times alone; SlotMachine shows that every interleaving of the server follows it.
module SlotSchedule {
  import opened Division

  // Times are in milliseconds.
  datatype Policy = Policy(slot: nat, workers: nat, pendingCap: nat)

  const PRODUCTION := Policy(1000, 8, 128)

  ghost predicate Sensible(p: Policy) {
    p.slot > 0 && p.workers > 0
  }

  // One admitted run: when it was admitted and when its slot starts.
  datatype Booking = Booking(arrived: nat, start: nat)

  // The number of booked runs that are still pending at time t.
  function LiveAt(p: Policy, plan: seq<Booking>, t: nat): nat {
    if plan == [] then 0
    else LiveAt(p, plan[..|plan| - 1], t) + if plan[|plan| - 1].start + p.slot > t then 1 else 0
  }

  function Max(a: nat, b: nat): nat {
    if a < b then b else a
  }

  // The slot start of a run admitted at t behind the runs of the plan.
  function NextStart(p: Policy, plan: seq<Booking>, t: nat): nat
    requires p.workers > 0
  {
    if |plan| < p.workers then t else Max(t, plan[|plan| - p.workers].start + p.slot)
  }

  function Plan(p: Policy, arrivals: seq<nat>): seq<Booking>
    requires p.workers > 0
  {
    if arrivals == [] then []
    else
      var before := Plan(p, arrivals[..|arrivals| - 1]);
      var t := arrivals[|arrivals| - 1];
      if LiveAt(p, before, t) < p.pendingCap then before + [Booking(t, NextStart(p, before, t))] else before
  }

  // Whether request i is admitted: a function of the arrivals up to and including its own.
  predicate Admits(p: Policy, arrivals: seq<nat>, i: nat)
    requires p.workers > 0 && i < |arrivals|
  {
    LiveAt(p, Plan(p, arrivals[..i]), arrivals[i]) < p.pendingCap
  }

  ghost predicate Ascending(times: seq<nat>) {
    forall i, j :: 0 <= i < j < |times| ==> times[i] <= times[j]
  }

  // The recurrence, read off a whole plan.
  ghost predicate Follows(p: Policy, plan: seq<Booking>)
    requires p.workers > 0
  {
    && (forall i, j :: 0 <= i < j < |plan| ==> plan[i].arrived <= plan[j].arrived)
    && (forall j :: 0 <= j < |plan| ==> OnTime(p, plan, j))
  }

  // A run starts on arrival, or when the run `workers` places ahead of it gives its permit back.
  ghost predicate OnTime(p: Policy, plan: seq<Booking>, j: nat)
    requires p.workers > 0 && j < |plan|
  {
    plan[j].start == if j < p.workers then plan[j].arrived
                     else Max(plan[j].arrived, plan[j - p.workers].start + p.slot)
  }

  ghost predicate ArrivedBy(plan: seq<Booking>, t: nat) {
    forall j :: 0 <= j < |plan| ==> plan[j].arrived <= t
  }

  lemma {:induction false} PlanFollows(p: Policy, arrivals: seq<nat>)
    requires Sensible(p) && Ascending(arrivals)
    ensures Follows(p, Plan(p, arrivals))
    ensures arrivals != [] ==> ArrivedBy(Plan(p, arrivals), arrivals[|arrivals| - 1])
  {
    hide LiveAt;
    if arrivals != [] {
      var front := arrivals[..|arrivals| - 1];
      PlanFollows(p, front);
      var before, plan := Plan(p, front), Plan(p, arrivals);
      forall j | 0 <= j < |plan|
        ensures OnTime(p, plan, j)
      {
        if j < |before| {
          assert OnTime(p, before, j);
        }
      }
    }
  }

  // An admitted plan only ever grows at its end.
  lemma PlanExtends(p: Policy, arrivals: seq<nat>, t: nat)
    requires p.workers > 0
    ensures Plan(p, arrivals + [t]) ==
            if Admits(p, arrivals + [t], |arrivals|)
            then Plan(p, arrivals) + [Booking(t, NextStart(p, Plan(p, arrivals), t))] else Plan(p, arrivals)
  {
    assert (arrivals + [t])[..|arrivals|] == arrivals;
  }

  lemma {:induction false} StartsAscend(p: Policy, plan: seq<Booking>, i: nat, j: nat)
    requires Sensible(p) && Follows(p, plan)
    requires i <= j < |plan|
    ensures plan[i].start <= plan[j].start
    decreases j
  {
    if i < j {
      StartsAscend(p, plan, i, j - 1);
      assert OnTime(p, plan, j - 1) && OnTime(p, plan, j);
      if j > p.workers {
        StartsAscend(p, plan, j - 1 - p.workers, j - p.workers);
      }
    }
  }

  lemma SlotsApart(p: Policy, plan: seq<Booking>, j: nat)
    requires Sensible(p) && Follows(p, plan)
    requires p.workers <= j < |plan|
    ensures plan[j].start >= plan[j - p.workers].start + p.slot
  {
    assert OnTime(p, plan, j);
  }

  // The live runs of a plan are its last ones.
  lemma {:induction false} LiveIsSuffix(p: Policy, plan: seq<Booking>, t: nat)
    requires Sensible(p) && Follows(p, plan)
    ensures LiveAt(p, plan, t) <= |plan|
    ensures forall j :: 0 <= j < |plan| - LiveAt(p, plan, t) ==> plan[j].start + p.slot <= t
    ensures forall j :: |plan| - LiveAt(p, plan, t) <= j < |plan| ==> plan[j].start + p.slot > t
  {
    if plan != [] {
      var front := plan[..|plan| - 1];
      FollowsPrefix(p, plan, |plan| - 1);
      LiveIsSuffix(p, front, t);
      if plan[|plan| - 1].start + p.slot <= t {
        forall j | 0 <= j < |front|
          ensures front[j].start + p.slot <= t
        {
          StartsAscend(p, plan, j, |plan| - 1);
        }
      }
    }
  }

  lemma FollowsPrefix(p: Policy, plan: seq<Booking>, n: nat)
    requires Sensible(p) && Follows(p, plan) && n <= |plan|
    ensures Follows(p, plan[..n])
  {
    var front := plan[..n];
    forall j | 0 <= j < n
      ensures OnTime(p, front, j)
    {
      assert OnTime(p, plan, j);
    }
  }

  // ceil(pendingCap / workers), the number of slots a full queue needs.
  function Rounds(p: Policy): nat
    requires p.workers > 0
  {
    (p.pendingCap + p.workers - 1) / p.workers
  }

  lemma RoundsCover(p: Policy)
    requires p.workers > 0
    ensures Rounds(p) * p.workers >= p.pendingCap
  {
    var a, k := p.pendingCap + p.workers - 1, p.workers;
    assert a / k * k == a - a % k;
  }

  // Bookings are worked off in rows of `workers`: the q-th row of the backlog starts by t + q * slot.
  lemma {:induction false} BacklogBound(p: Policy, plan: seq<Booking>, t: nat, done: nat, j: nat, q: nat)
    requires Sensible(p) && Follows(p, plan) && ArrivedBy(plan, t)
    requires forall i :: 0 <= i < |plan| && i < done ==> plan[i].start + p.slot <= t
    requires j < |plan| && j < done + q * p.workers + p.workers
    ensures plan[j].start <= t + q * p.slot
    decreases j
  {
    assert OnTime(p, plan, j);
    if j >= p.workers && j - p.workers >= done {
      SignOfProduct(q, p.workers);
      RowAbove(q, p.workers);
      RowAbove(q, p.slot);
      assert q == 0 ==> q * p.workers == 0;
      BacklogBound(p, plan, t, done, j - p.workers, q - 1);
    }
  }

  lemma RoundsNeeded(live: nat, rounds: nat, k: nat, slot: nat)
    requires k > 0 && live < rounds * k
    ensures slot <= rounds * slot
    ensures live >= k ==> rounds >= 2
    ensures rounds * k == (rounds - 2) * k + 2 * k
    ensures rounds * slot == (rounds - 2) * slot + 2 * slot
  {
    assert rounds == 0 ==> rounds * k == 0;
    assert (rounds - 1) * slot >= 0;
  }

  // Admission under the cap bounds the whole wait of the admitted run.
  lemma AdmissionBound(p: Policy, plan: seq<Booking>, t: nat, rounds: nat)
    requires Sensible(p) && Follows(p, plan) && ArrivedBy(plan, t)
    requires LiveAt(p, plan, t) < p.pendingCap <= rounds * p.workers
    ensures NextStart(p, plan, t) + p.slot <= t + rounds * p.slot
  {
    var live := LiveAt(p, plan, t);
    LiveIsSuffix(p, plan, t);
    RoundsNeeded(live, rounds, p.workers, p.slot);
    if live >= p.workers {
      BacklogBound(p, plan, t, |plan| - live, |plan| - p.workers, rounds - 2);
    }
  }

  // Every admitted run is released within ceil(pendingCap / workers) slots of its admission.
  lemma {:induction false} BoundedCompletion(p: Policy, arrivals: seq<nat>, j: nat)
    requires Sensible(p) && Ascending(arrivals)
    requires j < |Plan(p, arrivals)|
    ensures Plan(p, arrivals)[j].start + p.slot <= Plan(p, arrivals)[j].arrived + Rounds(p) * p.slot
  {
    var front := arrivals[..|arrivals| - 1];
    if j < |Plan(p, front)| {
      BoundedCompletion(p, front, j);
    } else {
      PlanFollows(p, front);
      RoundsCover(p);
      AdmissionBound(p, Plan(p, front), arrivals[|arrivals| - 1], Rounds(p));
    }
  }

  lemma ProductionRounds()
    ensures Sensible(PRODUCTION) && Rounds(PRODUCTION) == 16
  {
  }

  // The number of slots that start in the window from <= start < to.
  function StartsWithin(plan: seq<Booking>, from: int, to: int): nat {
    if plan == [] then 0
    else StartsWithin(plan[..|plan| - 1], from, to) + if from <= plan[|plan| - 1].start < to then 1 else 0
  }

  lemma {:induction false} StartsWithinSplits(plan: seq<Booking>, from: int, mid: int, to: int)
    requires from <= mid <= to
    ensures StartsWithin(plan, from, to) == StartsWithin(plan, from, mid) + StartsWithin(plan, mid, to)
  {
    if plan != [] {
      StartsWithinSplits(plan[..|plan| - 1], from, mid, to);
    }
  }

  // Only bookings at or after index c can start in the window.
  lemma {:induction false} StartsWithinTail(plan: seq<Booking>, from: int, to: int, c: nat)
    requires forall j :: 0 <= j < |plan| && j < c ==> plan[j].start < from
    ensures StartsWithin(plan, from, to) <= if |plan| < c then 0 else |plan| - c
  {
    if plan != [] {
      StartsWithinTail(plan[..|plan| - 1], from, to, c);
    }
  }

  lemma {:induction false} OneSlotWindow(p: Policy, plan: seq<Booking>, from: int)
    requires Sensible(p) && Follows(p, plan)
    ensures StartsWithin(plan, from, from + p.slot) <= p.workers
  {
    if plan != [] {
      var front, last := plan[..|plan| - 1], |plan| - 1;
      if from <= plan[last].start < from + p.slot && last >= p.workers {
        var c := last - p.workers + 1;
        forall j | 0 <= j < c
          ensures front[j].start < from
        {
          SlotsApart(p, plan, last);
          StartsAscend(p, plan, j, last - p.workers);
        }
        StartsWithinTail(front, from, from + p.slot, c);
      } else if last < p.workers {
        StartsWithinTail(plan, from, from + p.slot, 0);
      } else {
        FollowsPrefix(p, plan, last);
        OneSlotWindow(p, front, from);
      }
    }
  }

  // Throughput: n slot lengths never contain more than n * workers slot starts.
  lemma {:induction false} WindowBound(p: Policy, plan: seq<Booking>, from: int, n: nat)
    requires Sensible(p) && Follows(p, plan)
    ensures StartsWithin(plan, from, from + n * p.slot) <= n * p.workers
  {
    hide StartsWithin, Follows;
    if n == 0 {
      EmptyWindow(plan, from);
    } else {
      var mid := from + (n - 1) * p.slot;
      WindowBound(p, plan, from, n - 1);
      OneSlotWindow(p, plan, mid);
      RowAbove(n, p.slot);
      RowAbove(n, p.workers);
      assert (n - 1) * p.slot >= 0;
      StartsWithinSplits(plan, from, mid, mid + p.slot);
    }
  }

  lemma {:induction false} EmptyWindow(plan: seq<Booking>, from: int)
    ensures StartsWithin(plan, from, from) == 0
  {
    if plan != [] {
      EmptyWindow(plan[..|plan| - 1], from);
    }
  }

  // Both bounds are met: a burst of pendingCap simultaneous requests fills workers slots a round.
  function Burst(n: nat): (times: seq<nat>) {
    seq(n, _ => 0)
  }

  // The start of the round that run j of a burst belongs to.
  function RowStart(p: Policy, j: nat): nat
    requires p.workers > 0
  {
    QuotientMonotone(0, j, p.workers);
    j / p.workers * p.slot
  }

  lemma {:induction false} BurstIsTight(p: Policy, n: nat)
    requires Sensible(p) && n <= p.pendingCap
    ensures |Plan(p, Burst(n))| == n
    ensures forall j :: 0 <= j < n ==> Plan(p, Burst(n))[j] == Booking(0, RowStart(p, j))
  {
    hide LiveAt, RowStart;
    if n > 0 {
      var before := Plan(p, Burst(n - 1));
      BurstIsTight(p, n - 1);
      assert Burst(n)[..n - 1] == Burst(n - 1);
      LiveAtMost(p, before, 0);
      NextRow(p, n - 1);
      assert Plan(p, Burst(n)) == before + [Booking(0, NextStart(p, before, 0))];
    }
  }

  lemma {:induction false} LiveAtMost(p: Policy, plan: seq<Booking>, t: nat)
    ensures LiveAt(p, plan, t) <= |plan|
  {
    if plan != [] {
      LiveAtMost(p, plan[..|plan| - 1], t);
    }
  }

  lemma NextRow(p: Policy, j: nat)
    requires p.workers > 0
    ensures RowStart(p, j) == if j < p.workers then 0 else RowStart(p, j - p.workers) + p.slot
  {
    if j < p.workers {
      QuotientUnique(j, p.workers, 0, j);
    } else {
      QuotientStep(j, p.workers);
      RowAbove(j / p.workers, p.slot);
    }
  }

  // So the completion bound cannot be improved: the last run of a full burst meets it exactly.
  lemma BurstMeetsTheBound(p: Policy)
    requires Sensible(p) && p.pendingCap > 0
    ensures var last := p.pendingCap - 1;
            var plan := Plan(p, Burst(p.pendingCap));
            |plan| == p.pendingCap && plan[last].start + p.slot == plan[last].arrived + Rounds(p) * p.slot
  {
    BurstIsTight(p, p.pendingCap);
    var last := p.pendingCap - 1;
    QuotientStep(last + p.workers, p.workers);
    assert (last / p.workers + 1) * p.slot == last / p.workers * p.slot + p.slot;
  }
}
