/** Putting runs of the protocol together. */
module ProtocolRuns {
  import opened Domain
  import opened Ledger
  import opened Protocol

  lemma OneStep(c: Config, s: State, step: Step)
    requires Enabled(c, s, step)
    ensures Legal(c, s, [step]) && Run(c, s, [step]) == Apply(c, s, step)
  {
    assert [step][1..] == [];
    assert Legal(c, Apply(c, s, step), []);
  }

  lemma {:induction false} RunAppends(c: Config, s: State, steps: seq<Step>, more: seq<Step>)
    requires Legal(c, s, steps) && Legal(c, Run(c, s, steps), more)
    ensures Legal(c, s, steps + more)
    ensures Run(c, s, steps + more) == Run(c, Run(c, s, steps), more)
    decreases |steps|
  {
    if steps == [] {
      assert [] + more == more;
    } else {
      RunAppends(c, Apply(c, s, steps[0]), steps[1..], more);
      assert (steps + more)[1..] == steps[1..] + more;
    }
  }

  lemma Extend(c: Config, s: State, steps: seq<Step>, step: Step) returns (longer: seq<Step>)
    requires Legal(c, s, steps) && Enabled(c, Run(c, s, steps), step)
    ensures longer == steps + [step]
    ensures Legal(c, s, longer) && Run(c, s, longer) == Apply(c, Run(c, s, steps), step)
  {
    longer := steps + [step];
    OneStep(c, Run(c, s, steps), step);
    RunAppends(c, s, steps, [step]);
  }

  /** Some run from the start leads to the state. */
  ghost predicate Reachable(c: Config, s: State) {
    exists start: Time, steps: seq<Step> :: Legal(c, Init(start), steps) && Run(c, Init(start), steps) == s
  }

  lemma Reached(c: Config, start: Time, steps: seq<Step>)
    requires Legal(c, Init(start), steps)
    ensures Reachable(c, Run(c, Init(start), steps))
  {
  }

  lemma Next(c: Config, s: State, step: Step) returns (s': State)
    requires Reachable(c, s) && Enabled(c, s, step)
    ensures s' == Apply(c, s, step) && Reachable(c, s')
  {
    s' := Apply(c, s, step);
    var start, steps :| Legal(c, Init(start), steps) && Run(c, Init(start), steps) == s;
    var longer := Extend(c, Init(start), steps, step);
  }

  lemma SingleKey(r: Record)
    ensures KeysOf([r]) == {r.key}
  {
    assert [r][0] == r;
  }

  /** A single record whose lease runs out at `at` is a batch. */
  lemma ReclaimIsBatch(c: Config, l: Events, r: Record, at: Time)
    requires l == map[r.key := r] && r.status == Processing && r.lastAttemptAt <= at - c.leaseTimeout
    ensures IsBatch(l, at, at - c.leaseTimeout, 1, [r])
    ensures TakeBatch(l, at, [r]) == map[r.key := Leased(r, at)]
  {
    assert [r][0] == r;
    SingleKey(r);
  }

  lemma OneNewTask(first: int, at: Time, r: Record)
    ensures NewTasks(first, at, [r]) == map[first := Start(Leased(r, at))]
  {
    assert first in NewTasks(first, at, [r]);
  }

  /** A single record whose retry is due is a batch. */
  lemma DueIsBatch(c: Config, l: Events, r: Record, at: Time)
    requires l == map[r.key := r] && r.status == RetryScheduled && r.nextRetryAt <= at
    ensures IsBatch(l, at, at - c.leaseTimeout, 1, [r])
    ensures TakeBatch(l, at, [r]) == map[r.key := Leased(r, at)]
  {
    assert [r][0] == r;
    SingleKey(r);
  }

  /** A worker leases the only event. */
  lemma Taken(c: Config, s: State, r: Record) returns (s': State)
    requires Reachable(c, s) && s.now >= 0 && s.ledger == map[r.key := r] && !r.IsCompletionRetry()
    requires IsBatch(s.ledger, s.now, s.now - c.leaseTimeout, 1, [r])
    requires TakeBatch(s.ledger, s.now, [r]) == map[r.key := Leased(r, s.now)]
    ensures Reachable(c, s') && s'.now == s.now && s'.nextTask == s.nextTask + 1
    ensures s'.ledger == map[r.key := Leased(r, s.now)] && s'.lives == LeasedLives(s, [r])
    ensures s'.tasks == s.tasks[s.nextTask := Applying(Leased(r, s.now))]
  {
    OneNewTask(s.nextTask, s.now, r);
    s' := Next(c, s, LeaseBatch(s.now, 1, [r]));
  }
}
