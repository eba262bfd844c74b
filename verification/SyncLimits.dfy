/** Why the conditions on the synchronisation model are there: what killing a
    task inside a blocking call does, and what blocking task 0 does. */
module SyncLimits {
  import opened Basics
  import opened Tasks
  import opened Sync

  predicate Killable(s: Sys, id: nat)
    requires Shape(s)
  {
    0 < id < s.n && id != s.cur && s.control[id] != Outside
  }

  /** Killing a task that was woken for `c` and has not checked yet keeps the
      whole invariant exactly when nobody else waits for `c`, or the other
      woken tasks can take all there is. */
  lemma KillWoken(s: Sys, id: nat, c: Chan)
    requires Inv(s) && Killable(s, id) && id in Woken(s, c)
    ensures Inv(Killed(s, id)) <==> s.waiters[c] == [] || Available(s, c) < |Woken(s, c)|
  {
    hide Harmless, NoLostWakeup;
    KilledQueues(s, id);
    KilledCounts(s, id);
    NobodyMissed(s, id);
    HarmlessIs(s, id, c);
  }

  lemma HarmlessIs(s: Sys, id: nat, c: Chan)
    requires Inv(s) && Killable(s, id) && id in Woken(s, c)
    ensures Harmless(s, id) <==> s.waiters[c] == [] || Available(s, c) < |Woken(s, c)|
  {
    hide NoLostWakeup, QueuesOk, CountsOk;
  }

  /** Killing a blocked task leaves its entry in the queue, so the invariant
      always fails; and the wakeup that reaches the entry makes the dead task,
      whose stack has been freed, ready to run. */
  lemma KillBlocked(s: Sys, id: nat)
    requires Inv(s) && Killable(s, id) && s.tasks[id].state == Blocked
    ensures !QueuesOk(Killed(s, id))
    ensures var c := s.control[id].c;
      s.waiters[c][0] == id ==> WakeOne(Killed(s, id), c).tasks[id].state == Ready
  {
    var c := s.control[id].c;
    var t := Killed(s, id);
    var k :| 0 <= k < |s.waiters[c]| && s.waiters[c][k] == id;
    assert !Entry(t, c, t.waiters[c][k]);
  }

  /** With a waiter queued and no permit free, a signal followed by the killing
      of the task it woke loses the wakeup whenever a second task waits and no
      other was on its way: a permit is free, and nobody will come for it. */
  lemma SignalThenKillStrands(s: Sys, i: nat)
    requires Inv(s) && Enabled(s, Signal(i)) && |s.waiters[Permit(i)]| >= 2
    requires s.sems[i] == |Woken(s, Permit(i))|
    ensures var c := Permit(i);
      var id := s.waiters[c][0];
      (StepKeeps(s, Signal(i));
       var t := Step(s, Signal(i));
       Inv(t) && Killable(t, id) && !NoLostWakeup(Killed(t, id)) && Available(Killed(t, id), c) > 0)
  {
    var c := Permit(i);
    var id := s.waiters[c][0];
    assert Entry(s, c, id);
    StepKeeps(s, Signal(i));
    var t := Step(s, Signal(i));
    hide CurrentOk, ControlOk, QueuesOk, CountsOk, NoLostWakeup;
    WakeCounts(GivePermit(s, i), c);
    assert Woken(GivePermit(s, i), c) == Woken(s, c);
    assert t.waiters[c] == s.waiters[c][1..];
    assert id < s.n && id != 0 && id != s.cur by {
      assert s.tasks[id].state == Blocked;
      assert CurrentOk(s) && Shape(s);
      NotRunnable(s, id);
    }
    KillWoken(t, id, c);
    KilledQueues(t, id);
    KilledCounts(t, id);
  }

  lemma NotRunnable(s: Sys, id: nat)
    requires Shape(s) && CurrentOk(s) && id < MAX_TASKS && s.tasks[id].state == Blocked && s.tasks[s.cur].state == Running
    ensures 0 < id < s.n && id != s.cur
  {
  }

  /** No other task below `n` can run or is due. */
  predicate NobodyElse(s: Sys, now: nat) {
    forall k: nat :: 0 < k < s.n && k < MAX_TASKS ==> !Runnable(s.tasks[k]) && !Due(s.tasks[k], now)
  }

  /** Task 0 must not block: if it does, the scheduler comes straight back to it
      still blocked if and only if it found room in the queue and no other task
      can run or is due; and then its next check queues it a second time. */
  lemma TaskZeroQueuesTwice(s: Sys, c: Chan, now: nat)
    requires Inv(s) && s.cur == 0 && c in s.waiters
    ensures var back := SchedStep(Block(s, c, NO_MSG), now);
      (back.cur == 0 && back.tasks[0].state == Blocked <==>
        |s.waiters[c]| < WAITQ_ROOM && NobodyElse(s, now)) &&
      (back.cur == 0 && back.tasks[0].state == Blocked && |s.waiters[c]| + 1 < WAITQ_ROOM ==>
        Block(back, c, NO_MSG).waiters[c] == s.waiters[c] + [0, 0] && !NoDup(Block(back, c, NO_MSG).waiters[c]))
  {
    hide Pick, QueuesOk, ControlOk, CountsOk, NoLostWakeup;
    var q := s.waiters[c];
    var once := Block(s, c, NO_MSG);
    var w := WakeSleepers(once.tasks, s.n, now);
    forall k: nat | 0 < k < s.n ensures Runnable(w[k]) <==> Runnable(s.tasks[k]) || Due(s.tasks[k], now) {
    }
    PickFirst(w, s.n, 0);
    var back := SchedStep(once, now);
    assert w[0] == once.tasks[0];
    if back.cur == 0 && back.tasks[0].state == Blocked && |q| + 1 < WAITQ_ROOM {
      var r := Block(back, c, NO_MSG).waiters[c];
      assert r == q + [0, 0];
      assert r[|q|] == r[|q| + 1];
    }
  }
}
