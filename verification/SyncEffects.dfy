/** What each step of the blocking primitives does to the whole state, field by
    field: what is handed over, who is woken, who waits, what stays. */
module SyncEffects {
  import opened Basics
  import opened Tasks
  import opened Sync
  import opened SyncRuns

  /** The task that has waited longest on `c`, if any, is ready; every other task
      and every other queue is as it was. */
  predicate FirstWoken(s: Sys, t: Sys, c: Chan)
    requires c in s.waiters
  {
    t.cur == s.cur && t.n == s.n &&
    if s.waiters[c] == [] then t.tasks == s.tasks && t.waiters == s.waiters
    else
      var w := s.waiters[c][0];
      w < MAX_TASKS && t.waiters == s.waiters[c := s.waiters[c][1..]] && t.tasks == s.tasks[w := Task(Ready, s.tasks[w].wake)]
  }

  /** The current task is the last in the queue of `c`, blocked, with message `m`
      in hand, and nothing else has happened. */
  predicate NowWaits(s: Sys, t: Sys, c: Chan, m: Msg)
    requires c in s.waiters && s.cur < MAX_TASKS == |s.control|
  {
    t == s.(tasks := s.tasks[s.cur := Task(Blocked, 0)], control := s.control[s.cur := Leaving(c, m)],
            waiters := s.waiters[c := s.waiters[c] + [s.cur]])
  }

  /** Inside no call, the others where they were. */
  predicate Back(s: Sys, t: Sys)
    requires s.cur < |s.control|
  {
    t.control == s.control[s.cur := Outside]
  }

  /** Counts and histories are as they were. */
  predicate SameSems(s: Sys, t: Sys) {
    t.sems == s.sems && t.waits == s.waits && t.signals == s.signals && t.holders == s.holders
  }

  predicate SameQueues(s: Sys, t: Sys) {
    t.rings == s.rings && t.sent == s.sent && t.received == s.received
  }

  lemma BlockIs(s: Sys, c: Chan, m: Msg)
    requires Inv(s) && c in s.waiters && s.tasks[s.cur].state == Running && s.cur != 0
    ensures NowWaits(s, Block(s, c, m), c, m)
  {
    hide Inv, QueuesOk;
    QueueHasRoom(s, c);
  }

  lemma WokenIs(s: Sys, c: Chan)
    requires c in s.waiters && (s.waiters[c] != [] ==> s.waiters[c][0] < MAX_TASKS)
    ensures var t := WakeOne(s, c);
      FirstWoken(s, t, c) && SameSems(s, t) && SameQueues(s, t) && t.control == s.control
  {
  }

  /** Waiting on a semaphore: a permit is taken, or the task waits for one. */
  lemma WaitEffect(s: Sys, i: nat)
    requires Inv(s) && Enabled(s, Wait(i))
    ensures var t := Step(s, Wait(i));
      if s.sems[i] > 0 then
        t == s.(control := s.control[s.cur := Outside], sems := s.sems[i := s.sems[i] - 1],
                waits := s.waits[i := s.waits[i] + 1], holders := s.holders[i := s.holders[i] + multiset{s.cur}])
      else NowWaits(s, t, Permit(i), Msg(0, 0, []))
  {
    hide QueuesOk, ControlOk, NoLostWakeup;
    if s.sems[i] <= 0 {
      BlockIs(s, Permit(i), NO_MSG);
    }
  }

  /** Without blocking, a permit is taken or nothing happens. */
  lemma TryWaitEffect(s: Sys, i: nat)
    requires Inv(s) && Enabled(s, TryWait(i))
    ensures var t := Step(s, TryWait(i));
      if s.sems[i] > 0 then
        t == s.(sems := s.sems[i := s.sems[i] - 1], waits := s.waits[i := s.waits[i] + 1],
                holders := s.holders[i := s.holders[i] + multiset{s.cur}])
      else t == s
  {
    hide QueuesOk, ControlOk, NoLostWakeup;
  }

  /** A signal adds a permit, whoever waits, and readies the first waiter. */
  lemma SignalEffect(s: Sys, i: nat)
    requires Inv(s) && Enabled(s, Signal(i))
    ensures var t := Step(s, Signal(i));
      FirstWoken(s, t, Permit(i)) && SameQueues(s, t) && t.control == s.control &&
      t.sems == s.sems[i := s.sems[i] + 1] && t.signals == s.signals[i := s.signals[i] + 1] && t.waits == s.waits &&
      t.holders == s.holders[i := s.holders[i] - multiset{s.cur}]
  {
    hide ControlOk, NoLostWakeup, CountsOk;
    HeadsOk(s);
    WokenIs(GivePermit(s, i), Permit(i));
  }

  /** Message `m` is the newest of queue `i`, and a receiver is woken. */
  predicate Sent(s: Sys, t: Sys, i: nat, m: Msg)
    requires Shape(s) && i < |s.rings|
  {
    t.rings == s.rings[i := s.rings[i] + [m]] && t.sent == s.sent[i := s.sent[i] + [m]] && t.received == s.received &&
    FirstWoken(s, t, Message(i)) && SameSems(s, t)
  }

  lemma PutEffect(s: Sys, u: Sys, i: nat, m: Msg)
    requires Inv(s) && i < |s.rings| && (u == s || u == s.(control := s.control[s.cur := Outside]))
    ensures Message(i) in s.waiters && (s.waiters[Message(i)] != [] ==> s.waiters[Message(i)][0] < MAX_TASKS)
    ensures Sent(s, WakeOne(u.(rings := s.rings[i := s.rings[i] + [m]], sent := s.sent[i := s.sent[i] + [m]]), Message(i)), i, m)
  {
    hide ControlOk, NoLostWakeup, CountsOk;
    HeadsOk(s);
    WokenIs(u.(rings := s.rings[i := s.rings[i] + [m]], sent := s.sent[i := s.sent[i] + [m]]), Message(i));
  }

  /** Sending: the message is the sender's own, of the kind given, with the first
      64 bytes of the data.  With room it is queued at once; without, the sender
      waits with just this message. */
  lemma SendEffect(s: Sys, i: nat, kind: int, data: seq<byte>)
    requires Inv(s) && Enabled(s, Send(i, kind, data)) && s.control[s.cur] == Outside
    ensures var t := Step(s, Send(i, kind, data));
      var m := Msg(s.cur, kind, data[..if |data| < 64 then |data| else 64]);
      if |s.rings[i]| < 16 then Sent(s, t, i, m) && Back(s, t) else NowWaits(s, t, Room(i), m)
  {
    hide QueuesOk, ControlOk, NoLostWakeup;
    var m := Packed(s.cur, kind, data);
    assert m.data == data[..if |data| < 64 then |data| else 64];
    if |s.rings[i]| < 16 {
      PutEffect(s, Done(s), i, m);
      assert Done(PutMessage(s, i, m)) == Done(s).(rings := s.rings[i := s.rings[i] + [m]], sent := s.sent[i := s.sent[i] + [m]]);
    } else {
      BlockIs(s, Room(i), m);
    }
  }

  /** A sender that comes back sends the message it has been waiting with, or
      waits on with it. */
  lemma ResendEffect(s: Sys, i: nat, kind: int, data: seq<byte>)
    requires Inv(s) && Enabled(s, Send(i, kind, data)) && s.control[s.cur].Retry?
    ensures var t := Step(s, Send(i, kind, data));
      var m := s.control[s.cur].m;
      if |s.rings[i]| < 16 then Sent(s, t, i, m) && Back(s, t) else NowWaits(s, t, Room(i), m)
  {
    hide QueuesOk, ControlOk, NoLostWakeup;
    var m := s.control[s.cur].m;
    if |s.rings[i]| < 16 {
      PutEffect(s, Done(s), i, m);
      assert Done(PutMessage(s, i, m)) == Done(s).(rings := s.rings[i := s.rings[i] + [m]], sent := s.sent[i := s.sent[i] + [m]]);
    } else {
      BlockIs(s, Room(i), m);
    }
  }

  /** Without blocking, the same message is queued, or nothing happens. */
  lemma TrySendEffect(s: Sys, i: nat, kind: int, data: seq<byte>)
    requires Inv(s) && Enabled(s, TrySend(i, kind, data))
    ensures var t := Step(s, TrySend(i, kind, data));
      if |s.rings[i]| < 16 then Sent(s, t, i, Msg(s.cur, kind, data[..if |data| < 64 then |data| else 64])) && t.control == s.control
      else t == s
  {
    hide QueuesOk, ControlOk, NoLostWakeup;
    var m := Packed(s.cur, kind, data);
    assert m.data == data[..if |data| < 64 then |data| else 64];
    if |s.rings[i]| < 16 {
      PutEffect(s, s, i, m);
    }
  }

  /** The oldest message has left queue `i`, whole, and a sender is woken. */
  predicate Received(s: Sys, t: Sys, i: nat)
    requires Shape(s) && i < |s.rings| && s.rings[i] != []
  {
    t.rings == s.rings[i := s.rings[i][1..]] && t.received == s.received[i := s.received[i] + [s.rings[i][0]]] &&
    t.sent == s.sent && FirstWoken(s, t, Room(i)) && SameSems(s, t)
  }

  /** Receiving: the oldest message is taken, or the task waits for one. */
  lemma ReceiveEffect(s: Sys, i: nat)
    requires Inv(s) && Enabled(s, Receive(i))
    ensures var t := Step(s, Receive(i));
      if s.rings[i] != [] then Received(s, t, i) && Back(s, t) else NowWaits(s, t, Message(i), Msg(0, 0, []))
  {
    hide ControlOk, NoLostWakeup, CountsOk;
    HeadsOk(s);
    if s.rings[i] != [] {
      WokenIs(Done(GetMessage(s, i)), Room(i));
    } else {
      BlockIs(s, Message(i), NO_MSG);
    }
  }

  /** Without blocking, the oldest message is taken or nothing happens. */
  lemma TryReceiveEffect(s: Sys, i: nat)
    requires Inv(s) && Enabled(s, TryReceive(i))
    ensures var t := Step(s, TryReceive(i));
      if s.rings[i] != [] then Received(s, t, i) && t.control == s.control else t == s
  {
    hide ControlOk, NoLostWakeup, CountsOk;
    HeadsOk(s);
    if s.rings[i] != [] {
      WokenIs(GetMessage(s, i), Room(i));
    }
  }

  // ----- tasks -----

  /** Creation takes the first slot after 0 that is unused or dead and makes it
      ready; when there is none nothing happens. */
  lemma CreateEffect(s: Sys, id: nat)
    requires Inv(s) && Enabled(s, Create) && 0 < id <= MAX_TASKS
    requires forall k :: 0 < k < id ==> s.tasks[k].state != Unused && s.tasks[k].state != Dead
    requires id < MAX_TASKS ==> s.tasks[id].state == Unused || s.tasks[id].state == Dead
    ensures Step(s, Create) ==
      if id == MAX_TASKS then s
      else s.(tasks := s.tasks[id := Task(Ready, 0)], n := if s.n < id + 1 then id + 1 else s.n)
  {
    hide Inv;
    FreeSlotIs(s.tasks, 1, id);
  }

  lemma {:induction false} FreeSlotIs(tasks: Table, i: nat, id: nat)
    requires i <= id <= MAX_TASKS
    requires forall k :: i <= k < id ==> tasks[k].state != Unused && tasks[k].state != Dead
    requires id < MAX_TASKS ==> tasks[id].state == Unused || tasks[id].state == Dead
    ensures FreeSlot(tasks, i) == id
    decreases id - i
  {
    if i < id {
      FreeSlotIs(tasks, i + 1, id);
    }
  }

  /** Going to sleep and ending: another task runs, and this one is left with its
      wake time, or dead, for good until a creation takes its slot. */
  lemma LeaveEffect(s: Sys, wake: nat, now: nat)
    requires Inv(s) && Enabled(s, Exit(now))
    ensures Enabled(s, Sleep(wake, now))
    ensures var t := Step(s, Sleep(wake, now));
      if wake != 0 && now >= wake then t.tasks[s.cur].state == Ready || t.tasks[s.cur].state == Running
      else t.tasks[s.cur] == Task(Sleeping, wake) && t.cur != s.cur
    ensures var t := Step(s, Exit(now)); t.tasks[s.cur].state == Dead && t.cur != s.cur
  {
    hide QueuesOk, ControlOk, NoLostWakeup, CountsOk, Schedule;
    var a, b := s.tasks[s.cur := Task(Sleeping, wake)], s.tasks[s.cur := s.tasks[s.cur].(state := Dead)];
    assert Runnable(a[0]) && Runnable(b[0]);
    SleepEnds(a, s.n, s.cur, now, s.cur);
    ScheduleEffect(a, s.n, s.cur, now);
    ScheduleEffect(b, s.n, s.cur, now);
  }

  /** A live task other than 0 dies when killed, and with it the processor
      changes hands if it was the current one; other ids change nothing. */
  lemma KillEffect(s: Sys, id: nat, now: nat)
    requires Inv(s) && Enabled(s, Kill(id, now))
    ensures var t := Step(s, Kill(id, now));
      if 0 < id < s.n && s.tasks[id].state != Unused && s.tasks[id].state != Dead then
        t.tasks[id].state == Dead && t.control == s.control[id := Outside] && t.waiters == s.waiters && t.n == s.n &&
        SameSems(s, t) && SameQueues(s, t) &&
        (if id == s.cur then t.cur != id
         else t.cur == s.cur && forall k :: 0 <= k < MAX_TASKS && k != id ==> t.tasks[k] == s.tasks[k])
      else t == s
  {
    hide QueuesOk, ControlOk, NoLostWakeup, CountsOk, Schedule;
    if id == s.cur && id != 0 {
      var b := s.tasks[s.cur := s.tasks[s.cur].(state := Dead)];
      assert Runnable(b[0]);
      ScheduleEffect(b, s.n, s.cur, now);
    }
  }

  /** A blocking call's own scheduler call: from then on the task is to try
      again, with what it had in hand. */
  lemma ReschedEffect(s: Sys, now: nat)
    requires Inv(s) && Enabled(s, Resched(now))
    ensures var k := s.control[s.cur];
      var t := Step(s, Resched(now));
      k.Leaving? && t.control == s.control[s.cur := Retry(k.c, k.m)] && t.waiters == s.waiters &&
      SameSems(s, t) && SameQueues(s, t) &&
      Cpu(t.tasks, t.cur) == Schedule(s.tasks, s.n, s.cur, now)
  {
    hide QueuesOk, ControlOk, NoLostWakeup, CountsOk, Schedule;
  }

  /** Nothing the code does is ruled out: the running task may make any call from
      outside, the blocking ones unless it is task 0; a task that has just queued
      itself calls the scheduler; one that was chosen again repeats its call. */
  lemma AllCallsEnabled(s: Sys, i: nat, kind: int, data: seq<byte>, wake: nat, now: nat)
    requires Inv(s)
    ensures Enabled(s, Tick(now))
    ensures s.control[s.cur].Leaving? ==> Enabled(s, Resched(now))
    ensures s.control[s.cur] == Outside ==>
      Enabled(s, Create) && (s.cur != 0 ==> Enabled(s, Sleep(wake, now)) && Enabled(s, Exit(now))) &&
      (i < |s.sems| ==> Enabled(s, TryWait(i)) && Enabled(s, Signal(i)) && (s.cur != 0 ==> Enabled(s, Wait(i)))) &&
      (i < |s.rings| ==> (Enabled(s, TrySend(i, kind, data)) && Enabled(s, TryReceive(i)) &&
        (s.cur != 0 ==> Enabled(s, Send(i, kind, data)) && Enabled(s, Receive(i)))))
    ensures s.control[s.cur].Retry? ==>
      (match s.control[s.cur].c
       case Permit(j) => Enabled(s, Wait(j))
       case Room(j) => Enabled(s, Send(j, kind, data))
       case Message(j) => Enabled(s, Receive(j)))
  {
    hide QueuesOk, NoLostWakeup, CountsOk;
  }
}
