/** The scheduler, semaphores and message queues as code over the shared task
    table: each critical section is proved to be the step of the model. */
module Kernel {
  import opened Basics
  import opened Tasks
  import opened Sync

  const RING := 16

  /** `n` elements of a ring of 16 slots, from slot `at` on. */
  function Ring<T>(a: seq<T>, at: nat, n: nat): (r: seq<T>)
    requires |a| == RING && n <= RING
    ensures |r| == n
  {
    seq(n, k requires 0 <= k < n => a[(at + k) % RING])
  }

  /** Writing the slot after the last element appends to the ring. */
  lemma RingAppend<T>(a: seq<T>, at: nat, n: nat, x: T)
    requires |a| == RING && n < RING && at < RING
    ensures Ring(a[(at + n) % RING := x], at, n + 1) == Ring(a, at, n) + [x]
  {
  }

  lemma RingDrop<T>(a: seq<T>, at: nat, n: nat)
    requires |a| == RING && 0 < n <= RING && at < RING
    ensures Ring(a, (at + 1) % RING, n - 1) == Ring(a, at, n)[1..] && Ring(a, at, n)[0] == a[at]
  {
  }

  lemma RingTake<T>(a: seq<T>, at: nat, n: nat)
    requires |a| == RING && 0 < n <= RING && at < RING
    ensures Ring(a, at, n) == [a[at]] + Ring(a, (at + 1) % RING, n - 1)
  {
    RingDrop(a, at, n);
    var r := Ring(a, at, n);
    assert r == [r[0]] + r[1..];
  }

  lemma TailMoves(tail: nat, count: nat)
    requires tail < RING && 0 < count <= RING
    ensures (tail + 1) % RING < RING && ((tail + 1) % RING + (count - 1)) % RING == (tail + count) % RING
  {
  }

  /** The slot after `i` in the cyclic order, as the code computes it. */
  lemma NextSlot(i: nat, n: nat)
    requires i < n
    ensures (i + 1) % n == Succ(i, n)
  {
    if i + 1 == n {
      assert n % n == 0;
    }
  }

  lemma PickStep(tasks: Tasks.Table, n: nat, at: nat, left: nat)
    requires at < n <= MAX_TASKS
    ensures left == 0 ==> Pick(tasks, n, at, left) == at
    ensures left > 0 && Runnable(tasks[Succ(at, n)]) ==> Pick(tasks, n, at, left) == Succ(at, n)
    ensures left > 0 && !Runnable(tasks[Succ(at, n)]) ==> Pick(tasks, n, at, left) == Pick(tasks, n, Succ(at, n), left - 1)
  {
  }

  /** How many ids a queue with this head and tail holds. */
  function Held(head: nat, tail: nat): (r: nat)
    requires head < RING && tail < RING
    ensures r < RING && (tail + r) % RING == head
  {
    if head >= tail then head - tail else head + RING - tail
  }

  lemma HeldPush(head: nat, tail: nat)
    requires head < RING && tail < RING
    ensures (head + 1) % RING == Succ(head, RING)
    ensures Succ(head, RING) == tail <==> Held(head, tail) == WAITQ_ROOM
    ensures Succ(head, RING) != tail ==> Held(Succ(head, RING), tail) == Held(head, tail) + 1
  {
  }

  /** The circular queue of task ids inside a semaphore or message queue. */
  class WaitQueue {
    const slots: array<nat>
    var head: nat
    var tail: nat

    ghost predicate Valid()
      reads this
    {
      slots.Length == RING && head < RING && tail < RING
    }

    ghost function Contents(): seq<nat>
      reads this, slots
      requires Valid()
    {
      Ring(slots[..], tail, Held(head, tail))
    }

    constructor ()
      ensures Valid() && Contents() == [] && fresh(slots)
    {
      slots := new nat[RING];
      head := 0;
      tail := 0;
    }

    /** Append `id` unless the queue holds 15 tasks already. */
    method Push(id: nat) returns (ok: bool)
      requires Valid()
      modifies this`head, slots
      ensures Valid() && ok == (|old(Contents())| < WAITQ_ROOM)
      ensures Contents() == if ok then old(Contents()) + [id] else old(Contents())
    {
      HeldPush(head, tail);
      var next := (head + 1) % RING;
      if next == tail {
        return false;
      }
      RingAppend(slots[..], tail, Held(head, tail), id);
      hide Ring;
      slots[head] := id;
      head := next;
      ok := true;
    }

    /** Remove the oldest id; -1 when there is none. */
    method Pop() returns (id: int)
      requires Valid()
      modifies this`tail
      ensures Valid()
      ensures id == (if old(Contents()) == [] then -1 else old(Contents())[0])
      ensures Contents() == if old(Contents()) == [] then [] else old(Contents())[1..]
    {
      if tail == head {
        return -1;
      }
      RingDrop(slots[..], tail, Held(head, tail));
      id := slots[tail];
      tail := (tail + 1) % RING;
    }
  }

  /** The task table with the current task and the number of slots in use. */
  class TaskTable {
    const tasks: array<Task>
    var cur: nat
    var n: nat

    ghost predicate Valid()
      reads this
    {
      tasks.Length == MAX_TASKS && cur < n <= MAX_TASKS
    }

    ghost function Table(): Tasks.Table
      reads this, tasks
      requires Valid()
    {
      tasks[..]
    }

    constructor ()
      ensures Valid() && fresh(tasks) && cur == 0 && n == 1
      ensures tasks[0] == Task(Running, 0)
      ensures forall i :: 0 < i < MAX_TASKS ==> tasks[i] == Task(Unused, 0)
    {
      tasks := new Task[MAX_TASKS](i => if i == 0 then Task(Running, 0) else Task(Unused, 0));
      cur := 0;
      n := 1;
    }

    method Wake(now: nat)
      requires Valid()
      modifies tasks
      ensures Table() == WakeSleepers(old(Table()), n, now)
    {
      ghost var was := tasks[..];
      for i := 0 to n
        invariant tasks[..] == WakeSleepers(was, i, now)
      {
        if tasks[i].state == Sleeping && tasks[i].wake != 0 && now >= tasks[i].wake {
          tasks[i] := Task(Ready, 0);
        }
      }
    }

    /** The first runnable task in cyclic order after `prev`. */
    method FindNext(prev: nat) returns (next: nat)
      requires Valid() && prev < n
      ensures next < n && next == Pick(Table(), n, prev, n)
    {
      next := prev;
      var i: nat := 0;
      hide Pick;
      while i < n
        invariant i <= n && next < n
        invariant Pick(Table(), n, prev, n) == Pick(Table(), n, next, n - i)
      {
        NextSlot(next, n);
        PickStep(Table(), n, next, n - i);
        next := (next + 1) % n;
        if tasks[next].state == Ready || tasks[next].state == Running {
          return;
        }
        i := i + 1;
      }
      PickStep(Table(), n, next, 0);
    }

    /** One call of the scheduler. */
    method Schedule(now: nat)
      requires Valid()
      modifies tasks, this`cur
      ensures Valid()
      ensures Cpu(Table(), cur) == Tasks.Schedule(old(Table()), n, old(cur), now)
    {
      Wake(now);
      if n <= 1 {
        return;
      }
      hide Pick;
      var prev := cur;
      var next := FindNext(prev);
      if next == prev {
        return;
      }
      if tasks[prev].state == Running {
        tasks[prev] := tasks[prev].(state := Ready);
      }
      tasks[next] := tasks[next].(state := Running);
      cur := next;
    }

    /** Reuse the first unused or dead slot after task 0; -1 when all are taken. */
    method Create() returns (id: int)
      requires Valid()
      modifies tasks, this`n
      ensures Valid()
      ensures var slot := FreeSlot(old(Table()), 1);
        if slot == MAX_TASKS then id == -1 && Table() == old(Table()) && n == old(n)
        else id == slot && Table() == old(Table())[slot := Task(Ready, 0)] && n == if slot >= old(n) then slot + 1 else old(n)
    {
      var i := 1;
      while i < MAX_TASKS
        invariant 1 <= i <= MAX_TASKS
        invariant FreeSlot(tasks[..], 1) == FreeSlot(tasks[..], i)
      {
        if tasks[i].state == Unused || tasks[i].state == Dead {
          break;
        }
        i := i + 1;
      }
      if i == MAX_TASKS {
        return -1;
      }
      tasks[i] := Task(Ready, 0);
      if i >= n {
        n := i + 1;
      }
      id := i;
    }

    method Sleep(wake: nat, now: nat)
      requires Valid()
      modifies tasks, this`cur
      ensures Valid()
      ensures Cpu(Table(), cur) ==
        Tasks.Schedule(old(Table())[old(cur) := Task(Sleeping, wake)], n, old(cur), now)
    {
      tasks[cur] := Task(Sleeping, wake);
      Schedule(now);
    }

    /** The current task ends. */
    method Exit(now: nat)
      requires Valid()
      modifies tasks, this`cur
      ensures Valid()
      ensures Cpu(Table(), cur) ==
        Tasks.Schedule(old(Table())[old(cur) := old(Table())[old(cur)].(state := Dead)], n, old(cur), now)
    {
      tasks[cur] := tasks[cur].(state := Dead);
      Schedule(now);
    }

    /** -1 for task 0, for ids out of range and for slots with no live task. */
    method Kill(id: int, now: nat) returns (r: int)
      requires Valid()
      modifies tasks, this`cur
      ensures Valid()
      ensures r == -1 <==> id <= 0 || id >= n || old(Table())[id].state == Unused || old(Table())[id].state == Dead
      ensures r == -1 || r == 0
      ensures r == -1 ==> Table() == old(Table()) && cur == old(cur)
      ensures r == 0 ==>
        var dead := old(Table())[id := old(Table())[id].(state := Dead)];
        Cpu(Table(), cur) == (if id == old(cur) then Tasks.Schedule(dead, n, old(cur), now) else Cpu(dead, old(cur)))
    {
      if id <= 0 || id >= n {
        return -1;
      }
      if tasks[id].state == Unused || tasks[id].state == Dead {
        return -1;
      }
      tasks[id] := tasks[id].(state := Dead);
      if id == cur {
        Schedule(now);
      }
      r := 0;
    }
  }

  method WakeFirst(queue: WaitQueue, k: TaskTable)
    requires queue.Valid() && k.Valid()
    requires queue.Contents() != [] ==> queue.Contents()[0] < MAX_TASKS
    modifies queue`tail, k.tasks
    ensures queue.Valid() && k.Valid()
    ensures (k.Table(), queue.Contents()) == Roused(old(k.Table()), old(queue.Contents()))
  {
    var id := queue.Pop();
    if id >= 0 {
      k.tasks[id] := k.tasks[id].(state := Ready);
    }
  }

  method BlockCurrent(queue: WaitQueue, k: TaskTable)
    requires queue.Valid() && k.Valid()
    modifies queue`head, queue.slots, k.tasks
    ensures queue.Valid() && k.Valid()
    ensures (k.Table(), queue.Contents()) == Queued(old(k.Table()), k.cur, old(queue.Contents()))
  {
    var me := k.cur;
    var ok := queue.Push(me);
    if ok {
      k.tasks[me] := Task(Blocked, 0);
    }
  }

  class Semaphore {
    var count: int
    const queue: WaitQueue

    ghost predicate Valid()
      reads this, queue
    {
      queue.Valid()
    }

    /** The queued ids are task slots. */
    ghost predicate IdsOk()
      reads this, queue, queue.slots
      requires Valid()
    {
      forall k :: 0 <= k < |queue.Contents()| ==> queue.Contents()[k] < MAX_TASKS
    }

    constructor (count: int)
      ensures Valid() && this.count == count && queue.Contents() == [] && fresh(queue) && fresh(queue.slots)
    {
      this.count := count;
      queue := new WaitQueue();
    }

    /** One round of waiting: take a permit, or queue up and block. */
    method Wait(k: TaskTable) returns (taken: bool)
      requires Valid() && k.Valid()
      modifies this`count, queue`head, queue.slots, k.tasks
      ensures Valid() && k.Valid() && taken == (old(count) > 0)
      ensures count == old(count) - if taken then 1 else 0
      ensures (k.Table(), queue.Contents()) ==
        if taken then (old(k.Table()), old(queue.Contents()))
        else Queued(old(k.Table()), k.cur, old(queue.Contents()))
    {
      if count > 0 {
        count := count - 1;
        return true;
      }
      BlockCurrent(queue, k);
      taken := false;
    }

    method Signal(k: TaskTable)
      requires Valid() && k.Valid() && IdsOk()
      modifies this`count, queue`tail, k.tasks
      ensures Valid() && k.Valid() && IdsOk() && count == old(count) + 1
      ensures (k.Table(), queue.Contents()) == Roused(old(k.Table()), old(queue.Contents()))
    {
      var id := queue.Pop();
      if id >= 0 {
        count := count + 1;
        k.tasks[id] := k.tasks[id].(state := Ready);
      } else {
        count := count + 1;
      }
    }

    method TryWait() returns (taken: bool)
      requires Valid()
      modifies this`count
      ensures Valid() && taken == (old(count) > 0) && count == old(count) - if taken then 1 else 0
    {
      taken := count > 0;
      if taken {
        count := count - 1;
      }
    }
  }

  class MessageQueue {
    const msgs: array<Msg>
    var head: nat
    var tail: nat
    var count: nat
    const receivers: WaitQueue
    const senders: WaitQueue

    ghost predicate Valid()
      reads this, receivers, senders
    {
      msgs.Length == RING && head < RING && tail < RING && count <= RING && head == (tail + count) % RING &&
      receivers.Valid() && senders.Valid() && receivers != senders && receivers.slots != senders.slots
    }

    ghost predicate IdsOk()
      reads this, receivers, senders, receivers.slots, senders.slots
      requires Valid()
    {
      (forall k :: 0 <= k < |receivers.Contents()| ==> receivers.Contents()[k] < MAX_TASKS) &&
      (forall k :: 0 <= k < |senders.Contents()| ==> senders.Contents()[k] < MAX_TASKS)
    }

    /** The queued messages, oldest first. */
    ghost function Contents(): seq<Msg>
      reads this, msgs, receivers, senders
      requires Valid()
    {
      Ring(msgs[..], tail, count)
    }

    constructor ()
      ensures Valid() && Contents() == [] && receivers.Contents() == [] && senders.Contents() == []
      ensures fresh(msgs) && fresh(receivers) && fresh(senders) && fresh(receivers.slots) && fresh(senders.slots)
    {
      msgs := new Msg[RING](_ => NO_MSG);
      head := 0;
      tail := 0;
      count := 0;
      receivers := new WaitQueue();
      senders := new WaitQueue();
    }

    method Enqueue(sender: nat, kind: int, data: seq<byte>)
      requires Valid() && count < RING
      modifies this`head, this`count, msgs
      ensures Valid() && Contents() == old(Contents()) + [Msg(sender, kind, data[..Fitting(data)])]
    {
      var len := |data|;
      if len > MQ_MSG_SIZE {
        len := MQ_MSG_SIZE;
      }
      var m := Msg(sender, kind, data[..len]);
      RingAppend(msgs[..], tail, count, m);
      msgs[head] := m;
      head := (head + 1) % RING;
      count := count + 1;
    }

    method Dequeue() returns (m: Msg)
      requires Valid() && count > 0
      modifies this`tail, this`count
      ensures Valid() && [m] + Contents() == old(Contents())
    {
      hide Ring;
      RingTake(msgs[..], tail, count);
      TailMoves(tail, count);
      m := msgs[tail];
      tail := (tail + 1) % RING;
      count := count - 1;
    }

    /** One round of sending: queue the message and wake a receiver, or queue
        up for room and block. */
    method Send(kind: int, data: seq<byte>, k: TaskTable) returns (done: bool)
      requires Valid() && k.Valid() && IdsOk()
      modifies this`head, this`count, msgs, receivers`tail, senders`head, senders.slots, k.tasks
      ensures Valid() && k.Valid() && done == (|old(Contents())| < MQ_MAX_MSGS)
      ensures Contents() ==
        if done then old(Contents()) + [Msg(k.cur, kind, data[..Fitting(data)])] else old(Contents())
      ensures done ==> (senders.Contents() == old(senders.Contents()) &&
        (k.Table(), receivers.Contents()) == Roused(old(k.Table()), old(receivers.Contents())))
      ensures !done ==> (receivers.Contents() == old(receivers.Contents()) &&
        (k.Table(), senders.Contents()) == Queued(old(k.Table()), k.cur, old(senders.Contents())))
    {
      if count < MQ_MAX_MSGS {
        Enqueue(k.cur, kind, data);
        WakeFirst(receivers, k);
        return true;
      }
      BlockCurrent(senders, k);
      done := false;
    }

    method TrySend(kind: int, data: seq<byte>, k: TaskTable) returns (done: bool)
      requires Valid() && k.Valid() && IdsOk()
      modifies this`head, this`count, msgs, receivers`tail, k.tasks
      ensures Valid() && k.Valid() && done == (|old(Contents())| < MQ_MAX_MSGS)
      ensures Contents() ==
        if done then old(Contents()) + [Msg(k.cur, kind, data[..Fitting(data)])] else old(Contents())
      ensures senders.Contents() == old(senders.Contents())
      ensures (k.Table(), receivers.Contents()) ==
        if done then Roused(old(k.Table()), old(receivers.Contents())) else (old(k.Table()), old(receivers.Contents()))
    {
      if count >= MQ_MAX_MSGS {
        return false;
      }
      Enqueue(k.cur, kind, data);
      WakeFirst(receivers, k);
      done := true;
    }

    /** One round of receiving: take the oldest message and wake a sender, or
        queue up for a message and block. */
    method Receive(k: TaskTable) returns (done: bool, m: Msg)
      requires Valid() && k.Valid() && IdsOk()
      modifies this`tail, this`count, senders`tail, receivers`head, receivers.slots, k.tasks
      ensures Valid() && k.Valid() && done == (old(Contents()) != [])
      ensures if done then [m] + Contents() == old(Contents()) else Contents() == old(Contents())
      ensures done ==> (receivers.Contents() == old(receivers.Contents()) &&
        (k.Table(), senders.Contents()) == Roused(old(k.Table()), old(senders.Contents())))
      ensures !done ==> (senders.Contents() == old(senders.Contents()) &&
        (k.Table(), receivers.Contents()) == Queued(old(k.Table()), k.cur, old(receivers.Contents())))
    {
      if count > 0 {
        m := Dequeue();
        WakeFirst(senders, k);
        return true, m;
      }
      BlockCurrent(receivers, k);
      return false, NO_MSG;
    }

    method TryReceive(k: TaskTable) returns (done: bool, m: Msg)
      requires Valid() && k.Valid() && IdsOk()
      modifies this`tail, this`count, senders`tail, k.tasks
      ensures Valid() && k.Valid() && done == (old(Contents()) != [])
      ensures if done then [m] + Contents() == old(Contents()) else Contents() == old(Contents())
      ensures receivers.Contents() == old(receivers.Contents())
      ensures (k.Table(), senders.Contents()) ==
        if done then Roused(old(k.Table()), old(senders.Contents())) else (old(k.Table()), old(senders.Contents()))
    {
      if count == 0 {
        return false, NO_MSG;
      }
      m := Dequeue();
      WakeFirst(senders, k);
      done := true;
    }
  }

  // ----- the critical sections are the steps of the model -----

  /** What a semaphore's code sees of the system. */
  datatype SemView = SemView(tasks: Table, count: int, queue: seq<nat>)

  ghost function SemOf(s: Sys, i: nat): SemView
    requires Inv(s) && i < |s.sems|
  {
    SemView(s.tasks, s.sems[i], s.waiters[Permit(i)])
  }

  /** `Semaphore.Wait` computes the model's wait step. */
  lemma WaitIsStep(s: Sys, i: nat)
    requires Inv(s) && Enabled(s, Wait(i))
    ensures (StepKeeps(s, Wait(i));
      var v := SemOf(s, i);
      var t := Step(s, Wait(i));
      var (tasks, queue) := if v.count > 0 then (v.tasks, v.queue) else Queued(v.tasks, s.cur, v.queue);
      t.cur == s.cur && SemOf(t, i) == SemView(tasks, v.count - (if v.count > 0 then 1 else 0), queue))
  {
    StepKeeps(s, Wait(i));
    hide CurrentOk, ControlOk, QueuesOk, NoLostWakeup;
  }

  /** `Semaphore.Signal` computes the model's signal step. */
  lemma SignalIsStep(s: Sys, i: nat)
    requires Inv(s) && Enabled(s, Signal(i))
    ensures (StepKeeps(s, Signal(i)); HeadsOk(s);
      var v := SemOf(s, i);
      var t := Step(s, Signal(i));
      var (tasks, queue) := Roused(v.tasks, v.queue);
      t.cur == s.cur && SemOf(t, i) == SemView(tasks, v.count + 1, queue))
  {
    StepKeeps(s, Signal(i));
    HeadsOk(s);
    hide CurrentOk, ControlOk, QueuesOk, NoLostWakeup;
  }

  datatype QueueView = QueueView(tasks: Table, ring: seq<Msg>, receivers: seq<nat>, senders: seq<nat>)

  ghost function QueueOf(s: Sys, i: nat): QueueView
    requires Inv(s) && i < |s.rings|
  {
    QueueView(s.tasks, s.rings[i], s.waiters[Message(i)], s.waiters[Room(i)])
  }

  /** `MessageQueue.Send` computes the model's send step, both for a first
      attempt and for a retry of the same message. */
  lemma SendIsStep(s: Sys, i: nat, kind: int, data: seq<byte>)
    requires Inv(s) && Enabled(s, Send(i, kind, data))
    requires s.control[s.cur].Retry? ==> s.control[s.cur].m == Msg(s.cur, kind, data[..Fitting(data)])
    ensures (StepKeeps(s, Send(i, kind, data)); HeadsOk(s);
      var v := QueueOf(s, i);
      var t := Step(s, Send(i, kind, data));
      t.cur == s.cur && QueueOf(t, i) ==
        if |v.ring| < MQ_MAX_MSGS then
          var (tasks, receivers) := Roused(v.tasks, v.receivers);
          QueueView(tasks, v.ring + [Msg(s.cur, kind, data[..Fitting(data)])], receivers, v.senders)
        else
          var (tasks, senders) := Queued(v.tasks, s.cur, v.senders);
          QueueView(tasks, v.ring, v.receivers, senders))
  {
    StepKeeps(s, Send(i, kind, data));
    HeadsOk(s);
    assert Packed(s.cur, kind, data).data == data[..Fitting(data)];
    hide CurrentOk, ControlOk, QueuesOk, NoLostWakeup, Packed;
  }

  /** `MessageQueue.Receive` computes the model's receive step. */
  lemma ReceiveIsStep(s: Sys, i: nat)
    requires Inv(s) && Enabled(s, Receive(i))
    ensures (StepKeeps(s, Receive(i)); HeadsOk(s);
      var v := QueueOf(s, i);
      var t := Step(s, Receive(i));
      t.cur == s.cur && QueueOf(t, i) ==
        if v.ring != [] then
          var (tasks, senders) := Roused(v.tasks, v.senders);
          QueueView(tasks, v.ring[1..], v.receivers, senders)
        else
          var (tasks, receivers) := Queued(v.tasks, s.cur, v.receivers);
          QueueView(tasks, v.ring, receivers, v.senders))
  {
    StepKeeps(s, Receive(i));
    HeadsOk(s);
    hide CurrentOk, ControlOk, QueuesOk, NoLostWakeup;
  }

  /** `Semaphore.TryWait` computes the model's non-blocking wait. */
  lemma TryWaitIsStep(s: Sys, i: nat)
    requires Inv(s) && Enabled(s, TryWait(i))
    ensures (StepKeeps(s, TryWait(i));
      var v := SemOf(s, i);
      var t := Step(s, TryWait(i));
      t.cur == s.cur && SemOf(t, i) == v.(count := v.count - if v.count > 0 then 1 else 0))
  {
    StepKeeps(s, TryWait(i));
    hide CurrentOk, ControlOk, QueuesOk, NoLostWakeup;
  }

  /** `MessageQueue.TrySend` computes the model's non-blocking send. */
  lemma TrySendIsStep(s: Sys, i: nat, kind: int, data: seq<byte>)
    requires Inv(s) && Enabled(s, TrySend(i, kind, data))
    ensures (StepKeeps(s, TrySend(i, kind, data)); HeadsOk(s);
      var v := QueueOf(s, i);
      var t := Step(s, TrySend(i, kind, data));
      t.cur == s.cur && QueueOf(t, i) ==
        if |v.ring| < MQ_MAX_MSGS then
          var (tasks, receivers) := Roused(v.tasks, v.receivers);
          QueueView(tasks, v.ring + [Msg(s.cur, kind, data[..Fitting(data)])], receivers, v.senders)
        else v)
  {
    StepKeeps(s, TrySend(i, kind, data));
    HeadsOk(s);
    assert Packed(s.cur, kind, data).data == data[..Fitting(data)];
    hide CurrentOk, ControlOk, QueuesOk, NoLostWakeup, Packed;
  }

  /** `MessageQueue.TryReceive` computes the model's non-blocking receive. */
  lemma TryReceiveIsStep(s: Sys, i: nat)
    requires Inv(s) && Enabled(s, TryReceive(i))
    ensures (StepKeeps(s, TryReceive(i)); HeadsOk(s);
      var v := QueueOf(s, i);
      var t := Step(s, TryReceive(i));
      t.cur == s.cur && QueueOf(t, i) ==
        if v.ring != [] then
          var (tasks, senders) := Roused(v.tasks, v.senders);
          QueueView(tasks, v.ring[1..], v.receivers, senders)
        else v)
  {
    StepKeeps(s, TryReceive(i));
    HeadsOk(s);
    hide CurrentOk, ControlOk, QueuesOk, NoLostWakeup;
  }

  /** What the task table holds. */
  datatype TableView = TableView(cpu: Cpu, n: nat)

  ghost function TableOf(s: Sys): TableView
    requires Inv(s)
  {
    TableView(Cpu(s.tasks, s.cur), s.n)
  }

  /** `TaskTable.Schedule` computes the model's timer tick and the scheduler call
      of a blocking call. */
  lemma ScheduleIsStep(s: Sys, now: nat)
    requires Inv(s)
    ensures (StepKeeps(s, Tick(now)); TableOf(Step(s, Tick(now))) == TableView(Schedule(s.tasks, s.n, s.cur, now), s.n))
    ensures Enabled(s, Resched(now)) ==>
      (StepKeeps(s, Resched(now)); TableOf(Step(s, Resched(now))) == TableView(Schedule(s.tasks, s.n, s.cur, now), s.n))
  {
    hide CurrentOk, ControlOk, QueuesOk, CountsOk, NoLostWakeup, Schedule;
    StepKeeps(s, Tick(now));
    if Enabled(s, Resched(now)) {
      StepKeeps(s, Resched(now));
    }
  }

  /** `TaskTable.Create` computes the model's task creation. */
  lemma CreateIsStep(s: Sys)
    requires Inv(s) && Enabled(s, Label.Create)
    ensures (StepKeeps(s, Label.Create);
      var id := FreeSlot(s.tasks, 1);
      TableOf(Step(s, Label.Create)) ==
        if id == MAX_TASKS then TableOf(s)
        else TableView(Cpu(s.tasks[id := Task(Ready, 0)], s.cur), if id >= s.n then id + 1 else s.n))
  {
    hide CurrentOk, ControlOk, QueuesOk, CountsOk, NoLostWakeup, FreeSlot;
    StepKeeps(s, Label.Create);
  }

  /** `TaskTable.Sleep` and `TaskTable.Exit` compute the model's steps. */
  lemma LeaveIsStep(s: Sys, wake: nat, now: nat)
    requires Inv(s) && Plain(s) && s.cur != 0
    ensures (StepKeeps(s, Label.Sleep(wake, now)); StepKeeps(s, Label.Exit(now));
      TableOf(Step(s, Label.Sleep(wake, now))) ==
        TableView(Schedule(s.tasks[s.cur := Task(Sleeping, wake)], s.n, s.cur, now), s.n) &&
      TableOf(Step(s, Label.Exit(now))) ==
        TableView(Schedule(s.tasks[s.cur := s.tasks[s.cur].(state := Dead)], s.n, s.cur, now), s.n))
  {
    hide CurrentOk, ControlOk, QueuesOk, CountsOk, NoLostWakeup, Schedule;
    StepKeeps(s, Label.Sleep(wake, now));
    StepKeeps(s, Label.Exit(now));
  }

  /** `TaskTable.Kill` computes the model's kill. */
  lemma KillIsStep(s: Sys, id: nat, now: nat)
    requires Inv(s) && Enabled(s, Label.Kill(id, now))
    ensures (StepKeeps(s, Label.Kill(id, now));
      TableOf(Step(s, Label.Kill(id, now))) ==
        if id == 0 || id >= s.n || s.tasks[id].state == Unused || s.tasks[id].state == Dead then TableOf(s)
        else
          var dead := s.tasks[id := s.tasks[id].(state := Dead)];
          TableView(if id == s.cur then Schedule(dead, s.n, s.cur, now) else Cpu(dead, s.cur), s.n))
  {
    hide CurrentOk, ControlOk, QueuesOk, CountsOk, NoLostWakeup, Schedule;
    StepKeeps(s, Label.Kill(id, now));
  }
}
