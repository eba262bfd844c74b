/** Semaphores and message queues over the scheduler, as a step system.  A
    step is one critical section, one scheduler call, a timer tick (which may
    fall between the unlock of a blocking call and its own scheduler call), or
    a task being created, put to sleep or ended. */
module Sync {
  import opened Basics
  import opened Tasks

  const WAITQ_ROOM := 15   // a 16-slot ring keeps one slot free
  const MQ_MAX_MSGS := 16
  const MQ_MSG_SIZE := 64

  datatype Msg = Msg(sender: nat, kind: int, data: seq<byte>)

  /** What tasks wait for: a permit of semaphore i, a message in queue i, or
      room in queue i. */
  datatype Chan = Permit(i: nat) | Message(i: nat) | Room(i: nat)

  /** Where a task is in a blocking call: `Leaving` between unlock and its own
      scheduler call, `Retry` from then until it takes the lock again.  `m` is
      the message a sender carries. */
  datatype Control = Outside | Leaving(c: Chan, m: Msg) | Retry(c: Chan, m: Msg)

  datatype Sys = Sys(
    tasks: Table,
    cur: nat,
    n: nat,                              // slots in use
    control: seq<Control>,
    sems: seq<int>,                      // permit counts
    rings: seq<seq<Msg>>,                // queued messages, oldest first
    waiters: map<Chan, seq<nat>>,
    // history
    waits: seq<nat>, signals: seq<nat>, holders: seq<multiset<nat>>,
    sent: seq<seq<Msg>>, received: seq<seq<Msg>>)

  predicate IsChan(s: Sys, c: Chan) {
    match c
    case Permit(i) => i < |s.sems|
    case Message(i) => i < |s.rings|
    case Room(i) => i < |s.rings|
  }

  /** How often the channel's resource can be taken right now. */
  function Available(s: Sys, c: Chan): int
    requires IsChan(s, c)
  {
    match c
    case Permit(i) => s.sems[i]
    case Message(i) => |s.rings[i]|
    case Room(i) => MQ_MAX_MSGS - |s.rings[i]|
  }

  predicate WaitsAt(k: Control, c: Chan) {
    !k.Outside? && k.c == c
  }

  /** Tasks inside a blocking call on `c` that are not blocked: they were
      woken and are on their way to check again. */
  function Woken(s: Sys, c: Chan): set<nat>
    requires |s.control| == MAX_TASKS
  {
    set i: nat | i < MAX_TASKS && WaitsAt(s.control[i], c) && s.tasks[i].state != Blocked
  }

  // ----- invariants -----

  ghost predicate Shape(s: Sys) {
    s.cur < s.n <= MAX_TASKS && |s.control| == MAX_TASKS &&
    (forall i :: s.n <= i < MAX_TASKS ==> s.tasks[i].state == Unused && s.control[i] == Outside) &&
    (forall c :: c in s.waiters <==> IsChan(s, c)) &&
    |s.waits| == |s.signals| == |s.holders| == |s.sems| &&
    |s.sent| == |s.received| == |s.rings|
  }

  /** At most one task runs, and it is the current one; the current task runs,
      or has just queued itself and not yet given up the processor. */
  ghost predicate CurrentOk(s: Sys)
    requires Shape(s)
  {
    (forall i: nat :: i < MAX_TASKS && s.tasks[i].state == Running ==> i == s.cur) &&
    (s.tasks[s.cur].state == Running || (s.tasks[s.cur].state == Blocked && s.control[s.cur].Leaving?)) &&
    s.control[0] == Outside && Runnable(s.tasks[0])
  }

  /** Tasks inside a blocking call are blocked, ready or running. */
  ghost predicate ControlOk(s: Sys)
    requires Shape(s)
  {
    forall i: nat :: i < MAX_TASKS && s.control[i] != Outside ==>
      IsChan(s, s.control[i].c) && (Runnable(s.tasks[i]) || s.tasks[i].state == Blocked)
  }

  ghost predicate Entry(s: Sys, c: Chan, i: nat) {
    i < MAX_TASKS == |s.control| && s.tasks[i].state == Blocked && WaitsAt(s.control[i], c)
  }

  /** A task is blocked exactly when it is in a wait queue; it is there once,
      and in no other queue. */
  ghost predicate QueuesOk(s: Sys)
    requires Shape(s)
  {
    (forall c :: c in s.waiters ==> NoDup(s.waiters[c])) &&
    (forall c, k :: c in s.waiters && 0 <= k < |s.waiters[c]| ==> Entry(s, c, s.waiters[c][k])) &&
    (forall i: nat :: i < MAX_TASKS && s.tasks[i].state == Blocked ==>
      s.control[i] != Outside && s.control[i].c in s.waiters && i in s.waiters[s.control[i].c])
  }

  ghost predicate CountsOk(s: Sys)
    requires Shape(s)
  {
    (forall i :: 0 <= i < |s.sems| ==> s.sems[i] >= 0) &&
    (forall j :: 0 <= j < |s.rings| ==> |s.rings[j]| <= MQ_MAX_MSGS)
  }

  /** No lost wakeup: while tasks wait for a channel, no more of its resource
      is available than there are woken tasks about to take it. */
  ghost predicate NoLostWakeup(s: Sys)
    requires Shape(s)
  {
    forall c :: c in s.waiters && s.waiters[c] != [] ==> Available(s, c) <= |Woken(s, c)|
  }

  ghost predicate Inv(s: Sys) {
    Shape(s) && CurrentOk(s) && ControlOk(s) && QueuesOk(s) && CountsOk(s) && NoLostWakeup(s)
  }

  // ----- steps -----

  datatype Label =
    | Tick(now: nat)
    | Resched(now: nat)                       // the scheduler call of a blocking call
    | Wait(i: nat)
    | TryWait(i: nat)
    | Signal(i: nat)
    | Send(i: nat, kind: int, data: seq<byte>)
    | TrySend(i: nat, kind: int, data: seq<byte>)
    | Receive(i: nat)
    | TryReceive(i: nat)
    | Create
    | Sleep(wake: nat, now: nat)
    | Exit(now: nat)
    | Kill(id: nat, now: nat)

  /** How many bytes of a payload are queued. */
  function Fitting(data: seq<byte>): (n: nat)
    ensures n <= |data| && n <= 64 && (n < 64 ==> n == |data|)
  {
    if |data| < 64 then |data| else 64
  }

  /** Payloads are cut to 64 bytes. */
  function Packed(sender: nat, kind: int, data: seq<byte>): Msg {
    Msg(sender, kind, if |data| > MQ_MSG_SIZE then data[..MQ_MSG_SIZE] else data)
  }

  const NO_MSG := Msg(0, 0, [])

  function SchedStep(s: Sys, now: nat): Sys
    requires s.cur < s.n <= MAX_TASKS
  {
    var c := Schedule(s.tasks, s.n, s.cur, now);
    s.(tasks := c.tasks, cur := c.cur)
  }

  /** Task table and wait queue after task `me` queues itself and is marked
      blocked, when there is room. */
  function Queued(tasks: Table, me: nat, q: seq<nat>): (Table, seq<nat>)
    requires me < MAX_TASKS
  {
    if |q| >= WAITQ_ROOM then (tasks, q) else (tasks[me := Task(Blocked, 0)], q + [me])
  }

  /** Task table and wait queue after the longest waiting task, if any, is taken
      off and made ready. */
  function Roused(tasks: Table, q: seq<nat>): (Table, seq<nat>)
    requires q != [] ==> q[0] < MAX_TASKS
  {
    if q == [] then (tasks, q) else (tasks[q[0] := tasks[q[0]].(state := Ready)], q[1..])
  }

  /** The current task queues itself on `c` and is about to leave the processor. */
  function Block(s: Sys, c: Chan, m: Msg): Sys
    requires s.cur < MAX_TASKS == |s.control| && c in s.waiters
  {
    var r := Queued(s.tasks, s.cur, s.waiters[c]);
    s.(control := s.control[s.cur := Leaving(c, m)], tasks := r.0, waiters := s.waiters[c := r.1])
  }

  /** Wake the longest waiting task of `c`, if any. */
  function WakeOne(s: Sys, c: Chan): Sys
    requires c in s.waiters && (s.waiters[c] != [] ==> s.waiters[c][0] < MAX_TASKS)
  {
    var r := Roused(s.tasks, s.waiters[c]);
    s.(tasks := r.0, waiters := s.waiters[c := r.1])
  }

  /** Task `id` dies, in whatever call it is. */
  function Killed(s: Sys, id: nat): Sys
    requires id < MAX_TASKS == |s.control|
  {
    s.(tasks := s.tasks[id := s.tasks[id].(state := Dead)], control := s.control[id := Outside])
  }

  /** A task may be killed outside every call, or after it was woken if nobody
      else waits or the other woken tasks can take all there is. */
  ghost predicate Harmless(s: Sys, id: nat)
    requires Shape(s) && id < MAX_TASKS
  {
    s.control[id] == Outside ||
    (s.tasks[id].state != Blocked && s.control[id].c in s.waiters &&
      (s.waiters[s.control[id].c] == [] || Available(s, s.control[id].c) < |Woken(s, s.control[id].c)|))
  }

  /** The current task is back from its blocking call. */
  function Done(s: Sys): Sys
    requires s.cur < MAX_TASKS == |s.control|
  {
    s.(control := s.control[s.cur := Outside])
  }

  function TakePermit(s: Sys, i: nat): Sys
    requires Shape(s) && i < |s.sems|
  {
    s.(sems := s.sems[i := s.sems[i] - 1], waits := s.waits[i := s.waits[i] + 1],
       holders := s.holders[i := s.holders[i] + multiset{s.cur}])
  }

  function GivePermit(s: Sys, i: nat): Sys
    requires Shape(s) && i < |s.sems|
  {
    s.(sems := s.sems[i := s.sems[i] + 1], signals := s.signals[i := s.signals[i] + 1],
       holders := s.holders[i := s.holders[i] - multiset{s.cur}])
  }

  function PutMessage(s: Sys, i: nat, m: Msg): Sys
    requires Shape(s) && i < |s.rings|
  {
    s.(rings := s.rings[i := s.rings[i] + [m]], sent := s.sent[i := s.sent[i] + [m]])
  }

  function GetMessage(s: Sys, i: nat): Sys
    requires Shape(s) && i < |s.rings| && s.rings[i] != []
  {
    s.(rings := s.rings[i := s.rings[i][1..]], received := s.received[i := s.received[i] + [s.rings[i][0]]])
  }

  /** The first slot from 1 on that is unused or dead. */
  function FreeSlot(tasks: Table, i: nat): nat
    requires i <= MAX_TASKS
    ensures i <= FreeSlot(tasks, i) <= MAX_TASKS
    decreases MAX_TASKS - i
  {
    if i == MAX_TASKS || tasks[i].state == Unused || tasks[i].state == Dead then i else FreeSlot(tasks, i + 1)
  }

  function CreateTask(s: Sys): Sys {
    var id := FreeSlot(s.tasks, 1);
    if id == MAX_TASKS then s
    else s.(tasks := s.tasks[id := Task(Ready, 0)], n := if id >= s.n then id + 1 else s.n)
  }

  /** A blocking call is made from outside, by a task other than task 0, or is
      the retry of one already begun. */
  predicate MayEnter(s: Sys, c: Chan)
    requires s.cur < |s.control|
  {
    s.cur != 0 && (s.control[s.cur] == Outside || (s.control[s.cur].Retry? && s.control[s.cur].c == c))
  }

  /** The message a send carries: fixed when the call began. */
  function Carried(s: Sys, kind: int, data: seq<byte>): Msg
    requires s.cur < |s.control|
  {
    if s.control[s.cur].Retry? then s.control[s.cur].m else Packed(s.cur, kind, data)
  }

  ghost predicate Enabled(s: Sys, l: Label)
    requires Shape(s)
  {
    match l
    case Tick(_) => true
    case Resched(_) => s.control[s.cur].Leaving?
    case Wait(i) => i < |s.sems| && s.tasks[s.cur].state == Running && MayEnter(s, Permit(i))
    case Send(i, _, _) => i < |s.rings| && s.tasks[s.cur].state == Running && MayEnter(s, Room(i))
    case Receive(i) => i < |s.rings| && s.tasks[s.cur].state == Running && MayEnter(s, Message(i))
    case TryWait(i) => Plain(s) && i < |s.sems|
    case Signal(i) => Plain(s) && i < |s.sems|
    case TrySend(i, _, _) => Plain(s) && i < |s.rings|
    case TryReceive(i) => Plain(s) && i < |s.rings|
    case Create => Plain(s)
    case Sleep(_, _) => Plain(s) && s.cur != 0
    case Exit(_) => Plain(s) && s.cur != 0
    case Kill(id, _) => Plain(s) && (id < s.n ==> Harmless(s, id))
  }

  /** The current task runs and is in no blocking call. */
  predicate Plain(s: Sys)
    requires s.cur < |s.control| == MAX_TASKS
  {
    s.tasks[s.cur].state == Running && s.control[s.cur] == Outside
  }

  lemma HeadsOk(s: Sys)
    requires Shape(s) && QueuesOk(s)
    ensures forall c :: c in s.waiters && s.waiters[c] != [] ==> s.waiters[c][0] < MAX_TASKS
  {
    forall c | c in s.waiters && s.waiters[c] != [] ensures s.waiters[c][0] < MAX_TASKS {
      assert Entry(s, c, s.waiters[c][0]);
    }
  }

  function Step(s: Sys, l: Label): Sys
    requires Inv(s) && Enabled(s, l)
  {
    HeadsOk(s);
    match l
    case Tick(now) => SchedStep(s, now)
    case Resched(now) =>
      SchedStep(s.(control := s.control[s.cur := Retry(s.control[s.cur].c, s.control[s.cur].m)]), now)
    case Wait(i) => if s.sems[i] > 0 then Done(TakePermit(s, i)) else Block(s, Permit(i), NO_MSG)
    case TryWait(i) => if s.sems[i] > 0 then TakePermit(s, i) else s
    case Signal(i) => WakeOne(GivePermit(s, i), Permit(i))
    case Send(i, kind, data) =>
      var m := Carried(s, kind, data);
      if |s.rings[i]| < MQ_MAX_MSGS then WakeOne(Done(PutMessage(s, i, m)), Message(i)) else Block(s, Room(i), m)
    case TrySend(i, kind, data) =>
      if |s.rings[i]| < MQ_MAX_MSGS then WakeOne(PutMessage(s, i, Packed(s.cur, kind, data)), Message(i)) else s
    case Receive(i) =>
      if s.rings[i] != [] then WakeOne(Done(GetMessage(s, i)), Room(i)) else Block(s, Message(i), NO_MSG)
    case TryReceive(i) =>
      if s.rings[i] != [] then WakeOne(GetMessage(s, i), Room(i)) else s
    case Create => CreateTask(s)
    case Sleep(wake, now) => SchedStep(s.(tasks := s.tasks[s.cur := Task(Sleeping, wake)]), now)
    case Exit(now) => SchedStep(s.(tasks := s.tasks[s.cur := s.tasks[s.cur].(state := Dead)]), now)
    case Kill(id, now) =>
      if id == 0 || id >= s.n || s.tasks[id].state == Unused || s.tasks[id].state == Dead then s
      else
        if id == s.cur then SchedStep(Killed(s, id), now) else Killed(s, id)
  }

  // ----- every step keeps the invariant -----

  lemma {:induction false} SchedKeeps(s: Sys, now: nat)
    requires Shape(s) && ControlOk(s) && QueuesOk(s) && CountsOk(s) && NoLostWakeup(s)
    requires s.control[0] == Outside
    requires forall i: nat :: i < MAX_TASKS && s.tasks[i].state == Running ==> i == s.cur
    requires Runnable(s.tasks[0]) && (s.cur == 0 ==> s.tasks[0].state == Running)
    ensures Inv(SchedStep(s, now))
    ensures SchedStep(s, now).n == s.n
  {
    hide Schedule;
    ScheduleEffect(s.tasks, s.n, s.cur, now);
    ScheduleLeaves(s.tasks, s.n, s.cur, now);
    var t := SchedStep(s, now);
    SameWoken(s, t);
  }

  /** Task 0 is always there to run, so every other task does give up the
      processor. */
  lemma ScheduleLeaves(tasks: Table, n: nat, cur: nat, now: nat)
    requires cur < n <= MAX_TASKS && Runnable(tasks[0])
    requires cur == 0 ==> tasks[0].state == Running
    ensures var c := Schedule(tasks, n, cur, now);
      (c.cur == cur ==> cur == 0 && c.tasks == WakeSleepers(tasks, n, now))
  {
    hide Pick;
    var w := WakeSleepers(tasks, n, now);
    assert Runnable(w[0]);
    PickFirst(w, n, cur);
  }

  /** Woken sets do not change when control and blockedness do not. */
  lemma SameWoken(s: Sys, t: Sys)
    requires |s.control| == |t.control| == MAX_TASKS
    requires forall i: nat :: i < MAX_TASKS ==> (s.tasks[i].state == Blocked <==> t.tasks[i].state == Blocked)
    requires forall i: nat, c :: i < MAX_TASKS ==> (WaitsAt(s.control[i], c) <==> WaitsAt(t.control[i], c))
    ensures forall c :: Woken(s, c) == Woken(t, c)
  {
  }

  /** The invariant, except that channel `d` may offer one more than its
      woken tasks will take. */
  ghost predicate AlmostInv(s: Sys, d: Chan) {
    Shape(s) && CurrentOk(s) && ControlOk(s) && QueuesOk(s) && CountsOk(s) &&
    forall c :: c in s.waiters && s.waiters[c] != [] ==>
      Available(s, c) <= |Woken(s, c)| + if c == d then 1 else 0
  }

  /** `t` is `s` after the current task left its call on `c` (if it was in
      one), with the same tasks and queues. */
  ghost predicate LeftCall(s: Sys, t: Sys, c: Chan) {
    t.tasks == s.tasks && t.waiters == s.waiters && t.cur == s.cur && t.n == s.n &&
    |s.control| == |t.control| == MAX_TASKS && s.cur < MAX_TASKS &&
    (t.control == s.control || t.control == s.control[s.cur := Outside]) &&
    (s.control[s.cur] == Outside || s.control[s.cur].c == c)
  }

  lemma LeftCallWoken(s: Sys, t: Sys, c: Chan)
    requires LeftCall(s, t, c)
    ensures |Woken(t, c)| >= |Woken(s, c)| - 1
    ensures forall e :: e != c ==> Woken(t, e) == Woken(s, e)
    ensures t.control == s.control || s.control[s.cur] == Outside ==> Woken(t, c) == Woken(s, c)
  {
    assert Woken(t, c) == Woken(s, c) || Woken(t, c) == Woken(s, c) - {s.cur};
    forall e | e != c ensures Woken(t, e) == Woken(s, e) {
    }
  }

  /** Taking one unit of `c`, and possibly offering one more of `d`. */
  lemma TakeKeeps(s: Sys, t: Sys, c: Chan, d: Chan)
    requires Inv(s) && LeftCall(s, t, c) && Plain(t)
    requires Shape(t) && CountsOk(t) && IsChan(s, c) && c != d
    requires forall e :: IsChan(s, e) ==> (IsChan(t, e) &&
      Available(t, e) <= Available(s, e) - (if e == c then 1 else 0) + (if e == d then 1 else 0))
    ensures AlmostInv(t, d)
  {
    LeftCallWoken(s, t, c);
    forall i: nat | i < MAX_TASKS && t.control[i] != Outside
      ensures IsChan(t, t.control[i].c)
    {
    }
    forall e | e in t.waiters && t.waiters[e] != []
      ensures Available(t, e) <= |Woken(t, e)| + if e == d then 1 else 0
    {
    }
  }

  /** Offering one more of `d` and nothing else. */
  lemma GiveKeeps(s: Sys, t: Sys, d: Chan)
    requires Inv(s) && Plain(s)
    requires t.tasks == s.tasks && t.waiters == s.waiters && t.cur == s.cur && t.n == s.n && t.control == s.control
    requires Shape(t) && CountsOk(t)
    requires forall e :: IsChan(s, e) ==> IsChan(t, e) && Available(t, e) <= Available(s, e) + (if e == d then 1 else 0)
    ensures AlmostInv(t, d)
  {
    forall e | e in t.waiters && t.waiters[e] != []
      ensures Available(t, e) <= |Woken(t, e)| + if e == d then 1 else 0
    {
      assert Woken(t, e) == Woken(s, e);
    }
  }

  /** Waking the first waiter of `d` pays for the extra unit. */
  lemma WakeKeeps(s: Sys, d: Chan)
    requires AlmostInv(s, d) && d in s.waiters && (s.waiters[d] != [] ==> s.waiters[d][0] < MAX_TASKS)
    requires s.tasks[s.cur].state == Running
    ensures Inv(WakeOne(s, d))
  {
    var q := s.waiters[d];
    if q != [] {
      var id := q[0];
      var t := WakeOne(s, d);
      assert Entry(s, d, id);
      assert q == [id] + q[1..];
      WakeQueues(s, d);
      hide QueuesOk;
      WakeCounts(s, d);
      forall e | e in t.waiters && t.waiters[e] != []
        ensures Available(t, e) <= |Woken(t, e)|
      {
        assert e == d ==> s.waiters[e] != [];
      }
    }
  }

  /** Waking adds one to the woken tasks of its channel, and offers nothing. */
  lemma WakeCounts(s: Sys, d: Chan)
    requires Shape(s) && d in s.waiters && s.waiters[d] != [] && Entry(s, d, s.waiters[d][0])
    ensures var t := WakeOne(s, d);
      |Woken(t, d)| == |Woken(s, d)| + 1 && (forall e :: e != d ==> Woken(t, e) == Woken(s, e)) &&
      forall e :: IsChan(s, e) ==> IsChan(t, e) && Available(t, e) == Available(s, e)
  {
    var t, id := WakeOne(s, d), s.waiters[d][0];
    assert Woken(t, d) == Woken(s, d) + {id};
    forall e | e != d ensures Woken(t, e) == Woken(s, e) {
    }
  }

  lemma WakeQueues(s: Sys, d: Chan)
    requires Shape(s) && QueuesOk(s) && d in s.waiters && s.waiters[d] != [] && s.waiters[d][0] < MAX_TASKS
    ensures Shape(WakeOne(s, d)) && QueuesOk(WakeOne(s, d))
  {
    var q := s.waiters[d];
    var id := q[0];
    var t := WakeOne(s, d);
    assert Entry(s, d, id);
    forall c, k | c in t.waiters && 0 <= k < |t.waiters[c]| ensures Entry(t, c, t.waiters[c][k]) {
      if c == d {
        assert t.waiters[c][k] == q[k + 1] && q[0] != q[k + 1];
        assert Entry(s, c, q[k + 1]);
      } else {
        assert Entry(s, c, s.waiters[c][k]);
      }
    }
    forall i: nat | i < MAX_TASKS && t.tasks[i].state == Blocked
      ensures t.control[i] != Outside && t.control[i].c in t.waiters && i in t.waiters[t.control[i].c]
    {
      assert i != id && i in s.waiters[s.control[i].c];
    }
  }

  /** A wait queue never fills up: its members are distinct tasks other than
      task 0 and the current one. */
  lemma QueueHasRoom(s: Sys, c: Chan)
    requires Inv(s) && c in s.waiters && s.tasks[s.cur].state == Running && s.cur != 0
    ensures |s.waiters[c]| < WAITQ_ROOM
  {
    hide Slots, NoLostWakeup, CountsOk, ControlOk;
    var q := s.waiters[c];
    forall k | 0 <= k < |q| ensures q[k] < MAX_TASKS && q[k] != 0 && q[k] != s.cur {
      assert Entry(s, c, q[k]);
    }
    AtMostOthers(q, s.cur);
  }

  lemma AtMostOthers(q: seq<nat>, cur: nat)
    requires NoDup(q) && 0 < cur < MAX_TASKS
    requires forall k :: 0 <= k < |q| ==> q[k] < MAX_TASKS && q[k] != 0 && q[k] != cur
    ensures |q| < WAITQ_ROOM
  {
    hide Slots;
    SlotsCount(MAX_TASKS);
    DistinctCount(q);
    var others := Slots(MAX_TASKS) - {0} - {cur};
    assert |others| == MAX_TASKS - 2;
    SubsetCount(Members(q), others);
  }

  function Members(q: seq<nat>): set<nat> {
    set i | i in q
  }

  /** The slots below `n`. */
  function Slots(n: nat): set<nat> {
    if n == 0 then {} else Slots(n - 1) + {n - 1}
  }

  lemma {:induction false} SlotsCount(n: nat)
    ensures |Slots(n)| == n
    ensures forall i: nat :: i in Slots(n) <==> i < n
  {
    if n > 0 {
      SlotsCount(n - 1);
    }
  }

  lemma {:induction false} DistinctCount(q: seq<nat>)
    requires NoDup(q)
    ensures |Members(q)| == |q|
    decreases |q|
  {
    if q != [] {
      var rest := q[1..];
      DistinctCount(rest);
      assert q[0] !in Members(rest);
      assert q == [q[0]] + rest;
      assert Members(q) == {q[0]} + Members(rest);
    }
  }

  lemma {:induction false} SubsetCount(a: set<nat>, b: set<nat>)
    requires a <= b
    ensures |a| <= |b|
    decreases a
  {
    if x :| x in a {
      SubsetCount(a - {x}, b - {x});
    }
  }

  /** Queueing the current task on a channel with nothing available. */
  lemma BlockKeeps(s: Sys, c: Chan, m: Msg)
    requires Inv(s) && c in s.waiters && s.tasks[s.cur].state == Running && MayEnter(s, c)
    requires Available(s, c) <= 0
    ensures Inv(Block(s, c, m))
    ensures Block(s, c, m).waiters[c] == s.waiters[c] + [s.cur]
  {
    QueueHasRoom(s, c);
    var t := Block(s, c, m);
    var q := s.waiters[c];
    forall k | 0 <= k < |q| ensures q[k] != s.cur {
      assert Entry(s, c, q[k]);
    }
    forall e, k | e in t.waiters && 0 <= k < |t.waiters[e]| ensures Entry(t, e, t.waiters[e][k]) {
      if e == c && k == |q| {
      } else {
        assert Entry(s, e, s.waiters[e][k]);
      }
    }
    forall i: nat | i < MAX_TASKS && t.tasks[i].state == Blocked
      ensures t.control[i] != Outside && t.control[i].c in t.waiters && i in t.waiters[t.control[i].c]
    {
      if i == s.cur {
        assert t.waiters[c][|q|] == s.cur;
      } else {
        assert i in s.waiters[s.control[i].c];
      }
    }
    forall e | e in t.waiters && t.waiters[e] != [] ensures Available(t, e) <= |Woken(t, e)| {
      if e != c {
        assert Woken(t, e) == Woken(s, e);
      }
    }
  }

  // a channel no system has, for steps that offer nothing
  ghost function Nowhere(s: Sys): Chan {
    Permit(|s.sems|)
  }

  lemma AlmostNowhere(s: Sys)
    requires AlmostInv(s, Nowhere(s))
    ensures Inv(s)
  {
  }

  lemma WaitKeeps(s: Sys, i: nat)
    requires Inv(s) && i < |s.sems|
    requires Enabled(s, Wait(i)) || Enabled(s, TryWait(i))
    ensures Enabled(s, Wait(i)) ==> Inv(Step(s, Wait(i)))
    ensures Enabled(s, TryWait(i)) ==> Inv(Step(s, TryWait(i)))
  {
    hide Block, CurrentOk, ControlOk, QueuesOk, NoLostWakeup;
    if s.sems[i] > 0 {
      var u := TakePermit(s, i);
      KeepsPlain(s);
      if Enabled(s, Wait(i)) {
        TakeKeeps(s, Done(u), Permit(i), Nowhere(s));
        AlmostNowhere(Done(u));
      }
      if Enabled(s, TryWait(i)) {
        TakeKeeps(s, u, Permit(i), Nowhere(s));
        AlmostNowhere(u);
      }
    } else if Enabled(s, Wait(i)) {
      BlockKeeps(s, Permit(i), NO_MSG);
    }
  }

  /** The current task may leave a call it is retrying. */
  lemma KeepsPlain(s: Sys)
    requires Inv(s)
    ensures s.tasks[s.cur].state == Running ==> Plain(Done(s))
  {
  }

  lemma SignalKeeps(s: Sys, i: nat)
    requires Inv(s) && Enabled(s, Signal(i))
    ensures Inv(Step(s, Signal(i)))
  {
    hide WakeOne, CurrentOk, ControlOk, QueuesOk, NoLostWakeup;
    HeadsOk(s);
    GiveKeeps(s, GivePermit(s, i), Permit(i));
    WakeKeeps(GivePermit(s, i), Permit(i));
  }

  /** Queueing a message, inside or outside a blocking call, and waking a
      receiver. */
  lemma PutKeeps(s: Sys, u: Sys, i: nat, m: Msg)
    requires Inv(s) && i < |s.rings| && |s.rings[i]| < MQ_MAX_MSGS && s.tasks[s.cur].state == Running
    requires (u == PutMessage(s, i, m) && s.control[s.cur] == Outside) ||
      (u == Done(PutMessage(s, i, m)) && (s.control[s.cur] == Outside || s.control[s.cur].c == Room(i)))
    ensures u.waiters == s.waiters && (u.waiters[Message(i)] != [] ==> u.waiters[Message(i)][0] < MAX_TASKS)
    ensures Inv(WakeOne(u, Message(i)))
  {
    hide WakeOne, CurrentOk, ControlOk, QueuesOk, NoLostWakeup;
    HeadsOk(s);
    TakeKeeps(s, u, Room(i), Message(i));
    WakeKeeps(u, Message(i));
  }

  /** Taking a message and waking a sender. */
  lemma GetKeeps(s: Sys, u: Sys, i: nat)
    requires Inv(s) && i < |s.rings| && s.rings[i] != [] && s.tasks[s.cur].state == Running
    requires (u == GetMessage(s, i) && s.control[s.cur] == Outside) ||
      (u == Done(GetMessage(s, i)) && (s.control[s.cur] == Outside || s.control[s.cur].c == Message(i)))
    ensures u.waiters == s.waiters && (u.waiters[Room(i)] != [] ==> u.waiters[Room(i)][0] < MAX_TASKS)
    ensures Inv(WakeOne(u, Room(i)))
  {
    hide WakeOne, CurrentOk, ControlOk, QueuesOk, NoLostWakeup;
    HeadsOk(s);
    TakeKeeps(s, u, Message(i), Room(i));
    WakeKeeps(u, Room(i));
  }

  lemma SendKeeps(s: Sys, i: nat, kind: int, data: seq<byte>)
    requires Inv(s) && i < |s.rings|
    ensures Enabled(s, Send(i, kind, data)) ==> Inv(Step(s, Send(i, kind, data)))
    ensures Enabled(s, TrySend(i, kind, data)) ==> Inv(Step(s, TrySend(i, kind, data)))
  {
    hide WakeOne, Block, CurrentOk, ControlOk, QueuesOk, NoLostWakeup, Packed;
    HeadsOk(s);
    KeepsPlain(s);
    if |s.rings[i]| < MQ_MAX_MSGS {
      if Enabled(s, Send(i, kind, data)) {
        PutKeeps(s, Done(PutMessage(s, i, Carried(s, kind, data))), i, Carried(s, kind, data));
      }
      if Enabled(s, TrySend(i, kind, data)) {
        PutKeeps(s, PutMessage(s, i, Packed(s.cur, kind, data)), i, Packed(s.cur, kind, data));
      }
    } else if Enabled(s, Send(i, kind, data)) {
      BlockKeeps(s, Room(i), Carried(s, kind, data));
    }
  }

  lemma ReceiveKeeps(s: Sys, i: nat)
    requires Inv(s) && i < |s.rings|
    ensures Enabled(s, Receive(i)) ==> Inv(Step(s, Receive(i)))
    ensures Enabled(s, TryReceive(i)) ==> Inv(Step(s, TryReceive(i)))
  {
    hide WakeOne, Block, CurrentOk, ControlOk, QueuesOk, NoLostWakeup;
    HeadsOk(s);
    KeepsPlain(s);
    if s.rings[i] != [] {
      if Enabled(s, Receive(i)) {
        GetKeeps(s, Done(GetMessage(s, i)), i);
      }
      if Enabled(s, TryReceive(i)) {
        GetKeeps(s, GetMessage(s, i), i);
      }
    } else if Enabled(s, Receive(i)) {
      BlockKeeps(s, Message(i), NO_MSG);
    }
  }

  /** Replacing the state of a task outside every blocking call by another
      that is not `Blocked` or `Running`. */
  lemma OutsiderKeeps(s: Sys, id: nat, t: Task)
    requires Shape(s) && ControlOk(s) && QueuesOk(s) && CountsOk(s) && NoLostWakeup(s)
    requires 0 < id < s.n && s.control[id] == Outside && t.state != Blocked && t.state != Running
    ensures var u := s.(tasks := s.tasks[id := t]);
      Shape(u) && ControlOk(u) && QueuesOk(u) && CountsOk(u) && NoLostWakeup(u)
  {
    var u := s.(tasks := s.tasks[id := t]);
    forall c, k | c in u.waiters && 0 <= k < |u.waiters[c]| ensures Entry(u, c, u.waiters[c][k]) {
      assert Entry(s, c, s.waiters[c][k]);
    }
    SameWoken(s, u);
  }

  lemma TaskKeeps(s: Sys, l: Label)
    requires Inv(s) && Enabled(s, l) && (l.Sleep? || l.Exit? || l.Kill?)
    ensures Inv(Step(s, l))
  {
    match l
    case Sleep(wake, now) =>
      OutsiderKeeps(s, s.cur, Task(Sleeping, wake));
      SchedKeeps(s.(tasks := s.tasks[s.cur := Task(Sleeping, wake)]), now);
    case Exit(now) =>
      OutsiderKeeps(s, s.cur, s.tasks[s.cur].(state := Dead));
      SchedKeeps(s.(tasks := s.tasks[s.cur := s.tasks[s.cur].(state := Dead)]), now);
    case Kill(id, now) =>
      if !(id == 0 || id >= s.n || s.tasks[id].state == Unused || s.tasks[id].state == Dead) {
        KillKeeps(s, id);
        if id == s.cur {
          SchedKeeps(Killed(s, id), now);
        }
      }
  }

  /** A harmless kill keeps all but, for the current task, what is said of the
      processor. */
  lemma KillKeeps(s: Sys, id: nat)
    requires Inv(s) && 0 < id < s.n && Harmless(s, id) && (id == s.cur ==> s.control[id] == Outside)
    ensures var t := Killed(s, id);
      Shape(t) && ControlOk(t) && QueuesOk(t) && CountsOk(t) && NoLostWakeup(t) && (id != s.cur ==> CurrentOk(t))
  {
    var t := Killed(s, id);
    if s.control[id] == Outside {
      assert t.control == s.control;
      OutsiderKeeps(s, id, s.tasks[id].(state := Dead));
    } else {
      hide NoLostWakeup;
      KilledQueues(s, id);
      KilledCounts(s, id);
      NobodyMissed(s, id);
    }
  }

  lemma KilledQueues(s: Sys, id: nat)
    requires Inv(s) && 0 < id < s.n && id != s.cur && s.tasks[id].state != Blocked
    ensures var t := Killed(s, id); Shape(t) && CurrentOk(t) && ControlOk(t) && QueuesOk(t)
  {
    hide NoLostWakeup, CountsOk;
    var t := Killed(s, id);
    forall e, k | e in t.waiters && 0 <= k < |t.waiters[e]| ensures Entry(t, e, t.waiters[e][k]) {
      assert Entry(s, e, s.waiters[e][k]);
    }
  }

  lemma KilledCounts(s: Sys, id: nat)
    requires Inv(s) && id < s.n
    ensures CountsOk(Killed(s, id))
  {
    hide NoLostWakeup, QueuesOk, ControlOk, CurrentOk;
  }

  /** A woken task takes one from the woken of its own channel only. */
  lemma KilledWoken(s: Sys, id: nat)
    requires Inv(s) && 0 < id < s.n && s.control[id] != Outside && s.tasks[id].state != Blocked
    ensures s.control[id].c in s.waiters
    ensures |Woken(Killed(s, id), s.control[id].c)| == |Woken(s, s.control[id].c)| - 1
    ensures forall e :: e != s.control[id].c ==> Woken(Killed(s, id), e) == Woken(s, e)
  {
    hide NoLostWakeup, QueuesOk, CountsOk;
    var c := s.control[id].c;
    assert Woken(Killed(s, id), c) == Woken(s, c) - {id};
    forall e | e != c ensures Woken(Killed(s, id), e) == Woken(s, e) {
    }
  }

  /** No wakeup is lost by killing a woken task exactly when the kill is
      harmless. */
  lemma NobodyMissed(s: Sys, id: nat)
    requires Inv(s) && 0 < id < s.n && s.control[id] != Outside && s.tasks[id].state != Blocked
    ensures Shape(Killed(s, id))
    ensures NoLostWakeup(Killed(s, id)) <==> Harmless(s, id)
  {
    KilledWoken(s, id);
    hide CurrentOk, ControlOk, QueuesOk, CountsOk, Woken;
    var t, c := Killed(s, id), s.control[id].c;
    assert forall e :: IsChan(s, e) ==> IsChan(t, e) && Available(t, e) == Available(s, e);
    if !Harmless(s, id) {
      assert t.waiters[c] != [] && Available(t, c) > |Woken(t, c)|;
    }
  }

  lemma CreateKeeps(s: Sys)
    requires Inv(s) && Plain(s)
    ensures Inv(CreateTask(s))
  {
    var id := FreeSlot(s.tasks, 1);
    if id < MAX_TASKS {
      FreeSlotIs(s.tasks, 1);
      var u := CreateTask(s);
      assert s.control[id] == Outside;
      forall c, k | c in u.waiters && 0 <= k < |u.waiters[c]| ensures Entry(u, c, u.waiters[c][k]) {
        assert Entry(s, c, s.waiters[c][k]);
      }
      forall i | u.n <= i < MAX_TASKS ensures u.tasks[i].state == Unused && u.control[i] == Outside {
      }
      SameWoken(s, u);
    }
  }

  lemma {:induction false} FreeSlotIs(tasks: Table, i: nat)
    requires i <= MAX_TASKS
    ensures var f := FreeSlot(tasks, i);
      (f < MAX_TASKS ==> tasks[f].state == Unused || tasks[f].state == Dead) &&
      forall k :: i <= k < f ==> tasks[k].state != Unused && tasks[k].state != Dead
    decreases MAX_TASKS - i
  {
    if i < MAX_TASKS && !(tasks[i].state == Unused || tasks[i].state == Dead) {
      FreeSlotIs(tasks, i + 1);
    }
  }

  lemma ReschedKeeps(s: Sys, now: nat)
    requires Inv(s) && s.control[s.cur].Leaving?
    ensures Inv(Step(s, Resched(now)))
  {
    hide Schedule;
    var u := s.(control := s.control[s.cur := Retry(s.control[s.cur].c, s.control[s.cur].m)]);
    forall c, k | c in u.waiters && 0 <= k < |u.waiters[c]| ensures Entry(u, c, u.waiters[c][k]) {
      assert Entry(s, c, s.waiters[c][k]);
    }
    SameWoken(s, u);
    SchedKeeps(u, now);
  }

  /** Every enabled step keeps the whole invariant. */
  lemma {:induction false} StepKeeps(s: Sys, l: Label)
    requires Inv(s) && Enabled(s, l)
    ensures Inv(Step(s, l))
  {
    hide CurrentOk, ControlOk, QueuesOk, CountsOk, NoLostWakeup;
    match l
    case Tick(now) => TickKeeps(s, now);
    case Resched(now) => ReschedKeeps(s, now);
    case Wait(i) => WaitKeeps(s, i);
    case TryWait(i) => WaitKeeps(s, i);
    case Signal(i) => SignalKeeps(s, i);
    case Send(i, kind, data) => SendKeeps(s, i, kind, data);
    case TrySend(i, kind, data) => SendKeeps(s, i, kind, data);
    case Receive(i) => ReceiveKeeps(s, i);
    case TryReceive(i) => ReceiveKeeps(s, i);
    case Create => CreateKeeps(s);
    case Sleep(_, _) => TaskKeeps(s, l);
    case Exit(_) => TaskKeeps(s, l);
    case Kill(_, _) => TaskKeeps(s, l);
  }

  lemma TickKeeps(s: Sys, now: nat)
    requires Inv(s)
    ensures Inv(SchedStep(s, now))
  {
    hide Schedule;
    SchedKeeps(s, now);
  }
}
