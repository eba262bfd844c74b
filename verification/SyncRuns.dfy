/** What holds over whole runs of the blocking primitives: the ledgers of
    permits and messages, mutual exclusion, and when a task is chosen. */
module SyncRuns {
  import opened Tasks
  import opened Sync

  /** Only task 0 exists, nothing is queued and nothing has happened. */
  ghost predicate Boot(s: Sys) {
    Shape(s) && s.cur == 0 && s.n == 1 && s.tasks[0].state == Running &&
    (forall i :: 0 <= i < MAX_TASKS ==> s.control[i] == Outside) &&
    (forall c :: c in s.waiters ==> s.waiters[c] == []) &&
    (forall i :: 0 <= i < |s.sems| ==>
      s.sems[i] >= 0 && s.waits[i] == 0 && s.signals[i] == 0 && s.holders[i] == multiset{}) &&
    (forall j :: 0 <= j < |s.rings| ==> s.rings[j] == s.sent[j] == s.received[j] == [])
  }

  lemma BootInv(s: Sys)
    requires Boot(s)
    ensures Inv(s)
  {
  }

  /** `ls` is a run of enabled steps from `s` to `t`. */
  ghost predicate Runs(s: Sys, ls: seq<Label>, t: Sys)
    requires Inv(s)
    decreases |ls|
  {
    if ls == [] then t == s
    else Enabled(s, ls[0]) && (StepKeeps(s, ls[0]); Runs(Step(s, ls[0]), ls[1..], t))
  }

  /** In every reachable state at most one task runs and it is the current
      one, a task is blocked exactly when it waits once in one queue, counts
      stay in range, and no wakeup is lost. */
  lemma {:induction false} AlwaysInv(s: Sys, ls: seq<Label>, t: Sys)
    requires Inv(s) && Runs(s, ls, t)
    ensures Inv(t)
    decreases |ls|
  {
    if ls != [] {
      StepKeeps(s, ls[0]);
      AlwaysInv(Step(s, ls[0]), ls[1..], t);
    }
  }

  // ----- the history one step adds -----

  /** `t` has at least the channels and history of `s`, with the same sums. */
  ghost predicate SameLedger(s: Sys, t: Sys)
    requires Shape(s) && Shape(t)
  {
    |t.sems| == |s.sems| && |t.rings| == |s.rings| &&
    (forall i :: 0 <= i < |s.sems| ==> t.sems[i] + t.waits[i] - t.signals[i] == s.sems[i] + s.waits[i] - s.signals[i]) &&
    (forall j :: 0 <= j < |s.rings| ==>
      (s.sent[j] == s.received[j] + s.rings[j] ==> t.sent[j] == t.received[j] + t.rings[j]))
  }

  predicate HasHistory(s: Sys, t: Sys) {
    t.sems == s.sems && t.rings == s.rings && t.waits == s.waits && t.signals == s.signals &&
    t.holders == s.holders && t.sent == s.sent && t.received == s.received
  }

  /** Steps that only move tasks about leave all history alone. */
  lemma TaskStepHistory(s: Sys, l: Label)
    requires Inv(s) && Enabled(s, l)
    requires l.Tick? || l.Resched? || l.Create? || l.Sleep? || l.Exit? || l.Kill?
    ensures HasHistory(s, Step(s, l))
  {
    hide Schedule, FreeSlot, QueuesOk, CurrentOk, ControlOk, CountsOk, NoLostWakeup;
  }

  lemma StepLedger(s: Sys, l: Label)
    requires Inv(s) && Enabled(s, l)
    ensures Inv(Step(s, l)) && SameLedger(s, Step(s, l))
  {
    hide Schedule, FreeSlot, CreateTask, QueuesOk, CurrentOk, ControlOk, CountsOk, NoLostWakeup, Packed;
    StepKeeps(s, l);
    if l.Tick? || l.Resched? || l.Create? || l.Sleep? || l.Exit? || l.Kill? {
      TaskStepHistory(s, l);
    } else if l.Wait? || l.TryWait? || l.Signal? {
    } else {
      QueueLedger(s, l);
    }
  }

  lemma QueueLedger(s: Sys, l: Label)
    requires Inv(s) && Enabled(s, l) && (l.Send? || l.TrySend? || l.Receive? || l.TryReceive?)
    ensures Inv(Step(s, l)) && SameLedger(s, Step(s, l))
  {
    hide QueuesOk, CurrentOk, ControlOk, CountsOk, NoLostWakeup, Packed;
    StepKeeps(s, l);
    var j := l.i;
    if (l.Receive? || l.TryReceive?) && s.rings[j] != [] {
      assert s.rings[j] == [s.rings[j][0]] + s.rings[j][1..];
    }
  }

  /** Over every run from boot, the permits given out are the initial ones and
      those signalled, and each queue's log of sent messages is the log of
      received ones followed by what the ring still holds. */
  lemma {:induction false} Ledger(s: Sys, ls: seq<Label>, t: Sys)
    requires Inv(s) && Runs(s, ls, t)
    ensures Inv(t) && SameLedger(s, t)
    decreases |ls|
  {
    hide Inv, Shape, Step, Enabled;
    if ls != [] {
      StepLedger(s, ls[0]);
      Ledger(Step(s, ls[0]), ls[1..], t);
    }
  }

  /** How many of the labels in `ls` are `l`. */
  function Count(ls: seq<Label>, l: Label): nat {
    multiset(ls)[l]
  }

  lemma StepSignals(s: Sys, l: Label, i: nat)
    requires Inv(s) && Enabled(s, l) && i < |s.sems|
    ensures var t := Step(s, l);
      Inv(t) && |t.sems| == |s.sems| && t.signals[i] == s.signals[i] + if l == Signal(i) then 1 else 0
  {
    hide Schedule, FreeSlot, CreateTask, QueuesOk, CurrentOk, ControlOk, CountsOk, NoLostWakeup, Packed;
    StepKeeps(s, l);
    if l.Tick? || l.Resched? || l.Create? || l.Sleep? || l.Exit? || l.Kill? {
      TaskStepHistory(s, l);
    }
  }

  /** The ledger counts the signals the run really made. */
  lemma {:induction false} SignalsCounted(s: Sys, ls: seq<Label>, t: Sys, i: nat)
    requires Inv(s) && Runs(s, ls, t) && i < |s.sems|
    ensures Inv(t) && i < |t.sems| && t.signals[i] == s.signals[i] + Count(ls, Signal(i))
    decreases |ls|
  {
    hide Inv, Shape, Step, Enabled;
    if ls != [] {
      StepSignals(s, ls[0], i);
      SignalsCounted(Step(s, ls[0]), ls[1..], t, i);
      assert ls == [ls[0]] + ls[1..];
    }
  }

  /** Semaphore conservation from boot: the initial count and the signals made
      are the permits left and the successful waits. */
  lemma SemaphoreConservation(s: Sys, ls: seq<Label>, t: Sys, i: nat)
    requires Boot(s) && i < |s.sems| && (BootInv(s); Runs(s, ls, t))
    ensures Inv(t) && i < |t.sems|
    ensures s.sems[i] + Count(ls, Signal(i)) == t.sems[i] + t.waits[i]
    ensures t.sems[i] >= 0
  {
    BootInv(s);
    hide CurrentOk, ControlOk, QueuesOk, NoLostWakeup, Runs;
    Ledger(s, ls, t);
    SignalsCounted(s, ls, t, i);
  }

  // ----- what messages say -----

  predicate MsgOk(m: Msg) {
    |m.data| <= MQ_MSG_SIZE && m.sender < MAX_TASKS
  }

  /** Every message carried, queued, sent or received is at most 64 bytes, and
      a waiting sender carries a message of its own. */
  ghost predicate MessagesOk(s: Sys)
    requires Shape(s)
  {
    (forall i :: 0 <= i < MAX_TASKS && s.control[i] != Outside && s.control[i].c.Room? ==>
      s.control[i].m.sender == i && MsgOk(s.control[i].m)) &&
    (forall j, k :: 0 <= j < |s.rings| && 0 <= k < |s.rings[j]| ==> MsgOk(s.rings[j][k])) &&
    (forall j, k :: 0 <= j < |s.sent| && 0 <= k < |s.sent[j]| ==> MsgOk(s.sent[j][k])) &&
    (forall j, k :: 0 <= j < |s.received| && 0 <= k < |s.received[j]| ==> MsgOk(s.received[j][k]))
  }

  lemma ControlKept(s: Sys, l: Label)
    requires Inv(s) && Enabled(s, l) && MessagesOk(s)
    requires l.Tick? || l.Resched? || l.Create? || l.Sleep? || l.Exit? || l.Kill?
    ensures Inv(Step(s, l)) && MessagesOk(Step(s, l))
  {
    hide Schedule, FreeSlot, QueuesOk, CurrentOk, ControlOk, CountsOk, NoLostWakeup;
    StepKeeps(s, l);
  }

  lemma {:induction false} StepMessages(s: Sys, l: Label)
    requires Inv(s) && Enabled(s, l) && MessagesOk(s)
    ensures Inv(Step(s, l)) && MessagesOk(Step(s, l))
  {
    StepKeeps(s, l);
    hide *;
    if l.Tick? || l.Resched? || l.Create? || l.Sleep? || l.Exit? || l.Kill? {
      ControlKept(s, l);
    } else if l.Send? || l.TrySend? {
      SendMessages(s, l);
    } else {
      OtherMessages(s, l);
    }
  }

  lemma OtherMessages(s: Sys, l: Label)
    requires Inv(s) && Enabled(s, l) && MessagesOk(s)
    requires l.Wait? || l.TryWait? || l.Signal? || l.Receive? || l.TryReceive?
    ensures Inv(Step(s, l)) && MessagesOk(Step(s, l))
  {
    hide QueuesOk, CurrentOk, ControlOk, CountsOk, NoLostWakeup, MsgOk;
    StepKeeps(s, l);
    if l.Receive? || l.TryReceive? {
      hide MessagesOk;
      ReceiveMessages(s, l);
    }
  }

  lemma ReceiveMessages(s: Sys, l: Label)
    requires Inv(s) && Enabled(s, l) && MessagesOk(s) && (l.Receive? || l.TryReceive?)
    ensures Inv(Step(s, l)) && MessagesOk(Step(s, l))
  {
    hide QueuesOk, CurrentOk, ControlOk, CountsOk, NoLostWakeup, MsgOk;
    StepKeeps(s, l);
  }

  lemma SendMessages(s: Sys, l: Label)
    requires Inv(s) && Enabled(s, l) && MessagesOk(s) && (l.Send? || l.TrySend?)
    ensures Inv(Step(s, l)) && MessagesOk(Step(s, l))
  {
    hide QueuesOk, ControlOk, CountsOk, NoLostWakeup;
    StepKeeps(s, l);
    var m := if l.Send? then Carried(s, l.kind, l.data) else Packed(s.cur, l.kind, l.data);
    assert m.sender == s.cur && MsgOk(m);
  }

  /** Message queues are first-in first-out over every run: the log of sent
      messages is the log of received ones followed by the ring. */
  lemma {:induction false} Fifo(s: Sys, ls: seq<Label>, t: Sys)
    requires Boot(s) && (BootInv(s); Runs(s, ls, t))
    ensures Inv(t) && MessagesOk(t) && |t.rings| == |s.rings|
    ensures forall j :: 0 <= j < |t.rings| ==> t.sent[j] == t.received[j] + t.rings[j] && |t.rings[j]| <= MQ_MAX_MSGS
  {
    Ledger(s, ls, t);
    RunMessages(s, ls, t);
  }

  lemma {:induction false} RunMessages(s: Sys, ls: seq<Label>, t: Sys)
    requires Inv(s) && MessagesOk(s) && Runs(s, ls, t)
    ensures Inv(t) && MessagesOk(t)
    decreases |ls|
  {
    hide Inv, Shape, Step, Enabled, MessagesOk;
    if ls != [] {
      StepMessages(s, ls[0]);
      RunMessages(Step(s, ls[0]), ls[1..], t);
    }
  }

  // ----- mutual exclusion -----

  /** Whoever signals semaphore `i` in this run holds a permit of it. */
  ghost predicate Disciplined(s: Sys, ls: seq<Label>, i: nat)
    requires Inv(s) && i < |s.sems|
    decreases |ls|
  {
    ls != [] && Enabled(s, ls[0]) ==>
      (ls[0] == Signal(i) ==> s.cur in s.holders[i]) &&
      (StepSignals(s, ls[0], i); Disciplined(Step(s, ls[0]), ls[1..], i))
  }

  lemma StepHolders(s: Sys, l: Label, i: nat)
    requires Inv(s) && Enabled(s, l) && i < |s.sems| && (l == Signal(i) ==> s.cur in s.holders[i])
    ensures var t := Step(s, l);
      Inv(t) && |t.sems| == |s.sems| && |t.holders[i]| + t.sems[i] == |s.holders[i]| + s.sems[i]
  {
    hide Schedule, FreeSlot, CreateTask, QueuesOk, CurrentOk, ControlOk, CountsOk, NoLostWakeup, Packed;
    StepKeeps(s, l);
    if l.Tick? || l.Resched? || l.Create? || l.Sleep? || l.Exit? || l.Kill? {
      TaskStepHistory(s, l);
    }
  }

  lemma {:induction false} HoldersConserved(s: Sys, ls: seq<Label>, t: Sys, i: nat)
    requires Inv(s) && i < |s.sems| && Runs(s, ls, t) && Disciplined(s, ls, i)
    ensures Inv(t) && |t.sems| == |s.sems| && |t.holders[i]| + t.sems[i] == |s.holders[i]| + s.sems[i]
    decreases |ls|
  {
    hide Inv, Shape, Step, Enabled;
    if ls != [] {
      StepHolders(s, ls[0], i);
      StepSignals(s, ls[0], i);
      HoldersConserved(Step(s, ls[0]), ls[1..], t, i);
    }
  }

  /** A semaphore that starts at 1 and is signalled only by its holder never
      has two holders, and has none exactly while its permit is free. */
  lemma MutualExclusion(s: Sys, ls: seq<Label>, t: Sys, i: nat, a: nat, b: nat)
    requires Boot(s) && i < |s.sems| && s.sems[i] == 1
    requires (BootInv(s); Runs(s, ls, t) && Disciplined(s, ls, i))
    ensures Inv(t) && i < |t.sems|
    ensures a in t.holders[i] && b in t.holders[i] ==> a == b && t.holders[i][a] == 1 && t.sems[i] == 0
    ensures t.holders[i] == multiset{} <==> t.sems[i] == 1
  {
    hide CurrentOk, ControlOk, QueuesOk, NoLostWakeup, Runs, Disciplined;
    BootHolders(s, i);
    HoldersConserved(s, ls, t, i);
    AtMostOne(t.holders[i], a, b);
  }

  lemma BootHolders(s: Sys, i: nat)
    requires Boot(s) && i < |s.sems|
    ensures Inv(s) && |s.holders[i]| == 0
  {
    hide CurrentOk, ControlOk, QueuesOk, NoLostWakeup, CountsOk;
    BootInv(s);
  }

  lemma AtMostOne(h: multiset<nat>, a: nat, b: nat)
    requires |h| <= 1
    ensures a in h && b in h ==> a == b && h[a] == 1
    ensures h == multiset{} <==> |h| == 0
  {
    if a in h {
      var rest := h - multiset{a};
      assert |rest| == |h| - 1;
      assert rest == multiset{};
      assert rest[a] == h[a] - 1 && (b != a ==> rest[b] == h[b]);
    }
  }

  // ----- how long a runnable task waits -----

  /** Whether step `l` calls the scheduler. */
  predicate Schedules(s: Sys, l: Label) {
    match l
    case Tick(_) => true
    case Resched(_) => true
    case Sleep(_, _) => true
    case Exit(_) => true
    case Kill(id, _) => id == s.cur && id != 0
    case _ => false
  }

  /** The scheduler calls of a run. */
  ghost function Calls(s: Sys, ls: seq<Label>): nat
    requires Inv(s)
    decreases |ls|
  {
    if ls == [] || !Enabled(s, ls[0]) then 0
    else
      StepKeeps(s, ls[0]);
      (if Schedules(s, ls[0]) then 1 else 0) + Calls(Step(s, ls[0]), ls[1..])
  }

  /** The first state of the run in which `id` is the current task. */
  ghost predicate Chosen(s: Sys, ls: seq<Label>, id: nat, at: Sys)
    requires Inv(s)
    decreases |ls|
  {
    if s.cur == id then at == s
    else ls != [] && Enabled(s, ls[0]) && (StepKeeps(s, ls[0]); Chosen(Step(s, ls[0]), ls[1..], id, at))
  }

  /** While another task runs, a runnable one stays so and its call stays where
      it is, unless it is killed; and a scheduler call brings its turn closer. */
  lemma {:induction false} TurnCloser(s: Sys, l: Label, id: nat)
    requires Inv(s) && Enabled(s, l) && id < s.n && id != s.cur && Runnable(s.tasks[id])
    requires !l.Create? && !(l.Kill? && l.id == id)
    ensures var t := Step(s, l);
      Inv(t) && t.n == s.n && t.control[id] == s.control[id] && Runnable(t.tasks[id]) &&
      (if Schedules(s, l) then t.cur == id || Distance(s.n, t.cur, id) < Distance(s.n, s.cur, id) else t.cur == s.cur)
  {
    hide Schedule, FreeSlot, QueuesOk, CountsOk, NoLostWakeup, Packed, Distance;
    StepKeeps(s, l);
    if Schedules(s, l) {
      hide *;
      SchedCloser(s, l, id);
    }
  }

  lemma {:induction false} SchedCloser(s: Sys, l: Label, id: nat)
    requires Inv(s) && Enabled(s, l) && id < s.n && id != s.cur && Runnable(s.tasks[id]) && Schedules(s, l)
    ensures var t := Step(s, l);
      t.n == s.n && t.control[id] == s.control[id] && t.cur < s.n && Runnable(t.tasks[id]) &&
      (t.cur == id || Distance(s.n, t.cur, id) < Distance(s.n, s.cur, id))
  {
    hide Schedule, FreeSlot, QueuesOk, CountsOk, NoLostWakeup, Packed, Distance;
    match l
    case Sleep(wake, now) => TableCloser(s, s.tasks[s.cur := Task(Sleeping, wake)], now, id);
    case Exit(now) => TableCloser(s, s.tasks[s.cur := s.tasks[s.cur].(state := Dead)], now, id);
    case Kill(_, now) => TableCloser(s, Killed(s, s.cur).tasks, now, id);
    case Tick(now) => TableCloser(s, s.tasks, now, id);
    case Resched(now) => TableCloser(s, s.tasks, now, id);
  }

  lemma TableCloser(s: Sys, tasks: Table, now: nat, id: nat)
    requires Shape(s) && id < s.n && id != s.cur && Runnable(tasks[id])
    ensures var c := Schedule(tasks, s.n, s.cur, now);
      c.cur < s.n && Runnable(c.tasks[id]) && (c.cur == id || Distance(s.n, c.cur, id) < Distance(s.n, s.cur, id))
  {
    hide Schedule, Distance;
    ScheduleApproaches(tasks, s.n, s.cur, now, id);
    ScheduleEffect(tasks, s.n, s.cur, now);
  }

  /** No task is created in the run, and `id` is not killed. */
  predicate Spares(ls: seq<Label>, id: nat) {
    forall l :: l in ls ==> !l.Create? && !(l.Kill? && l.id == id)
  }

  /** Bounded bypass: a runnable task is chosen after at most as many scheduler
      calls as its cyclic distance from the current task, whatever the other
      tasks do in between, and its blocking call has not moved on. */
  lemma {:induction false} BoundedBypass(s: Sys, ls: seq<Label>, t: Sys, id: nat) returns (at: Sys)
    requires Inv(s) && Runs(s, ls, t) && id < s.n && Runnable(s.tasks[id]) && Spares(ls, id)
    requires Calls(s, ls) >= Distance(s.n, s.cur, id)
    ensures Chosen(s, ls, id, at) && Inv(at) && at.control[id] == s.control[id]
    decreases |ls|
  {
    hide CurrentOk, ControlOk, QueuesOk, CountsOk, NoLostWakeup, Step, Enabled, Runnable;
    if s.cur == id {
      return s;
    }
    assert ls != [];
    TurnCloser(s, ls[0], id);
    at := BoundedBypass(Step(s, ls[0]), ls[1..], t, id);
  }

  /** With a unit available and a task waiting, there are tasks woken for that
      channel, and at most n-1 scheduler calls later one of them has become the
      current task with its check still to make, unless all of them have been
      killed, which was harmless to those who wait. */
  lemma {:induction false} WakeupArrives(s: Sys, ls: seq<Label>, t: Sys, c: Chan)
    requires Inv(s) && Runs(s, ls, t) && c in s.waiters && s.waiters[c] != [] && Available(s, c) > 0
    requires forall l :: l in ls ==> !l.Create?
    requires Calls(s, ls) >= s.n - 1
    ensures Woken(s, c) != {}
    ensures (exists id: nat, at :: id in Woken(s, c) && Arrives(s, ls, id, c, at)) ||
      (forall id: nat :: id in Woken(s, c) ==> exists l :: l in ls && l.Kill? && l.id == id)
  {
    hide Runs, Calls, Chosen, CurrentOk, QueuesOk, CountsOk;
    assert |Woken(s, c)| > 0;
    if id: nat :| id in Woken(s, c) && forall l :: l in ls ==> !(l.Kill? && l.id == id) {
      var at := BoundedBypass(s, ls, t, id);
      ChosenIsCurrent(s, ls, id, at);
      assert Arrives(s, ls, id, c, at);
    }
  }

  /** The run makes `id` the current task, for the first time in state `at`, and
      it is still in its call on `c`. */
  ghost predicate Arrives(s: Sys, ls: seq<Label>, id: nat, c: Chan, at: Sys)
    requires Inv(s)
  {
    Chosen(s, ls, id, at) && Inv(at) && at.cur == id && WaitsAt(at.control[id], c)
  }

  lemma {:induction false} ChosenIsCurrent(s: Sys, ls: seq<Label>, id: nat, at: Sys)
    requires Inv(s) && Chosen(s, ls, id, at)
    ensures at.cur == id
    decreases |ls|
  {
    hide Inv, Step;
    if s.cur != id {
      StepKeeps(s, ls[0]);
      ChosenIsCurrent(Step(s, ls[0]), ls[1..], id, at);
    }
  }
}
