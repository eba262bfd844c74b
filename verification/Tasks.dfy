/** The task table and the round-robin scheduler as functions of their state. */
module Tasks {

  const MAX_TASKS := 16

  datatype TaskState = Unused | Ready | Running | Dead | Sleeping | Blocked

  datatype Task = Task(state: TaskState, wake: nat)

  type Table = s: seq<Task> | |s| == MAX_TASKS witness seq(MAX_TASKS, _ => Task(Unused, 0))

  predicate Runnable(t: Task) {
    t.state == Ready || t.state == Running
  }

  predicate Due(t: Task, now: nat) {
    t.state == Sleeping && t.wake != 0 && now >= t.wake
  }

  /** Sleepers whose time has come become ready. */
  function WakeSleepers(tasks: Table, n: nat, now: nat): Table {
    seq(MAX_TASKS, i requires 0 <= i < MAX_TASKS => if i < n && Due(tasks[i], now) then Task(Ready, 0) else tasks[i])
  }

  /** The slot after `i` in the cyclic order of `n` slots. */
  function Succ(i: nat, n: nat): nat {
    if i + 1 < n then i + 1 else 0
  }

  /** The first runnable slot after `at`, looking at `left` slots; the last
      slot looked at when none is. */
  function Pick(tasks: Table, n: nat, at: nat, left: nat): (r: nat)
    requires at < n <= MAX_TASKS
    ensures r < n
    decreases left
  {
    if left == 0 then at
    else
      var next := Succ(at, n);
      if Runnable(tasks[next]) then next else Pick(tasks, n, next, left - 1)
  }

  datatype Cpu = Cpu(tasks: Table, cur: nat)

  function Switch(tasks: Table, prev: nat, next: nat): Cpu
    requires prev < MAX_TASKS && next < MAX_TASKS
  {
    if next == prev then Cpu(tasks, prev)
    else
      var t := if tasks[prev].state == Running then tasks[prev := tasks[prev].(state := Ready)] else tasks;
      Cpu(t[next := t[next].(state := Running)], next)
  }

  /** One call of the scheduler. */
  function Schedule(tasks: Table, n: nat, cur: nat, now: nat): Cpu
    requires cur < n <= MAX_TASKS
  {
    var t := WakeSleepers(tasks, n, now);
    if n <= 1 then Cpu(t, cur) else Switch(t, cur, Pick(t, n, cur, n))
  }

  // ----- what the scheduler chooses -----

  /** How many slots the scheduler passes before it looks at `to`. */
  function Distance(n: nat, from: nat, to: nat): nat
    requires from < n && to < n
  {
    if to >= from then to - from else to + n - from
  }

  lemma {:induction false} PickRunnable(tasks: Table, n: nat, at: nat, left: nat, t: nat)
    requires at < n <= MAX_TASKS && t < n && t != at && Runnable(tasks[t])
    requires Distance(n, at, t) <= left
    ensures var r := Pick(tasks, n, at, left);
      Runnable(tasks[r]) && r != at && Distance(n, at, r) <= Distance(n, at, t)
    decreases left
  {
    var next := Succ(at, n);
    if !Runnable(tasks[next]) {
      PickRunnable(tasks, n, next, left - 1, t);
    }
  }

  /** The scheduler picks the first runnable task in cyclic order after the
      current one, and the current one itself only when no other is. */
  lemma {:induction false} PickFirst(tasks: Table, n: nat, cur: nat)
    requires cur < n <= MAX_TASKS
    ensures var r := Pick(tasks, n, cur, n);
      (forall k: nat :: k < n && k != cur && Runnable(tasks[k]) ==>
        r != cur && Runnable(tasks[r]) && Distance(n, cur, r) <= Distance(n, cur, k)) &&
      ((forall k: nat :: k < n && k != cur ==> !Runnable(tasks[k])) ==> r == cur)
  {
    if k: nat :| k < n && k != cur && Runnable(tasks[k]) {
      forall k: nat | k < n && k != cur && Runnable(tasks[k])
        ensures var r := Pick(tasks, n, cur, n);
          r != cur && Runnable(tasks[r]) && Distance(n, cur, r) <= Distance(n, cur, k)
      {
        PickRunnable(tasks, n, cur, n, k);
      }
    } else {
      PickNone(tasks, n, cur, n, cur);
    }
  }

  lemma {:induction false} PickNone(tasks: Table, n: nat, at: nat, left: nat, cur: nat)
    requires at < n <= MAX_TASKS && cur < n && left == (if at == cur then n else Distance(n, at, cur))
    requires forall k: nat :: k < n && k != cur ==> !Runnable(tasks[k])
    ensures Pick(tasks, n, at, left) == cur
    decreases left
  {
    var next := Succ(at, n);
    if next != cur {
      PickNone(tasks, n, next, left - 1, cur);
    } else {
      assert left == 1;
      assert Pick(tasks, n, next, 0) == next;
    }
  }

  /** Every scheduler call either chooses a waiting runnable task or moves
      strictly closer to it. */
  lemma {:induction false} ScheduleApproaches(tasks: Table, n: nat, cur: nat, now: nat, t: nat)
    requires cur < n <= MAX_TASKS && t < n && t != cur && Runnable(tasks[t])
    ensures var c := Schedule(tasks, n, cur, now);
      c.cur < n && (c.cur == t || Distance(n, c.cur, t) < Distance(n, cur, t))
  {
    hide Pick;
    var w := WakeSleepers(tasks, n, now);
    assert Runnable(w[t]);
    PickFirst(w, n, cur);
  }

  /** What one scheduler call does to the table: sleepers whose time has come
      become ready, the chosen task runs, the preempted one is ready, nothing
      else changes; when no other task can run the current one goes on. */
  lemma {:induction false} ScheduleEffect(tasks: Table, n: nat, cur: nat, now: nat)
    requires cur < n <= MAX_TASKS
    requires exists k: nat :: k < n && Runnable(tasks[k])
    ensures var c := Schedule(tasks, n, cur, now);
      c.cur < n && Runnable(c.tasks[c.cur]) && (Runnable(tasks[c.cur]) || Due(tasks[c.cur], now)) &&
      (c.cur != cur ==> c.tasks[c.cur].state == Running) &&
      (forall i :: 0 <= i < MAX_TASKS && i != cur && i != c.cur ==>
        c.tasks[i] == if i < n && Due(tasks[i], now) then Task(Ready, 0) else tasks[i]) &&
      (c.cur != cur ==> (c.tasks[cur].state ==
        if tasks[cur].state == Running || Due(tasks[cur], now) then Ready else tasks[cur].state)) &&
      (c.cur == cur ==> c.tasks[cur] == if Due(tasks[cur], now) then Task(Ready, 0) else tasks[cur])
  {
    hide Pick;
    var w := WakeSleepers(tasks, n, now);
    var k: nat :| k < n && Runnable(tasks[k]);
    assert Runnable(w[k]);
    PickFirst(w, n, cur);
  }

  /** A sleeping task is made ready by exactly the scheduler calls from its wake
      time on, by none when that is 0, and until then it stays as it is. */
  lemma {:induction false} SleepEnds(tasks: Table, n: nat, cur: nat, now: nat, i: nat)
    requires cur < n <= MAX_TASKS && i < n && tasks[i].state == Sleeping
    ensures var t := Schedule(tasks, n, cur, now).tasks[i];
      (t.state == Ready || t.state == Running <==> tasks[i].wake != 0 && now >= tasks[i].wake) &&
      (t.state != Ready && t.state != Running ==> t == tasks[i])
  {
    hide Pick;
    PickFirst(WakeSleepers(tasks, n, now), n, cur);
  }
}
