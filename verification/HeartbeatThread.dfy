// The heartbeat thread as it runs: a shared list of mutable task objects, updated and removed
// from while it is being iterated. Each method is proved equal to the value-level pass.
module HeartbeatThread {
  import V = Tasks

  /** The mutable `Task` dataclass; `id` stands for object identity. */
  class Task {
    const id: nat
    const createTime: int
    const ipAddress: string
    var expireTime: int
    var executeCmd: string
    var heartbeatCheck: bool

    constructor (id: nat, createTime: int, expireTime: int, ipAddress: string, executeCmd: string)
      ensures Value() == V.Task(id, createTime, expireTime, ipAddress, executeCmd, false)
    {
      this.id, this.createTime, this.ipAddress := id, createTime, ipAddress;
      this.expireTime, this.executeCmd, this.heartbeatCheck := expireTime, executeCmd, false;
    }

    function Value(): V.Task
      reads this
    {
      V.Task(id, createTime, expireTime, ipAddress, executeCmd, heartbeatCheck)
    }
  }

  /** The objects' current values. */
  ghost function Values(ts: seq<Task>): (vs: seq<V.Task>)
    reads ts
    ensures |vs| == |ts|
    ensures forall i :: 0 <= i < |ts| ==> vs[i] == ts[i].Value()
  {
    seq(|ts|, i requires 0 <= i < |ts| reads ts => ts[i].Value())
  }

  class Heartbeat {
    var executingTasks: seq<Task>

    /** Every object is listed once. */
    ghost predicate Valid()
      reads this
    {
      forall i, j :: 0 <= i < j < |executingTasks| ==> executingTasks[i].id != executingTasks[j].id
    }

    constructor ()
      ensures Valid() && executingTasks == []
    {
      executingTasks := [];
    }

    /** Registers a device with a deadline three minutes ahead. */
    method RegisterTask(targetIp: string, command: string, now: int, id: nat)
      requires Valid() && forall t | t in executingTasks :: t.id != id
      modifies this
      ensures Valid()
      ensures Values(executingTasks)
           == old(Values(executingTasks)) + [V.Task(id, now, now + 180 * V.SECOND, targetIp, command, false)]
    {
      var task := new Task(id, now, now + 180 * V.SECOND, targetIp, command);
      executingTasks := executingTasks + [task];
    }

    /** Flags set by the log matcher between two steps of this thread. */
    method Interference(marks: set<nat>)
      requires Valid()
      modifies executingTasks
      ensures Values(executingTasks) == V.Mark(old(Values(executingTasks)), marks)
    {
      var tasks := executingTasks;
      ghost var before := Values(tasks);
      for i := 0 to |tasks|
        invariant forall k :: 0 <= k < i ==>
                    tasks[k].Value() == if before[k].id in marks then before[k].(flagged := true) else before[k]
        invariant forall k :: i <= k < |tasks| ==> tasks[k].Value() == before[k]
      {
        if tasks[i].id in marks {
          tasks[i].heartbeatCheck := true;
        }
      }
      assert Values(tasks) == V.Mark(before, marks);
    }

    /** Extends a task whose heartbeat arrived. */
    method UpdatedTask(ghost i: nat, targetTask: Task, now: int, token: string)
      requires Valid() && i < |executingTasks| && executingTasks[i] == targetTask
      modifies targetTask
      ensures Values(executingTasks) == old(Values(executingTasks))[i := V.Refresh(old(targetTask.Value()), now, token)]
    {
      targetTask.heartbeatCheck := false;
      var keyCommand := V.TOUCH + token;
      var command := keyCommand + V.RESET;
      targetTask.expireTime := now + 15 * V.SECOND;
      targetTask.executeCmd := command;
    }

    /** The search of `list.remove`: the first entry that is the task or equals it by value. */
    method FindTask(ghost i: nat, task: Task) returns (j: nat)
      requires i < |executingTasks| && executingTasks[i] == task
      ensures j <= i && j == V.FirstSame(Values(executingTasks), task.Value())
    {
      assert V.Same(Values(executingTasks)[i], task.Value());
      j := 0;
      while !V.Same(executingTasks[j].Value(), task.Value())
        invariant 0 <= j <= i
        invariant forall k :: 0 <= k < j ==> !V.Same(Values(executingTasks)[k], task.Value())
        decreases i - j
      {
        j := j + 1;
      }
    }

    /** `list.remove`. */
    method RemoveTask(ghost i: nat, task: Task)
      requires Valid() && i < |executingTasks| && executingTasks[i] == task
      modifies this
      ensures Valid()
      ensures Values(executingTasks) == V.Remove(old(Values(executingTasks)), task.Value())
      ensures forall k :: 0 <= k < |executingTasks| ==> executingTasks[k] in old(executingTasks)
    {
      var j := FindTask(i, task);
      ghost var before, tasks := Values(executingTasks), executingTasks;
      executingTasks := executingTasks[..j] + executingTasks[j + 1..];
      assert forall k :: 0 <= k < |executingTasks| ==> executingTasks[k] == tasks[if k < j then k else k + 1];
      assert Values(executingTasks) == V.RemoveAt(before, j);
    }

    /** One iteration of the expiry loop. */
    method ExamineTask(i: nat, e: V.Reads)
      requires Valid() && i < |executingTasks|
      modifies this, executingTasks
      ensures Valid()
      ensures Values(executingTasks) == V.Examine(old(Values(executingTasks)), i, e)
      ensures forall k :: 0 <= k < |executingTasks| ==> executingTasks[k] in old(executingTasks)
    {
      Interference(e.marks);
      var task := executingTasks[i];
      if task.heartbeatCheck {
        UpdatedTask(i, task, e.refreshNow, e.token);
      }
      Interference(e.lateMarks);
      if task.expireTime <= e.checkNow {
        RemoveTask(i, task);
      }
    }

    /** One iteration, seen from the whole pass: what the pass will come to does not change. */
    method AdvanceScan(i: nat, env: nat -> V.Reads)
      requires Valid() && i < |executingTasks|
      modifies this, executingTasks
      ensures Valid() && |executingTasks| <= old(|executingTasks|)
      ensures V.Scan(Values(executingTasks), i + 1, env) == old(V.Scan(Values(executingTasks), i, env))
      ensures forall k :: 0 <= k < |executingTasks| ==> executingTasks[k] in old(executingTasks)
    {
      V.ScanStep(Values(executingTasks), i, env);
      ExamineTask(i, env(i));
    }

    /**
     * The whole pass: Python's iterator advances its index by one each time, also after a
     * removal has shifted the list.
     */
    method CheckExpire(env: nat -> V.Reads)
      requires Valid()
      modifies this, executingTasks
      ensures Valid()
      ensures Values(executingTasks) == V.Scan(old(Values(executingTasks)), 0, env)
    {
      var i: nat := 0;
      ghost var outcome := V.Scan(Values(executingTasks), 0, env);
      while i < |executingTasks|
        invariant Valid()
        invariant forall k :: 0 <= k < |executingTasks| ==> executingTasks[k] in old(executingTasks)
        invariant V.Scan(Values(executingTasks), i, env) == outcome
        decreases |executingTasks| - i
      {
        AdvanceScan(i, env);
        i := i + 1;
      }
      V.ScanEnd(Values(executingTasks), i, env);
    }
  }
}
