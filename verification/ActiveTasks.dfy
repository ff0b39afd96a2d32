// Registration of running tasks under identifiers that are reused only after 64-bit wrap-around.
module ActiveTasks {
  import opened Prelude

  datatype Task = Task(message: nat, correlation: nat, attempt: nat, startedAt: int)

  datatype RegistrationError = CapacityExhausted | IdentifierSpaceExhausted

  // The identifier after `id`: the next 64-bit value, skipping zero.
  function Successor(id: nat): nat {
    if id + 1 >= U64_LIMIT then 1 else id + 1
  }

  predicate Identifier(id: nat) {
    0 < id < U64_LIMIT
  }

  // The k-th identifier tried from `start`.
  function Probe(start: nat, k: nat): nat {
    if k == 0 then start else Successor(Probe(start, k - 1))
  }

  // Probing walks the nonzero identifiers in a cycle of 2^64 - 1 steps.
  lemma {:induction false} ProbeIsCyclic(start: nat, k: nat)
    requires Identifier(start) && k < U64_LIMIT
    ensures Identifier(Probe(start, k))
    ensures Probe(start, k) == if start + k < U64_LIMIT then start + k else start + k - (U64_LIMIT - 1)
  {
    if k > 0 {
      ProbeIsCyclic(start, k - 1);
    }
  }

  lemma ProbesAreDistinct(start: nat, i: nat, j: nat)
    requires Identifier(start) && i < j < U64_LIMIT - 1
    ensures Probe(start, i) != Probe(start, j)
  {
    ProbeIsCyclic(start, i);
    ProbeIsCyclic(start, j);
  }

  // Among |used| + 1 consecutive probes one is free, as long as that many identifiers exist.
  lemma SomeProbeIsFree(start: nat, used: set<nat>)
    requires Identifier(start) && |used| + 1 < U64_LIMIT
    ensures exists k :: 0 <= k <= |used| && Probe(start, k) !in used
  {
    var n := |used| + 1;
    if forall k :: 0 <= k < n ==> Probe(start, k) in used {
      var tried := seq(n, k requires k >= 0 => Probe(start, k));
      forall i, j | 0 <= i < j < n ensures tried[i] != tried[j] {
        ProbesAreDistinct(start, i, j);
      }
      Pigeonhole(tried, used);
    }
  }

  class ActiveTaskRegistry {
    const capacity: nat
    var nextTaskId: nat
    var tasks: map<nat, Task>
    // Identifiers of the guards that have not been dropped.
    ghost var guards: set<nat>

    ghost predicate Valid()
      reads this
    {
      && capacity < U64_LIMIT && Identifier(nextTaskId) && tasks.Keys == guards
      && |tasks| <= capacity && forall id <- tasks :: Identifier(id)
    }

    constructor (capacity: nat)
      requires capacity < U64_LIMIT
      ensures Valid() && this.capacity == capacity && tasks == map[]
    {
      this.capacity := capacity;
      nextTaskId, tasks, guards := 1, map[], {};
    }

    // The first free identifier in cyclic order, found within |tasks| + 1 probes.
    method AllocateTaskId() returns (id: Option<nat>, ghost probes: nat)
      requires Identifier(nextTaskId)
      modifies this`nextTaskId
      ensures Identifier(nextTaskId)
      ensures |tasks| + 1 < U64_LIMIT ==> id.Some?
      ensures id.Some? ==> id.value !in tasks && Identifier(id.value)
      ensures id.Some? ==> id.value == Probe(old(nextTaskId), probes) && probes <= |tasks|
      ensures id.Some? ==> nextTaskId == Successor(id.value)
      ensures forall i :: 0 <= i < probes ==> Probe(old(nextTaskId), i) in tasks
      ensures id.None? ==> probes == |tasks| + 1
    {
      ghost var start := nextTaskId;
      if |tasks| + 1 < U64_LIMIT { SomeProbeIsFree(start, tasks.Keys); }
      for k := 0 to |tasks| + 1
        invariant nextTaskId == Probe(start, k) && Identifier(nextTaskId)
        invariant forall i :: 0 <= i < k ==> Probe(start, i) in tasks
      {
        var candidate := nextTaskId;
        nextTaskId := (nextTaskId + 1) % U64_LIMIT;
        if nextTaskId == 0 { nextTaskId := 1; }
        assert nextTaskId == Probe(start, k + 1);
        if candidate !in tasks { return Some(candidate), k; }
      }
      return None, |tasks| + 1;
    }

    // A registration is refused for capacity only. Its identifier is held by no other live guard.
    method Register(task: Task) returns (r: Result<nat, RegistrationError>)
      requires Valid()
      modifies this
      ensures Valid()
      ensures r.Err? <==> |old(tasks)| >= capacity
      ensures r.Err? ==> r.error == CapacityExhausted && tasks == old(tasks) && guards == old(guards)
      ensures r.Ok? ==> Identifier(r.value) && r.value !in old(guards) && r.value !in old(tasks)
      ensures r.Ok? ==> tasks == old(tasks)[r.value := task] && guards == old(guards) + {r.value}
    {
      if |tasks| >= capacity { return Err(CapacityExhausted); }
      var id, _ := AllocateTaskId();
      if id.None? { return Err(IdentifierSpaceExhausted); }
      tasks := tasks[id.value := task];
      guards := guards + {id.value};
      return Ok(id.value);
    }

    // Dropping a guard removes exactly the task it registered.
    method DropGuard(id: nat)
      requires Valid() && id in guards
      modifies this
      ensures Valid() && id in old(tasks)
      ensures tasks == old(tasks) - {id} && guards == old(guards) - {id} && nextTaskId == old(nextTaskId)
    {
      assert (tasks - {id}).Keys == tasks.Keys - {id};
      tasks := tasks - {id};
      guards := guards - {id};
    }
  }
}
