/** The agent's tick: fetch, validate, run the release tasks that have not been
    satisfied yet, and only then reconcile the workloads.  A persisted record
    per task keeps it from being run again. */
module Agents {
  import opened Text
  import opened ScopedKeys
  import opened DesiredStates

  datatype Record = Record(sequence: int, hash: string)

  /** The lifecycle file as `load` finds it. */
  datatype File = Absent | Corrupt | Saved(tasks: map<string, Record>)

  datatype Result = Result(created: nat, updated: nat, removed: nat, untouched: nat)

  /** `addReconcileMutations`: everything but the unchanged count. */
  function AddMutations(total: Result, delta: Result): Result {
    Result(total.created + delta.created, total.updated + delta.updated, total.removed + delta.removed, total.untouched)
  }

  datatype Event =
    | Found(name: string)                      // the task's record was there
    | Support(environment: string, ok: bool)   // support services brought up
    | Ran(name: string, ok: bool)              // the task ran; ok means exit code zero
    | Swapped(ok: bool)                        // workloads reconciled

  /** `lifecycle.Store`, with a ghost count of the faults that can make it
      forget: failed reads and writes, and outside interference. */
  class Store {
    /** Whether a state path is configured at all. */
    const persistent: bool
    var file: File
    ghost var faults: nat

    constructor (persistent: bool, file: File)
      ensures this.persistent == persistent && this.file == file && faults == 0
    {
      this.persistent, this.file, faults := persistent, file, 0;
    }

    function Tasks(): map<string, Record>
      reads this
    {
      if persistent && file.Saved? then file.tasks else map[]
    }

    predicate Recorded(name: string, record: Record)
      reads this
    {
      name in Tasks() && Tasks()[name] == record
    }

    method Satisfied(name: string, sequence: int, hash: string) returns (r: bool)
      modifies this`faults
      ensures r ==> persistent && file.Saved? && name in file.tasks && file.tasks[name] == Record(sequence, hash)
      ensures r ==> Recorded(name, Record(sequence, hash)) && faults == old(faults)
      ensures !r ==> if Recorded(name, Record(sequence, hash)) then faults == old(faults) + 1 else faults >= old(faults)
    {
      var readable: bool := *;
      if !readable && persistent {
        faults := faults + 1;
        return false;
      }
      return name in Tasks() && Tasks()[name] == Record(sequence, hash);
    }

    method MarkSatisfied(name: string, sequence: int, hash: string) returns (ok: bool)
      modifies this
      ensures ok && persistent ==> Tasks() == old(Tasks())[name := Record(sequence, hash)] && faults == old(faults)
      ensures !ok || !persistent ==> file == old(file)
      ensures faults == old(faults) + (if ok then 0 else 1)
    {
      var readable: bool, writable: bool := *, *;
      ok := true;
      if !persistent { return; }
      if !readable || !writable {
        faults := faults + 1;
        return false;
      }
      file := Saved(Tasks()[name := Record(sequence, hash)]);
    }

    /** Somebody else replaces the file. */
    method Interfere(replacement: File)
      modifies this
      ensures file == replacement && faults == old(faults) + 1
    {
      file, faults := replacement, faults + 1;
    }
  }

  /** `runtimeReconciler`, seen from the agent: calls that may fail. */
  class Runtime {
    ghost var events: seq<Event>
    /** What its successful calls have changed so far, and what the last full
        reconciliation left unchanged. */
    ghost var done: Result

    method ReconcileSupportServices(environment: string) returns (ok: bool, result: Result)
      modifies this
      ensures events == old(events) + [Support(environment, ok)]
      ensures done == if ok then old(done).(created := old(done).created + result.created,
                                            updated := old(done).updated + result.updated,
                                            removed := old(done).removed + result.removed) else old(done)
    {
      ok, result := *, *;
      if ok {
        done := Result(done.created + result.created, done.updated + result.updated, done.removed + result.removed,
                       done.untouched);
      }
      events := events + [Support(environment, ok)];
    }

    method RunTask(ghost name: string) returns (ok: bool)
      modifies this`events
      ensures events == old(events) + [Ran(name, ok)]
    {
      ok := *;
      events := events + [Ran(name, ok)];
    }

    method Reconcile() returns (ok: bool, result: Result)
      modifies this
      ensures events == old(events) + [Swapped(ok)]
      ensures done == if ok then Result(old(done).created + result.created, old(done).updated + result.updated,
                                        old(done).removed + result.removed, result.untouched) else old(done)
    {
      ok, result := *, *;
      if ok {
        done := Result(done.created + result.created, done.updated + result.updated, done.removed + result.removed,
                       result.untouched);
      }
      events := events + [Swapped(ok)];
    }

    /** The status read for the report. */
    method CurrentStatus() returns (ok: bool)
    {
      ok := *;
    }

    ghost method Note(e: Event)
      modifies this`events
      ensures events == old(events) + [e]
    {
      events := events + [e];
    }
  }

  /** The workloads were swapped, successfully, at the end. */
  ghost predicate Swaps(events: seq<Event>) {
    events != [] && events[|events| - 1] == Swapped(true)
  }

  /** How often task `name` completed successfully. */
  ghost function Successes(events: seq<Event>, name: string): nat {
    if events == [] then 0
    else Successes(events[..|events| - 1], name) + (if events[|events| - 1] == Ran(name, true) then 1 else 0)
  }

  lemma {:induction false} SuccessesAppend(a: seq<Event>, b: seq<Event>, name: string)
    ensures Successes(a + b, name) == Successes(a, name) + Successes(b, name)
  {
    if b == [] {
      assert a + b == a;
    } else {
      SuccessesAppend(a, b[..|b| - 1], name);
      assert (a + b)[..|a + b| - 1] == a + b[..|b| - 1];
    }
  }

  lemma SuccessesOne(e: Event, name: string)
    ensures Successes([e], name) == if e == Ran(name, true) then 1 else 0
  {
    assert [e][..0] == [];
  }

  /** Within one tick: the task's record was found, or it exited zero after its
      environment's support services were up. */
  ghost predicate Cleared(seg: seq<Event>, name: string, environment: string) {
    || (exists i :: 0 <= i < |seg| && seg[i] == Found(name))
    || (exists i, j :: 0 <= i < j < |seg| && seg[i] == Support(environment, true) && seg[j] == Ran(name, true))
  }

  lemma ClearedExtends(a: seq<Event>, b: seq<Event>, name: string, environment: string)
    requires Cleared(a, name, environment)
    ensures Cleared(a + b, name, environment)
  {
    var ab := a + b;
    if i :| 0 <= i < |a| && a[i] == Found(name) {
      assert ab[i] == Found(name);
    } else {
      var i, j :| 0 <= i < j < |a| && a[i] == Support(environment, true) && a[j] == Ran(name, true);
      assert ab[i] == Support(environment, true) && ab[j] == Ran(name, true);
    }
  }

  function Lookup(records: map<string, Record>, name: string): Option<Record> {
    if name in records then Some(records[name]) else None
  }

  function StoreNameOf(task: RuntimeTask): string {
    TaskStoreName(task.environmentName, task.task.name)
  }

  /** Tasks of a validated state share a record exactly when they have the same
      environment and the same name. */
  lemma SharedRecord(a: RuntimeTask, b: RuntimeTask)
    requires !Blank(a.environmentName) && !Blank(b.environmentName)
    ensures StoreNameOf(a) == StoreNameOf(b) <==>
            Trim(a.environmentName) == Trim(b.environmentName) && Trim(a.task.name) == Trim(b.task.name)
  {
    TaskStoreNameInjective(a.environmentName, a.task.name, b.environmentName, b.task.name);
  }

  /** The events of handling one task; `first` says that its environment's
      support services are not up yet in this tick. */
  ghost predicate TaskSegment(seg: seq<Event>, ok: bool, name: string, environment: string, first: bool) {
    || (seg == [] && !ok)
    || (seg == [Found(name)] && ok)
    || (first && seg == [Support(environment, false)] && !ok)
    || (first && seg == [Support(environment, true), Ran(name, ok)])
    || (!first && seg == [Ran(name, ok)])
  }

  /** 1 when the segment ends with a successful run. */
  ghost function RunsIn(seg: seq<Event>, ok: bool): nat {
    if ok && seg != [] && seg[|seg| - 1].Ran? then 1 else 0
  }

  ghost predicate OtherRecordsKept(name: string, before: map<string, Record>, after: map<string, Record>) {
    && (forall n <- before :: n != name ==> n in after && after[n] == before[n])
    && (forall n <- after :: n != name ==> n in before)
  }

  lemma SegmentSuccesses(seg: seq<Event>, ok: bool, name: string, environment: string, first: bool, other: string)
    requires TaskSegment(seg, ok, name, environment, first)
    ensures Successes(seg, other) == if other == name then RunsIn(seg, ok) else 0
  {
    if |seg| == 1 {
      SuccessesOne(seg[0], other);
    } else if |seg| == 2 {
      SuccessesAppend([seg[0]], [seg[1]], other);
      assert [seg[0]] + [seg[1]] == seg;
      SuccessesOne(seg[0], other);
      SuccessesOne(seg[1], other);
    }
  }

  ghost predicate TasksCleared(seg: seq<Event>, tasks: seq<RuntimeTask>, n: nat)
    requires n <= |tasks|
  {
    forall i :: 0 <= i < n ==> Cleared(seg, StoreNameOf(tasks[i]), tasks[i].environmentName)
  }

  class Agent {
    const store: Store
    const runtime: Runtime
    const hashTask: Task -> Option<string>
    const sanitize: string -> string

    constructor (store: Store, runtime: Runtime, hashTask: Task -> Option<string>, sanitize: string -> string)
      ensures this.store == store && this.runtime == runtime && this.hashTask == hashTask && this.sanitize == sanitize
    {
      this.store, this.runtime, this.hashTask, this.sanitize := store, runtime, hashTask, sanitize;
    }

    /** The record that keeps `task` from being run again at `sequence`. */
    function RecordOf(task: RuntimeTask, sequence: int): Option<Record> {
      if hashTask(task.task).Some? then Some(Record(sequence, hashTask(task.task).value)) else None
    }

    /** 1 when the task is on record, else 0. */
    ghost function OnRecord(task: RuntimeTask, sequence: int, records: map<string, Record>): nat {
      if hashTask(task.task).Some? && Lookup(records, StoreNameOf(task)) == RecordOf(task, sequence) then 1 else 0
    }

    /** Tasks that share a lifecycle record have the same hash. */
    ghost predicate OneHashEach(tasks: seq<RuntimeTask>) {
      forall i, j :: 0 <= i < j < |tasks| && StoreNameOf(tasks[i]) == StoreNameOf(tasks[j]) ==>
        hashTask(tasks[i].task) == hashTask(tasks[j].task)
    }

    /** Every success of a task is paid for by a record it did not have before or
        by a fault of the store. */
    ghost predicate Paid(tasks: seq<RuntimeTask>, sequence: int, seg: seq<Event>,
                         before: map<string, Record>, after: map<string, Record>, faults: nat) {
      forall i :: 0 <= i < |tasks| ==> PaidFor(tasks[i], sequence, seg, before, after, faults)
    }

    ghost predicate PaidFor(task: RuntimeTask, sequence: int, seg: seq<Event>,
                            before: map<string, Record>, after: map<string, Record>, faults: nat) {
      Successes(seg, StoreNameOf(task)) + OnRecord(task, sequence, before) <= OnRecord(task, sequence, after) + faults
    }

    lemma NothingPaid(tasks: seq<RuntimeTask>, sequence: int, records: map<string, Record>)
      ensures Paid(tasks, sequence, [], records, records, 0)
    {
      hide OnRecord, StoreNameOf;
    }

    lemma PaidTwice(tasks: seq<RuntimeTask>, sequence: int, a: seq<Event>, b: seq<Event>,
                    m0: map<string, Record>, m1: map<string, Record>, m2: map<string, Record>, f1: nat, f2: nat)
      requires Paid(tasks, sequence, a, m0, m1, f1) && Paid(tasks, sequence, b, m1, m2, f2)
      ensures Paid(tasks, sequence, a + b, m0, m2, f1 + f2)
    {
      hide OnRecord, StoreNameOf, Successes;
      forall i | 0 <= i < |tasks| ensures PaidFor(tasks[i], sequence, a + b, m0, m2, f1 + f2) {
        assert PaidFor(tasks[i], sequence, a, m0, m1, f1) && PaidFor(tasks[i], sequence, b, m1, m2, f2);
        SuccessesAppend(a, b, StoreNameOf(tasks[i]));
      }
    }

    /** Handling one task keeps the books of all of them: another task either has
        another record or the very same one. */
    lemma TaskPaid(tasks: seq<RuntimeTask>, i: nat, sequence: int, part: seq<Event>, ok: bool, first: bool,
                   before: map<string, Record>, after: map<string, Record>, faults: nat)
      requires i < |tasks| && OneHashEach(tasks)
      requires TaskSegment(part, ok, StoreNameOf(tasks[i]), tasks[i].environmentName, first)
      requires RunsIn(part, ok) + OnRecord(tasks[i], sequence, before) <= OnRecord(tasks[i], sequence, after) + faults
      requires OtherRecordsKept(StoreNameOf(tasks[i]), before, after)
      ensures Paid(tasks, sequence, part, before, after, faults)
    {
      hide StoreNameOf, Successes, TaskSegment, RunsIn;
      forall j | 0 <= j < |tasks| ensures PaidFor(tasks[j], sequence, part, before, after, faults) {
        SegmentSuccesses(part, ok, StoreNameOf(tasks[i]), tasks[i].environmentName, first, StoreNameOf(tasks[j]));
        if StoreNameOf(tasks[j]) == StoreNameOf(tasks[i]) { assert hashTask(tasks[i].task) == hashTask(tasks[j].task); }
      }
    }

    // ---- how often a shared record makes tasks run ----

    /** The record `name` after the first `n` tasks, if they all succeed and the
        store works. */
    ghost function RecordAfter(tasks: seq<RuntimeTask>, n: nat, sequence: int, name: string,
                               start: Option<Record>): Option<Record>
      requires n <= |tasks|
    {
      if n == 0 then start
      else if StoreNameOf(tasks[n - 1]) == name then RecordOf(tasks[n - 1], sequence)
      else RecordAfter(tasks, n - 1, sequence, name, start)
    }

    /** How many of the first `n` tasks with record `name` find another record than
        their own. */
    ghost function Reruns(tasks: seq<RuntimeTask>, n: nat, sequence: int, name: string, start: Option<Record>): nat
      requires n <= |tasks|
    {
      if n == 0 then 0
      else
        Reruns(tasks, n - 1, sequence, name, start) +
        (if StoreNameOf(tasks[n - 1]) == name &&
            RecordAfter(tasks, n - 1, sequence, name, start) != RecordOf(tasks[n - 1], sequence)
         then 1 else 0)
    }

    /** The first `n` tasks ran exactly as often as their records changed hands. */
    ghost predicate Counted(tasks: seq<RuntimeTask>, n: nat, sequence: int, seg: seq<Event>,
                            before: map<string, Record>, after: map<string, Record>)
      requires n <= |tasks|
    {
      forall name ::
        && Successes(seg, name) == Reruns(tasks, n, sequence, name, Lookup(before, name))
        && Lookup(after, name) == RecordAfter(tasks, n, sequence, name, Lookup(before, name))
    }

    lemma CountStarts(tasks: seq<RuntimeTask>, sequence: int, records: map<string, Record>)
      ensures Counted(tasks, 0, sequence, [], records, records)
    {
    }

    lemma CountStep(tasks: seq<RuntimeTask>, n: nat, sequence: int, seg: seq<Event>, part: seq<Event>, first: bool,
                    before: map<string, Record>, middle: map<string, Record>, after: map<string, Record>)
      requires n < |tasks| && Counted(tasks, n, sequence, seg, before, middle)
      requires TaskSegment(part, true, StoreNameOf(tasks[n]), tasks[n].environmentName, first)
      requires RunsIn(part, true) == (if Lookup(middle, StoreNameOf(tasks[n])) == RecordOf(tasks[n], sequence) then 0
                                      else 1)
      requires Lookup(after, StoreNameOf(tasks[n])) == RecordOf(tasks[n], sequence)
      requires OtherRecordsKept(StoreNameOf(tasks[n]), middle, after)
      ensures Counted(tasks, n + 1, sequence, seg + part, before, after)
    {
      hide StoreNameOf, Successes, TaskSegment, RunsIn, RecordOf;
      forall name
        ensures Successes(seg + part, name) == Reruns(tasks, n + 1, sequence, name, Lookup(before, name))
        ensures Lookup(after, name) == RecordAfter(tasks, n + 1, sequence, name, Lookup(before, name))
      {
        assert Successes(seg, name) == Reruns(tasks, n, sequence, name, Lookup(before, name));
        SuccessesAppend(seg, part, name);
        SegmentSuccesses(part, true, StoreNameOf(tasks[n]), tasks[n].environmentName, first, name);
      }
    }

    lemma CountEnds(tasks: seq<RuntimeTask>, sequence: int, seg: seq<Event>, before: map<string, Record>,
                    after: map<string, Record>)
      requires Counted(tasks, |tasks|, sequence, seg, before, after)
      ensures Counted(tasks, |tasks|, sequence, seg + [Swapped(true)], before, after)
    {
      hide StoreNameOf, Successes, RecordOf;
      forall name ensures Successes(seg + [Swapped(true)], name) == Successes(seg, name) {
        SuccessesAppend(seg, [Swapped(true)], name);
        SuccessesOne(Swapped(true), name);
      }
      forall name ensures Successes(seg, name) == Reruns(tasks, |tasks|, sequence, name, Lookup(before, name)) &&
                          Lookup(after, name) == RecordAfter(tasks, |tasks|, sequence, name, Lookup(before, name)) { }
    }

    /** With no change of hands every task found its own record; with exactly one
        the record is not what it was. */
    lemma {:induction false} RerunsShape(tasks: seq<RuntimeTask>, n: nat, sequence: int, name: string,
                                         start: Option<Record>)
      requires n <= |tasks|
      ensures Reruns(tasks, n, sequence, name, start) == 0 ==>
        && RecordAfter(tasks, n, sequence, name, start) == start
        && forall k :: 0 <= k < n && StoreNameOf(tasks[k]) == name ==> RecordOf(tasks[k], sequence) == start
      ensures Reruns(tasks, n, sequence, name, start) == 1 ==> RecordAfter(tasks, n, sequence, name, start) != start
    {
      hide StoreNameOf, RecordOf;
      if n > 0 { RerunsShape(tasks, n - 1, sequence, name, start); }
    }

    lemma {:induction false} NoReruns(tasks: seq<RuntimeTask>, n: nat, sequence: int, name: string,
                                      start: Option<Record>)
      requires n <= |tasks| && forall k :: 0 <= k < n && StoreNameOf(tasks[k]) == name ==>
        RecordOf(tasks[k], sequence) == start
      ensures Reruns(tasks, n, sequence, name, start) == 0 && RecordAfter(tasks, n, sequence, name, start) == start
    {
      hide StoreNameOf, RecordOf;
      if n > 0 { NoReruns(tasks, n - 1, sequence, name, start); }
    }

    lemma {:induction false} RecordIsLast(tasks: seq<RuntimeTask>, n: nat, sequence: int, name: string,
                                          start: Option<Record>)
      requires n <= |tasks|
      ensures (forall k :: 0 <= k < n ==> StoreNameOf(tasks[k]) != name) ==>
        RecordAfter(tasks, n, sequence, name, start) == start
      ensures (exists k :: 0 <= k < n && StoreNameOf(tasks[k]) == name) ==>
                exists k :: 0 <= k < n && StoreNameOf(tasks[k]) == name &&
                  RecordAfter(tasks, n, sequence, name, start) == RecordOf(tasks[k], sequence)
    {
      hide StoreNameOf, RecordOf;
      if n > 0 {
        RecordIsLast(tasks, n - 1, sequence, name, start);
        if StoreNameOf(tasks[n - 1]) != name && exists k :: 0 <= k < n && StoreNameOf(tasks[k]) == name {
          var k :| 0 <= k < n - 1 && StoreNameOf(tasks[k]) == name &&
                   RecordAfter(tasks, n - 1, sequence, name, start) == RecordOf(tasks[k], sequence);
        }
      }
    }

    /** The tasks with this record have one hash. */
    ghost predicate OneHash(tasks: seq<RuntimeTask>, name: string) {
      forall i, j ::
        && 0 <= i < |tasks| && 0 <= j < |tasks|
        && StoreNameOf(tasks[i]) == name && StoreNameOf(tasks[j]) == name ==>
        hashTask(tasks[i].task) == hashTask(tasks[j].task)
    }

    /** Once a tick has succeeded, the next successful one runs none of the tasks
        that share a record if they have one hash, and at least two of them if they
        do not. */
    lemma SharedRecordRuns(tasks: seq<RuntimeTask>, sequence: int, name: string, start: Option<Record>)
      ensures
        var left := RecordAfter(tasks, |tasks|, sequence, name, start);
        && (Reruns(tasks, |tasks|, sequence, name, left) == 0 <==> OneHash(tasks, name))
        && (Reruns(tasks, |tasks|, sequence, name, left) >= 2 <==> !OneHash(tasks, name))
    {
      hide StoreNameOf, RecordAfter, Reruns;
      var n := |tasks|;
      var left := RecordAfter(tasks, n, sequence, name, start);
      RerunsShape(tasks, n, sequence, name, left);
      RecordTwice(tasks, n, sequence, name, start, left);
      if OneHash(tasks, name) {
        RecordIsLast(tasks, n, sequence, name, start);
        forall k | 0 <= k < n && StoreNameOf(tasks[k]) == name ensures RecordOf(tasks[k], sequence) == left { }
        NoReruns(tasks, n, sequence, name, left);
      }
      if Reruns(tasks, n, sequence, name, left) == 0 {
        forall i, j | 0 <= i < n && 0 <= j < n && StoreNameOf(tasks[i]) == name && StoreNameOf(tasks[j]) == name
          ensures hashTask(tasks[i].task) == hashTask(tasks[j].task)
        {
          assert RecordOf(tasks[i], sequence) == left && RecordOf(tasks[j], sequence) == left;
        }
      }
    }

    /** A tick leaves the record that the one before left. */
    lemma {:induction false} RecordTwice(tasks: seq<RuntimeTask>, n: nat, sequence: int, name: string,
                                         a: Option<Record>, b: Option<Record>)
      requires n <= |tasks|
      ensures RecordAfter(tasks, n, sequence, name, a) == RecordAfter(tasks, n, sequence, name, b) ||
              (RecordAfter(tasks, n, sequence, name, a) == a && RecordAfter(tasks, n, sequence, name, b) == b)
    {
      hide StoreNameOf, RecordOf;
      if n > 0 { RecordTwice(tasks, n - 1, sequence, name, a, b); }
    }

    /** `ensureTaskSatisfied`, with the closure that brings up the support
        services of the task's environment unless this tick already did. */
    method EnsureTaskSatisfied(task: RuntimeTask, sequence: int, ready: set<string>, supported: Result)
      returns (ok: bool, ready': set<string>, supported': Result, ghost seg: seq<Event>)
      modifies store, runtime
      ensures runtime.events == old(runtime.events) + seg
      ensures ok ==> hashTask(task.task).Some?
      ensures TaskSegment(seg, ok, StoreNameOf(task), task.environmentName, task.environmentName !in ready)
      ensures ready' == if |seg| == 2 then ready + {task.environmentName} else ready
      // the running total gains what bringing up the support services changed
      ensures forall total :: old(runtime.done) == AddMutations(total, supported) ==>
        runtime.done == AddMutations(total, supported')
      // a success is paid for by a new record or by a fault of the store
      ensures store.persistent ==>
        RunsIn(seg, ok) + OnRecord(task, sequence, old(store.Tasks())) <=
        OnRecord(task, sequence, store.Tasks()) + (store.faults - old(store.faults))
      ensures store.faults >= old(store.faults)
      ensures ok && store.persistent && store.faults == old(store.faults) ==>
        OnRecord(task, sequence, store.Tasks()) == 1
      ensures OtherRecordsKept(StoreNameOf(task), old(store.Tasks()), store.Tasks())
      // without a fault it runs exactly when another record is found
      ensures ok && store.persistent && store.faults == old(store.faults) ==>
        && RunsIn(seg, ok) == (if Lookup(old(store.Tasks()), StoreNameOf(task)) == RecordOf(task, sequence) then 0
                               else 1)
        && Lookup(store.Tasks(), StoreNameOf(task)) == RecordOf(task, sequence)
      // the record is that of its hash at this sequence
      ensures ok && store.persistent && store.faults == old(store.faults) ==>
        var name, record := StoreNameOf(task), Record(sequence, hashTask(task.task).value);
        && name in store.Tasks() && store.Tasks()[name] == record
        && (RunsIn(seg, ok) == 0 <==> name in old(store.Tasks()) && old(store.Tasks())[name] == record)
    {
      hide TaskStoreName;
      ok, ready', supported', seg := false, ready, supported, [];
      var name := StoreNameOf(task);
      if hashTask(task.task).None? { return; }
      var hash := hashTask(task.task).value;
      var satisfied := store.Satisfied(name, sequence, hash);
      if satisfied {
        runtime.Note(Found(name));
        return true, ready, supported, [Found(name)];
      }
      if task.environmentName !in ready {
        var up, result := runtime.ReconcileSupportServices(task.environmentName);
        seg := [Support(task.environmentName, up)];
        if !up { return; }
        ready', supported' := ready + {task.environmentName}, AddMutations(supported, result);
      }
      ok := runtime.RunTask(name);
      seg := seg + [Ran(name, ok)];
      if !ok { return; }
      var saved := store.MarkSatisfied(name, sequence, hash);
    }

    // ---- one tick ----

    /** The gate so far: no swap yet, every handled task cleared, and the support
        services of the `ready` environments brought up. */
    ghost predicate GateSoFar(seg: seq<Event>, tasks: seq<RuntimeTask>, n: nat, ready: set<string>)
      requires n <= |tasks|
    {
      && (forall e <- seg :: !e.Swapped?)
      && (forall e <- ready :: Support(e, true) in seg)
      && TasksCleared(seg, tasks, n)
    }

    lemma GateStep(seg: seq<Event>, part: seq<Event>, ok: bool, tasks: seq<RuntimeTask>, n: nat, ready: set<string>,
                   ready': set<string>)
      requires n < |tasks| && GateSoFar(seg, tasks, n, ready)
      requires TaskSegment(part, ok, StoreNameOf(tasks[n]), tasks[n].environmentName,
                           tasks[n].environmentName !in ready)
      requires ready' == if |part| == 2 then ready + {tasks[n].environmentName} else ready
      ensures ok ==> GateSoFar(seg + part, tasks, n + 1, ready')
      ensures forall e <- seg + part :: !e.Swapped?
    {
      hide StoreNameOf, Cleared;
      var both := seg + part;
      assert forall e :: e in both <==> e in seg || e in part;
      if ok {
        forall i | 0 <= i < n ensures Cleared(both, StoreNameOf(tasks[i]), tasks[i].environmentName) {
          ClearedExtends(seg, part, StoreNameOf(tasks[i]), tasks[i].environmentName);
        }
        TaskCleared(seg, part, StoreNameOf(tasks[n]), tasks[n].environmentName, ready);
        assert |part| == 2 ==> part[0] in part;
      }
    }

    lemma TaskCleared(seg: seq<Event>, part: seq<Event>, name: string, environment: string, ready: set<string>)
      requires TaskSegment(part, true, name, environment, environment !in ready)
      requires forall e <- ready :: Support(e, true) in seg
      ensures Cleared(seg + part, name, environment)
    {
      var both := seg + part;
      if part == [Found(name)] {
        assert both[|seg|] == Found(name);
      } else if |part| == 2 {
        assert both[|seg|] == Support(environment, true) && both[|seg| + 1] == Ran(name, true);
      } else {
        var i :| 0 <= i < |seg| && seg[i] == Support(environment, true);
        assert both[i] == Support(environment, true) && both[|seg|] == Ran(name, true);
      }
    }

    /** What a tick promises about its events: workloads are reconciled at most
        once, last, and only when the state is valid and every task cleared. */
    ghost predicate Gated(seg: seq<Event>, state: DesiredState) {
      forall i :: 0 <= i < |seg| && seg[i].Swapped? ==>
        && i == |seg| - 1
        && StateOk(state, sanitize)
        && TasksCleared(seg[..i], AllTasks(state), |AllTasks(state)|)
    }

    /** `reconcileOnce` once the desired state has been fetched.  Reading the status
        for the report can still fail after the swap. */
    method Tick(state: DesiredState, sequence: int) returns (ok: bool, reported: Result, ghost seg: seq<Event>)
      modifies store, runtime
      ensures runtime.events == old(runtime.events) + seg
      ensures Gated(seg, state)
      ensures ok ==> Swaps(seg)
      // the report counts everything that the tick changed
      ensures Swaps(seg) ==>
        && reported.created == runtime.done.created - old(runtime.done).created
        && reported.updated == runtime.done.updated - old(runtime.done).updated
        && reported.removed == runtime.done.removed - old(runtime.done).removed
        && reported.untouched == runtime.done.untouched
      ensures store.faults >= old(store.faults)
      ensures store.persistent && OneHashEach(AllTasks(state)) ==>
        Paid(AllTasks(state), sequence, seg, old(store.Tasks()), store.Tasks(), store.faults - old(store.faults))
      ensures Swaps(seg) && store.persistent && store.faults == old(store.faults) ==>
        Counted(AllTasks(state), |AllTasks(state)|, sequence, seg, old(store.Tasks()), store.Tasks())
    {
      hide TaskStoreName, StateOk, AllTasks, Successes, OnRecord, Cleared,
           StoreNameOf, Paid, GateSoFar, OtherRecordsKept, TaskSegment, RunsIn, OneHashEach, TasksCleared, Counted,
           Lookup;
      ok, reported, seg := false, Result(0, 0, 0, 0), [];
      NothingPaid(AllTasks(state), sequence, store.Tasks());
      var valid := Validate(Some(state), sanitize);
      if !valid { return; }
      var tasks := RuntimeTasks(state);
      var ready: set<string> := {};
      var supported := reported;
      GateOpens(tasks);
      CountStarts(tasks, sequence, store.Tasks());
      for i := 0 to |tasks|
        invariant runtime.events == old(runtime.events) + seg
        invariant GateSoFar(seg, tasks, i, ready)
        invariant runtime.done == AddMutations(old(runtime.done), supported)
        invariant store.faults >= old(store.faults)
        invariant store.persistent && OneHashEach(tasks) ==>
          Paid(tasks, sequence, seg, old(store.Tasks()), store.Tasks(), store.faults - old(store.faults))
        invariant store.persistent && store.faults == old(store.faults) ==>
          Counted(tasks, i, sequence, seg, old(store.Tasks()), store.Tasks())
      {
        ghost var part, before, f, t, was := [], store.Tasks(), store.faults, runtime.events, ready;
        var taskOk;
        taskOk, ready, supported, part := EnsureTaskSatisfied(tasks[i], sequence, ready, supported);
        assert runtime.events == old(runtime.events) + (seg + part) by { assert t == old(runtime.events) + seg; }
        GateStep(seg, part, taskOk, tasks, i, was, ready);
        if store.persistent && OneHashEach(tasks) {
          TaskPaid(tasks, i, sequence, part, taskOk, tasks[i].environmentName !in was, before, store.Tasks(),
                   store.faults - f);
          PaidTwice(tasks, sequence, seg, part, old(store.Tasks()), before, store.Tasks(), f - old(store.faults),
                    store.faults - f);
        }
        if taskOk && store.persistent && store.faults == old(store.faults) {
          CountStep(tasks, i, sequence, seg, part, tasks[i].environmentName !in was, old(store.Tasks()), before,
                    store.Tasks());
        }
        seg := seg + part;
        if !taskOk { return; }
      }
      ghost var gate, t := seg, runtime.events;
      var result;
      ok, result := runtime.Reconcile();
      seg := seg + [Swapped(ok)];
      assert runtime.events == old(runtime.events) + (gate + [Swapped(ok)]) by {
        assert t == old(runtime.events) + gate;
      }
      GateCloses(gate, ok, state, ready);
      if ok && store.persistent && store.faults == old(store.faults) {
        CountEnds(tasks, sequence, gate, old(store.Tasks()), store.Tasks());
      }
      if store.persistent && OneHashEach(tasks) {
        SwapPaid(tasks, sequence, ok, store.Tasks());
        PaidTwice(tasks, sequence, gate, [Swapped(ok)], old(store.Tasks()), store.Tasks(), store.Tasks(),
                  store.faults - old(store.faults), 0);
      }
      reported := AddMutations(result, supported);
      if ok { ok := runtime.CurrentStatus(); }
    }

    /** Two ticks of one state in a row.  If both get to swap the workloads and the
        store works, the second runs no task of a record whose tasks have one hash,
        and at least two of a record whose tasks do not. */
    method TickAgain(state: DesiredState, sequence: int)
      returns (ghost first: seq<Event>, ghost second: seq<Event>)
      requires store.persistent
      modifies store, runtime
      ensures Swaps(first) && Swaps(second) && store.faults == old(store.faults) ==>
        forall name ::
          && (Successes(second, name) == 0 <==> OneHash(AllTasks(state), name))
          && (Successes(second, name) >= 2 <==> !OneHash(AllTasks(state), name))
    {
      hide Counted, Gated, Paid, OneHash, Successes, AllTasks, Lookup, RecordAfter, Reruns;
      ghost var tasks, before := AllTasks(state), store.Tasks();
      var ok, reported;
      ok, reported, first := Tick(state, sequence);
      ghost var middle, faults := store.Tasks(), store.faults;
      ok, reported, second := Tick(state, sequence);
      if Swaps(first) && Swaps(second) && store.faults == old(store.faults) {
        forall name
          ensures Successes(second, name) == 0 <==> OneHash(tasks, name)
          ensures Successes(second, name) >= 2 <==> !OneHash(tasks, name)
        {
          CountAt(tasks, sequence, first, before, middle, name);
          CountAt(tasks, sequence, second, middle, store.Tasks(), name);
          SharedRecordRuns(tasks, sequence, name, Lookup(before, name));
        }
      }
    }

    lemma CountAt(tasks: seq<RuntimeTask>, sequence: int, seg: seq<Event>, before: map<string, Record>,
                  after: map<string, Record>, name: string)
      requires Counted(tasks, |tasks|, sequence, seg, before, after)
      ensures Successes(seg, name) == Reruns(tasks, |tasks|, sequence, name, Lookup(before, name))
      ensures Lookup(after, name) == RecordAfter(tasks, |tasks|, sequence, name, Lookup(before, name))
    {
      hide Reruns, RecordAfter, Successes, Lookup;
    }

    lemma GateOpens(tasks: seq<RuntimeTask>)
      ensures GateSoFar([], tasks, 0, {})
    {
    }

    lemma GateCloses(gate: seq<Event>, ok: bool, state: DesiredState, ready: set<string>)
      requires StateOk(state, sanitize) && GateSoFar(gate, AllTasks(state), |AllTasks(state)|, ready)
      ensures Gated(gate + [Swapped(ok)], state)
    {
      hide StateOk, AllTasks, TasksCleared;
      var seg := gate + [Swapped(ok)];
      assert seg[..|gate|] == gate;
      forall i | 0 <= i < |gate| ensures !seg[i].Swapped? {
        assert seg[i] == gate[i] && gate[i] in gate;
      }
    }

    lemma SwapPaid(tasks: seq<RuntimeTask>, sequence: int, ok: bool, records: map<string, Record>)
      ensures Paid(tasks, sequence, [Swapped(ok)], records, records, 0)
    {
      hide StoreNameOf, OnRecord;
      forall i | 0 <= i < |tasks| ensures PaidFor(tasks[i], sequence, [Swapped(ok)], records, records, 0) {
        SuccessesOne(Swapped(ok), StoreNameOf(tasks[i]));
      }
    }

    // ---- whole runs ----

    /** Any number of ticks of the same fetched state, with fetches that may fail
        and outside interference with the lifecycle file in between: each task
        completes successfully at most once, plus once for every fault of the
        store. */
    method Run(state: DesiredState, sequence: int, ticks: nat) returns (ghost seg: seq<Event>)
      requires store.persistent && OneHashEach(AllTasks(state))
      modifies store, runtime
      ensures runtime.events == old(runtime.events) + seg
      ensures store.faults >= old(store.faults)
      ensures forall t <- AllTasks(state) :: Successes(seg, StoreNameOf(t)) <= 1 + (store.faults - old(store.faults))
      ensures store.faults == old(store.faults) ==>
        forall t <- AllTasks(state) :: OnRecord(t, sequence, old(store.Tasks())) == 1 ==>
          Successes(seg, StoreNameOf(t)) == 0
    {
      hide TaskStoreName, StateOk, AllTasks, Successes, OnRecord, StoreNameOf, Paid, OneHashEach, Gated;
      ghost var tasks := AllTasks(state);
      seg := [];
      NothingPaid(tasks, sequence, store.Tasks());
      for i := 0 to ticks
        invariant runtime.events == old(runtime.events) + seg
        invariant store.faults >= old(store.faults)
        invariant Paid(tasks, sequence, seg, old(store.Tasks()), store.Tasks(), store.faults - old(store.faults))
      {
        var interference: bool, replacement: File := *, *;
        if interference {
          ghost var before, f := store.Tasks(), store.faults;
          store.Interfere(replacement);
          Interfered(tasks, sequence, before, store.Tasks());
          PaidTwice(tasks, sequence, seg, [], old(store.Tasks()), before, store.Tasks(), f - old(store.faults), 1);
          assert seg + [] == seg;
        }
        var fetched: bool := *;
        if fetched {
          ghost var part, before, f, t := [], store.Tasks(), store.faults, runtime.events;
          var ok, reported;
          ok, reported, part := Tick(state, sequence);
          assert runtime.events == old(runtime.events) + (seg + part) by { assert t == old(runtime.events) + seg; }
          PaidTwice(tasks, sequence, seg, part, old(store.Tasks()), before, store.Tasks(), f - old(store.faults),
                    store.faults - f);
          seg := seg + part;
        }
      }
      PaidBound(tasks, sequence, seg, old(store.Tasks()), store.Tasks(), store.faults - old(store.faults));
    }

    lemma Interfered(tasks: seq<RuntimeTask>, sequence: int, before: map<string, Record>, after: map<string, Record>)
      ensures Paid(tasks, sequence, [], before, after, 1)
    {
      hide StoreNameOf;
    }

    lemma PaidBound(tasks: seq<RuntimeTask>, sequence: int, seg: seq<Event>,
                    before: map<string, Record>, after: map<string, Record>, faults: nat)
      requires Paid(tasks, sequence, seg, before, after, faults)
      ensures forall t <- tasks :: Successes(seg, StoreNameOf(t)) <= 1 + faults
      ensures faults == 0 ==> forall t <- tasks :: OnRecord(t, sequence, before) == 1 ==>
        Successes(seg, StoreNameOf(t)) == 0
    {
      hide StoreNameOf, Successes, RecordOf;
      forall t | t in tasks
        ensures Successes(seg, StoreNameOf(t)) <= 1 + faults
        ensures faults == 0 && OnRecord(t, sequence, before) == 1 ==> Successes(seg, StoreNameOf(t)) == 0
      {
        var i :| 0 <= i < |tasks| && tasks[i] == t;
        assert PaidFor(tasks[i], sequence, seg, before, after, faults);
      }
    }
  }
}
