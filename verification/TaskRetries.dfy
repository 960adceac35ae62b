/**
 Retries and dead letters of the two Celery tasks (src/infrastructure/workers/tasks/).
 No worker is lost: every delivery runs to its end.
 */
module TaskRetries {
  import opened Domain

  const MAX_RETRIES := 3
  const BASE_RETRY_DELAY_SECONDS := 30
  const MAX_RETRY_DELAY_SECONDS := 600

  datatype TaskName = IngestAsset | EmbedAsset

  /** What the use case does in one attempt. */
  datatype Attempt =
    | Completes
    | AlreadyDone
    | SoftTimeLimit
    | RaisesError(message: string)

  datatype Final = Success | Skipped | SoftLimitFailure | DeadLettered

  datatype Status = Waiting(retries: nat) | Ended(final: Final)

  datatype FailedTaskEntry = FailedTaskEntry(taskId: nat, name: TaskName, key: Key, message: string, retryCount: nat)

  function Pow2(n: nat): nat { if n == 0 then 1 else 2 * Pow2(n - 1) }

  function Countdown(retries: nat): nat {
    var delay := BASE_RETRY_DELAY_SECONDS * Pow2(retries);
    if delay < MAX_RETRY_DELAY_SECONDS then delay else MAX_RETRY_DELAY_SECONDS
  }

  /* ---------- the classes ---------- */

  class InMemoryDeadLetterRepository {
    var entries: seq<FailedTaskEntry>

    constructor ()
      ensures entries == []
    {
      entries := [];
    }

    method Save(entry: FailedTaskEntry)
      modifies this
      ensures entries == old(entries) + [entry]
    {
      entries := entries + [entry];
    }

    method Count() returns (n: nat)
      ensures n == |entries|
    {
      n := |entries|;
    }
  }

  datatype Result =
    | Finished(final: Final)
    | RetryIn(countdown: nat)

  /** What one attempt with `retries` retries behind it comes to. */
  function ResultOf(retries: nat, attempt: Attempt): Result {
    match attempt
    case Completes => Finished(Success)
    case AlreadyDone => Finished(Skipped)
    case SoftTimeLimit => Finished(SoftLimitFailure)
    case RaisesError(_) => if retries >= MAX_RETRIES then Finished(DeadLettered) else RetryIn(Countdown(retries))
  }

  /** An ordinary error is tried again after 30, 60 and 120 seconds and then given up; nothing
      else is tried again. */
  lemma Countdowns(message: string, retries: nat)
    ensures ResultOf(0, RaisesError(message)) == RetryIn(30)
    ensures ResultOf(1, RaisesError(message)) == RetryIn(60)
    ensures ResultOf(2, RaisesError(message)) == RetryIn(120)
    ensures retries >= 3 ==> ResultOf(retries, RaisesError(message)) == Finished(DeadLettered)
    ensures ResultOf(retries, SoftTimeLimit) == Finished(SoftLimitFailure)
    ensures ResultOf(retries, AlreadyDone) == Finished(Skipped) && ResultOf(retries, Completes) == Finished(Success)
  {
    assert Pow2(0) == 1 && Pow2(1) == 2 && Pow2(2) == 4;
  }

  class Worker {
    const deadLetters: InMemoryDeadLetterRepository
    var dispatched: map<TaskName, nat>
    var failed: map<TaskName, nat>

    constructor (deadLetters: InMemoryDeadLetterRepository)
      ensures this.deadLetters == deadLetters && dispatched == NO_COUNTS && failed == NO_COUNTS
    {
      this.deadLetters := deadLetters;
      dispatched, failed := NO_COUNTS, NO_COUNTS;
    }

    /** One delivery of a task. Only a task out of retries leaves a dead letter, and the
        failed counter goes up exactly then. */
    method Run(taskId: nat, name: TaskName, key: Key, retries: nat, attempt: Attempt) returns (result: Result)
      requires name in dispatched && name in failed
      modifies this, deadLetters
      ensures result == ResultOf(retries, attempt)
      ensures dispatched == old(dispatched)[name := old(dispatched)[name] + 1]
      ensures result == Finished(DeadLettered) ==>
                && deadLetters.entries ==
                   old(deadLetters.entries) + [FailedTaskEntry(taskId, name, key, attempt.message, MAX_RETRIES)]
                && failed == old(failed)[name := old(failed)[name] + 1]
      ensures result != Finished(DeadLettered) ==>
                deadLetters.entries == old(deadLetters.entries) && failed == old(failed)
    {
      dispatched := dispatched[name := dispatched[name] + 1];
      match attempt {
        case Completes =>
          return Finished(Success);
        case AlreadyDone =>
          return Finished(Skipped);
        case SoftTimeLimit =>
          return Finished(SoftLimitFailure);
        case RaisesError(message) =>
          if retries >= MAX_RETRIES {
            deadLetters.Save(FailedTaskEntry(taskId, name, key, message, MAX_RETRIES));
            failed := failed[name := failed[name] + 1];
            return Finished(DeadLettered);
          }
          return RetryIn(Countdown(retries));
      }
    }
  }

  /* ---------- many tasks, interleaved ---------- */

  const NO_COUNTS: map<TaskName, nat> := map[IngestAsset := 0, EmbedAsset := 0]

  /** A task with the attempts made so far. */
  datatype Task = Task(name: TaskName, key: Key, attempts: seq<Attempt>, status: Status)

  datatype State = State(
    tasks: map<nat, Task>, entries: seq<FailedTaskEntry>, dispatched: map<TaskName, nat>, failed: map<TaskName, nat>)

  const START := State(map[], [], NO_COUNTS, NO_COUNTS)

  /** Task ids are unique; a task that has ended has no message in the queue. */
  datatype Event =
    | Enqueue(taskId: nat, name: TaskName, key: Key)
    | Deliver(taskId: nat, attempt: Attempt)

  /** The task after one more attempt. */
  function After(t: Task, attempt: Attempt): Task
    requires t.status.Waiting?
  {
    t.(attempts := t.attempts + [attempt],
       status := match ResultOf(t.status.retries, attempt)
                 case Finished(final) => Ended(final)
                 case RetryIn(_) => Waiting(t.status.retries + 1))
  }

  function Step(s: State, e: Event): State {
    match e
    case Enqueue(id, name, key) =>
      if id in s.tasks then s else s.(tasks := s.tasks[id := Task(name, key, [], Waiting(0))])
    case Deliver(id, attempt) =>
      if id !in s.tasks || s.tasks[id].status.Ended? || !Known(s) then s
      else
        var t := s.tasks[id];
        var counted := s.(tasks := s.tasks[id := After(t, attempt)],
                          dispatched := s.dispatched[t.name := s.dispatched[t.name] + 1]);
        if ResultOf(t.status.retries, attempt) == Finished(DeadLettered) then
          counted.(entries := s.entries + [FailedTaskEntry(id, t.name, t.key, attempt.message, MAX_RETRIES)],
                   failed := s.failed[t.name := s.failed[t.name] + 1])
        else counted
  }

  predicate Known(s: State) {
    forall name: TaskName :: name in s.dispatched && name in s.failed
  }

  function Run(s: State, events: seq<Event>): State
    decreases |events|
  {
    if events == [] then s else Run(Step(s, events[0]), events[1..])
  }

  /* ---------- what every state keeps ---------- */

  predicate AllRaised(attempts: seq<Attempt>) {
    forall i :: 0 <= i < |attempts| ==> attempts[i].RaisesError?
  }

  /** The status follows from the attempts: every attempt before the last raised an
      ordinary error, and there are never more than four. */
  predicate Explained(t: Task) {
    var n := |t.attempts|;
    && n <= 4
    && (n > 0 ==> AllRaised(t.attempts[..n - 1]))
    && match t.status
       case Waiting(retries) => retries == n <= 3 && AllRaised(t.attempts)
       case Ended(final) =>
         n > 0 &&
         match final
         case Success => t.attempts[n - 1].Completes?
         case Skipped => t.attempts[n - 1].AlreadyDone?
         case SoftLimitFailure => t.attempts[n - 1].SoftTimeLimit?
         case DeadLettered => n == 4 && AllRaised(t.attempts)
  }

  function EntriesOf(entries: seq<FailedTaskEntry>, name: TaskName): nat {
    if entries == [] then 0
    else EntriesOf(entries[..|entries| - 1], name) + if entries[|entries| - 1].name == name then 1 else 0
  }

  /** The letter is that of a dead-lettered task, with the error of its last attempt. */
  predicate Reports(e: FailedTaskEntry, tasks: map<nat, Task>) {
    && e.taskId in tasks
    && var t := tasks[e.taskId];
       && t.status == Ended(DeadLettered) && e.name == t.name && e.key == t.key && e.retryCount == 3
       && t.attempts != [] && t.attempts[|t.attempts| - 1] == RaisesError(e.message)
  }

  predicate TasksExplained(tasks: map<nat, Task>) {
    forall id :: id in tasks ==> Explained(tasks[id])
  }

  /** Every letter reports a dead task, and no two the same. */
  predicate LettersReport(entries: seq<FailedTaskEntry>, tasks: map<nat, Task>) {
    && (forall i :: 0 <= i < |entries| ==> Reports(entries[i], tasks))
    && (forall i, j :: 0 <= i < j < |entries| ==> entries[i].taskId != entries[j].taskId)
  }

  function LetterIds(entries: seq<FailedTaskEntry>): set<nat> {
    set i | 0 <= i < |entries| :: entries[i].taskId
  }

  predicate DeadHaveLetters(tasks: map<nat, Task>, entries: seq<FailedTaskEntry>) {
    forall id :: id in tasks && tasks[id].status == Ended(DeadLettered) ==> id in LetterIds(entries)
  }

  predicate FailuresCounted(failed: map<TaskName, nat>, entries: seq<FailedTaskEntry>) {
    forall name: TaskName :: name in failed && failed[name] == EntriesOf(entries, name)
  }

  predicate Invariant(s: State) {
    && Known(s) && TasksExplained(s.tasks) && LettersReport(s.entries, s.tasks)
    && DeadHaveLetters(s.tasks, s.entries) && FailuresCounted(s.failed, s.entries)
  }

  lemma AttemptExplained(t: Task, attempt: Attempt)
    requires Explained(t) && t.status.Waiting?
    ensures Explained(After(t, attempt))
    ensures After(t, attempt).status == Ended(DeadLettered) <==>
              ResultOf(t.status.retries, attempt) == Finished(DeadLettered)
  {
  }

  lemma EntryCounts(entries: seq<FailedTaskEntry>, e: FailedTaskEntry, name: TaskName)
    ensures EntriesOf(entries + [e], name) == EntriesOf(entries, name) + if e.name == name then 1 else 0
    ensures LetterIds(entries + [e]) == LetterIds(entries) + {e.taskId}
  {
  }

  /** A task that is new or still waiting has no letter, so it may change freely. */
  lemma TaskChanges(s: State, id: nat, t: Task)
    requires Invariant(s) && Explained(t) && (id in s.tasks ==> s.tasks[id].status.Waiting?)
    ensures TasksExplained(s.tasks[id := t]) && LettersReport(s.entries, s.tasks[id := t])
    ensures forall i :: 0 <= i < |s.entries| ==> s.entries[i].taskId != id
    ensures t.status != Ended(DeadLettered) ==> DeadHaveLetters(s.tasks[id := t], s.entries)
  {
  }

  lemma LetterArrives(s: State, id: nat, t: Task, letter: FailedTaskEntry)
    requires Invariant(s) && letter.taskId == id && letter.name in s.failed
    requires LettersReport(s.entries, s.tasks[id := t]) && Reports(letter, s.tasks[id := t])
    requires forall i :: 0 <= i < |s.entries| ==> s.entries[i].taskId != id
    ensures LettersReport(s.entries + [letter], s.tasks[id := t])
    ensures DeadHaveLetters(s.tasks[id := t], s.entries + [letter])
    ensures FailuresCounted(s.failed[letter.name := s.failed[letter.name] + 1], s.entries + [letter])
  {
    EntryCounts(s.entries, letter, IngestAsset);
    EntryCounts(s.entries, letter, EmbedAsset);
    hide Reports, LetterIds, EntriesOf;
    forall name: TaskName
      ensures s.failed[letter.name := s.failed[letter.name] + 1][name] == EntriesOf(s.entries + [letter], name)
    {
      assert name == IngestAsset || name == EmbedAsset;
    }
  }

  lemma StepKeepsInvariant(s: State, e: Event)
    requires Invariant(s)
    ensures Invariant(Step(s, e))
  {
    match e
    case Enqueue(id, name, key) =>
      var t := Task(name, key, [], Waiting(0));
      NewTaskExplained(name, key);
      if id !in s.tasks {
        TaskChanges(s, id, t);
      }
      hide TasksExplained, LettersReport, DeadHaveLetters, FailuresCounted, Explained;
    case Deliver(id, attempt) =>
      if id in s.tasks && s.tasks[id].status.Waiting? {
        DeliveryKeepsInvariant(s, id, attempt);
      }
  }

  /** What a delivery makes of the state, part by part. */
  lemma DeliveryIs(s: State, id: nat, attempt: Attempt)
    requires Known(s) && id in s.tasks && s.tasks[id].status.Waiting?
    ensures var t := s.tasks[id];
            var u := Step(s, Deliver(id, attempt));
            && Known(u) && u.tasks == s.tasks[id := After(t, attempt)]
            && if ResultOf(t.status.retries, attempt) == Finished(DeadLettered)
               then && u.entries == s.entries + [FailedTaskEntry(id, t.name, t.key, attempt.message, MAX_RETRIES)]
                    && u.failed == s.failed[t.name := s.failed[t.name] + 1]
               else u.entries == s.entries && u.failed == s.failed
  {
    hide After, ResultOf;
  }

  lemma DeliveryKeepsInvariant(s: State, id: nat, attempt: Attempt)
    requires Invariant(s) && id in s.tasks && s.tasks[id].status.Waiting?
    ensures Invariant(Step(s, Deliver(id, attempt)))
  {
    var t := s.tasks[id];
    var after := After(t, attempt);
    DeliveryIs(s, id, attempt);
    hide Step, After, ResultOf, Reports, Explained, LettersReport, DeadHaveLetters, FailuresCounted;
    AttemptExplained(t, attempt);
    TaskChanges(s, id, after);
    hide TasksExplained;
    if ResultOf(t.status.retries, attempt) == Finished(DeadLettered) {
      LetterReports(id, t, attempt, s.tasks[id := after]);
      LetterArrives(s, id, after, FailedTaskEntry(id, t.name, t.key, attempt.message, MAX_RETRIES));
    }
  }

  lemma LetterReports(id: nat, t: Task, attempt: Attempt, tasks: map<nat, Task>)
    requires t.status.Waiting? && ResultOf(t.status.retries, attempt) == Finished(DeadLettered)
    requires id in tasks && tasks[id] == After(t, attempt)
    ensures Reports(FailedTaskEntry(id, t.name, t.key, attempt.message, MAX_RETRIES), tasks)
  {
  }

  lemma NewTaskExplained(name: TaskName, key: Key)
    ensures Explained(Task(name, key, [], Waiting(0)))
  {
  }

  lemma {:induction false} RunKeepsInvariant(s: State, events: seq<Event>)
    requires Invariant(s)
    ensures Invariant(Run(s, events))
    decreases |events|
  {
    hide Invariant, Step;
    if events != [] {
      StepKeepsInvariant(s, events[0]);
      RunKeepsInvariant(Step(s, events[0]), events[1..]);
    }
  }

  /* ---------- the theorem ---------- */

  /** The tasks of this name whose every attempt, all four of them, raised an error. */
  function HopelessTasks(s: State, name: TaskName): set<nat> {
    set id | id in s.tasks && s.tasks[id].name == name
             && |s.tasks[id].attempts| == 4 && AllRaised(s.tasks[id].attempts)
  }

  function LetterIdsOf(entries: seq<FailedTaskEntry>, name: TaskName): set<nat> {
    set i | 0 <= i < |entries| && entries[i].name == name :: entries[i].taskId
  }

  lemma {:induction false} LettersCounted(entries: seq<FailedTaskEntry>, name: TaskName)
    requires forall i, j :: 0 <= i < j < |entries| ==> entries[i].taskId != entries[j].taskId
    ensures |LetterIdsOf(entries, name)| == EntriesOf(entries, name)
  {
    if entries != [] {
      var init, last := entries[..|entries| - 1], entries[|entries| - 1];
      LettersCounted(init, name);
      assert entries == init + [last];
      LetterIdsNext(init, last, name);
      hide LetterIdsOf;
    }
  }

  lemma LetterIdsNext(entries: seq<FailedTaskEntry>, e: FailedTaskEntry, name: TaskName)
    requires forall i :: 0 <= i < |entries| ==> entries[i].taskId != e.taskId
    ensures e.taskId !in LetterIdsOf(entries, name)
    ensures LetterIdsOf(entries + [e], name) == LetterIdsOf(entries, name) + if e.name == name then {e.taskId} else {}
  {
    var more := entries + [e];
    assert forall i :: 0 <= i < |entries| ==> more[i] == entries[i];
    assert more[|entries|] == e;
  }

  /** A dead letter exists for exactly the hopeless tasks. */
  lemma LettersAreHopeless(s: State, name: TaskName)
    requires Invariant(s)
    ensures LetterIdsOf(s.entries, name) == HopelessTasks(s, name)
  {
  }

  lemma StartInvariant()
    ensures Invariant(START)
  {
    forall name: TaskName ensures name in NO_COUNTS && NO_COUNTS[name] == 0 {
      assert name == IngestAsset || name == EmbedAsset;
    }
  }

  /** Over any interleaving of any number of tasks: every task makes at most four
      attempts and ends in the way its last attempt says; and dead letters, failures
      counted and tasks that only ever raised are equal in number, name by name. */
  lemma FailuresAreReported(events: seq<Event>, name: TaskName)
    ensures var s := Run(START, events);
            && (forall id :: id in s.tasks ==> Explained(s.tasks[id]))
            && name in s.failed
            && s.failed[name] == EntriesOf(s.entries, name) == |HopelessTasks(s, name)|
            && LetterIdsOf(s.entries, name) == HopelessTasks(s, name)
  {
    StartInvariant();
    RunKeepsInvariant(START, events);
    var s := Run(START, events);
    LettersAreHopeless(s, name);
    hide EntriesOf, Explained, Reports, LetterIdsOf, HopelessTasks, Run;
    LettersCounted(s.entries, name);
  }

  /** A task that has ended is not run again. */
  lemma {:induction false} EndedIsFinal(s: State, events: seq<Event>, id: nat)
    requires id in s.tasks && s.tasks[id].status.Ended?
    ensures id in Run(s, events).tasks && Run(s, events).tasks[id] == s.tasks[id]
    decreases |events|
  {
    if events != [] {
      EndedIsFinal(Step(s, events[0]), events[1..], id);
    }
  }

  /* ---------- the dispatch counter ---------- */

  /** What a task adds to the attempts under this name. */
  function Share(t: Task, name: TaskName): nat {
    if t.name == name then |t.attempts| else 0
  }

  /** The attempts that the tasks of this name among `ids` have made. */
  ghost function AttemptsBy(tasks: map<nat, Task>, ids: set<nat>, name: TaskName): nat
    requires ids <= tasks.Keys
  {
    if ids == {} then 0
    else
      var id :| id in ids;
      Share(tasks[id], name) + AttemptsBy(tasks, ids - {id}, name)
  }

  lemma {:induction false} TakeOut(tasks: map<nat, Task>, ids: set<nat>, name: TaskName, id: nat)
    requires ids <= tasks.Keys && id in ids
    ensures AttemptsBy(tasks, ids, name) == Share(tasks[id], name) + AttemptsBy(tasks, ids - {id}, name)
  {
    hide Share;
    var picked :| picked in ids &&
                  AttemptsBy(tasks, ids, name) == Share(tasks[picked], name) + AttemptsBy(tasks, ids - {picked}, name);
    if picked != id {
      TakeOut(tasks, ids - {picked}, name, id);
      TakeOut(tasks, ids - {id}, name, picked);
      assert ids - {picked} - {id} == ids - {id} - {picked};
    }
  }

  lemma {:induction false} SameAttempts(tasks: map<nat, Task>, others: map<nat, Task>, ids: set<nat>, name: TaskName)
    requires ids <= tasks.Keys && ids <= others.Keys && forall id :: id in ids ==> others[id] == tasks[id]
    ensures AttemptsBy(others, ids, name) == AttemptsBy(tasks, ids, name)
    decreases ids
  {
    hide Share;
    if ids != {} {
      var id :| id in ids;
      TakeOut(tasks, ids, name, id);
      TakeOut(others, ids, name, id);
      SameAttempts(tasks, others, ids - {id}, name);
    }
  }

  lemma TaskChangesAttempts(tasks: map<nat, Task>, id: nat, t: Task, name: TaskName)
    ensures AttemptsBy(tasks[id := t], tasks.Keys + {id}, name) ==
            Share(t, name) + AttemptsBy(tasks, tasks.Keys - {id}, name)
  {
    hide Share;
    var ids := tasks.Keys + {id};
    TakeOut(tasks[id := t], ids, name, id);
    assert ids - {id} == tasks.Keys - {id};
    SameAttempts(tasks, tasks[id := t], tasks.Keys - {id}, name);
  }

  ghost predicate DispatchesCounted(s: State) {
    forall name: TaskName :: name in s.dispatched && s.dispatched[name] == AttemptsBy(s.tasks, s.tasks.Keys, name)
  }

  lemma StepCountsDispatches(s: State, e: Event)
    requires DispatchesCounted(s)
    ensures DispatchesCounted(Step(s, e))
  {
    var next := Step(s, e);
    forall name: TaskName
      ensures name in next.dispatched && next.dispatched[name] == AttemptsBy(next.tasks, next.tasks.Keys, name)
    {
      if next != s {
        var id := e.taskId;
        assert next.tasks == s.tasks[id := next.tasks[id]] && next.tasks.Keys == s.tasks.Keys + {id};
        TaskChangesAttempts(s.tasks, id, next.tasks[id], name);
        if id in s.tasks {
          TakeOut(s.tasks, s.tasks.Keys, name, id);
        } else {
          assert s.tasks.Keys - {id} == s.tasks.Keys;
        }
      }
    }
  }

  lemma {:induction false} RunCountsDispatches(s: State, events: seq<Event>)
    requires DispatchesCounted(s)
    ensures DispatchesCounted(Run(s, events))
    decreases |events|
  {
    hide DispatchesCounted, Step;
    if events != [] {
      StepCountsDispatches(s, events[0]);
      RunCountsDispatches(Step(s, events[0]), events[1..]);
    }
  }

  /** Over any interleaving the dispatch counter of a name is the number of attempts that its
      tasks have made, retries and all. */
  lemma DispatchesAreAttempts(events: seq<Event>, name: TaskName)
    ensures var s := Run(START, events);
            name in s.dispatched && s.dispatched[name] == AttemptsBy(s.tasks, s.tasks.Keys, name)
  {
    assert DispatchesCounted(START) by {
      forall name: TaskName ensures name in NO_COUNTS && NO_COUNTS[name] == 0 {
        assert name == IngestAsset || name == EmbedAsset;
      }
    }
    RunCountsDispatches(START, events);
  }
}
