/** What processing one claim leaves in the tables and in the queue when nobody interferes. */
module ClaimEffects {
  import opened Domain
  import opened ExecutionStore
  import opened StoreInvariant
  import opened TaskProcessing
  import opened Protocol
  import opened ProtocolInvariant
  import opened Guarantees
  import Q = QueueModel

  /******* The outcomes *******/

  /** Every entry but that of `id` is what it was. */
  ghost predicate OthersKept(before: Q.Entries, id: Uuid, after: Q.Entries) {
    forall x | x in before && x != id :: x in after && after[x] == before[x]
  }

  /** Done: the entry is gone, and the new entries are exactly the children this completion left without unfinished
    * parents, unless they were queued already. */
  ghost predicate HandedOn(tasks: map<Uuid, TaskExecution>, children: seq<Uuid>,
                           before: Q.Entries, id: Uuid, now: Time, after: Q.Entries)
  {
    && id !in after && OthersKept(before, id, after)
    && (forall c | c in children && Ready(tasks, c) :: c in after)
    && (forall x | x in after && x !in before ::
          x in children && Ready(tasks, x) && Q.FreeSince(after[x], now))
  }

  /** Over without successors: the entry is gone, and nothing else changed. */
  ghost predicate Removed(before: Q.Entries, id: Uuid, after: Q.Entries) {
    after.Keys == before.Keys - {id} && OthersKept(before, id, after)
  }

  /** To be tried again: the entry is free, in its old place, and nothing else changed. */
  ghost predicate Freed(before: Q.Entries, id: Uuid, after: Q.Entries) {
    && after.Keys == before.Keys && OthersKept(before, id, after)
    && id in before && Q.FreeSince(after[id], before[id].queuedAt)
  }

  /** The task and its entry after a successful answer; `disposes` says that the claim is still trusted and valid. */
  ghost predicate Succeeds(before: Store, queued: Q.Entries, id: Uuid, output: TaskOutput, disposes: bool,
                           completedAt: Time, finishedAt: Time, after: Store, entries: Q.Entries)
    requires id in before.tasks
  {
    && id in after.tasks
    && after.tasks[id].status == COMPLETED && after.tasks[id].output == Some(output)
    && after.tasks[id].completedAt == Some(completedAt)
    && if disposes then HandedOn(after.tasks, before.tasks[id].childTaskIds, queued, id, finishedAt, entries)
       else entries == queued
  }

  /** After a failed answer: one try is spent, the message is kept, and the last failure is final. */
  ghost predicate Fails(before: Store, queued: Q.Entries, id: Uuid, message: Option<string>, disposes: bool,
                        completedAt: Time, after: Store, entries: Q.Entries)
    requires id in before.tasks
  {
    var last := before.tasks[id].remainingTries == 1;
    && id in after.tasks
    && after.tasks[id].remainingTries == before.tasks[id].remainingTries - 1
    && after.tasks[id].errorMessage == message
    && after.tasks[id].status == (if last then FAILED else RUNNING)
    && after.tasks[id].completedAt == (if last then Some(completedAt) else None)
    && if !disposes then entries == queued
       else if last then Removed(queued, id, entries)
       else Freed(queued, id, entries)
  }

  /** The plugin of an open task runs on its configuration and its parents' outputs, and its answer decides. An error
    * raised by the plugin leaves the task running and the queue alone. */
  ghost predicate Works(
    executor: Executor, before: Store, queued: Q.Entries, id: Uuid, started: StartResult, disposes: bool,
    completedAt: Time, finishedAt: Time, after: Store, entries: Q.Entries)
    requires id in before.tasks
  {
    var row := before.tasks[id];
    && started.Processable?
    && started.pluginType == row.pluginType && started.configuration == row.configuration
    && ParentOutputs(before.tasks, row.parentTaskIds, started.parentOutputs)
    && match executor(row.pluginType, TaskContext(row.configuration, started.parentOutputs))
       case None =>
         && id in after.tasks && after.tasks[id].status == RUNNING
         && after.tasks[id].remainingTries == row.remainingTries && entries == queued
       case Some(result) =>
         if result.succeeded
         then Succeeds(before, queued, id, result.output, disposes, completedAt, finishedAt, after, entries)
         else Fails(before, queued, id, result.message, disposes, completedAt, after, entries)
  }

  /** Of a task that is over or unknown nothing is left to do but to take its entry away. */
  ghost predicate Skips(before: Store, queued: Q.Entries, id: Uuid, disposes: bool, after: Store, entries: Q.Entries) {
    after == before && if disposes then Removed(queued, id, entries) else entries == queued
  }

  ghost predicate Raised(executor: Executor, started: StartResult) {
    || started.MissingParentOutput?
    || (started.Processable? && executor(started.pluginType, ContextOf(started)) == None)
  }

  /** What one processed claim comes to, whatever state its task was found in. */
  ghost predicate Settles(
    executor: Executor, before: Store, queued: Q.Entries, claim: Claim, started: StartResult, untrusted: bool,
    completedAt: Time, finishedAt: Time, after: Store, entries: Q.Entries)
  {
    var id, disposes := claim.taskExecutionId, !untrusted && Q.Holds(queued, claim);
    && (untrusted || !Q.Holds(queued, claim) || Raised(executor, started) ==> entries == queued)
    && (!(id in before.tasks && before.tasks[id].Open()) ==> Skips(before, queued, id, disposes, after, entries))
    && (Consistent(before) && Workable(before.tasks, id) ==>
          Works(executor, before, queued, id, started, disposes, completedAt, finishedAt, after, entries))
  }

  /******* Why processing has them *******/

  /** The queue after the worker's last session, if it has one. */
  ghost function Disposed(queued: Q.Entries, claim: Claim, r: Result<ProcessTaskResult, ProcessError>, untrusted: bool,
                          now: Time): Q.Entries
  {
    if r.Failure? || untrusted then queued
    else if r.value.shouldRetry then Q.Released(queued, claim)
    else Q.Finished(queued, claim, r.value.enqueueTaskIds, now)
  }

  lemma OpenStarts(before: Store, id: Uuid, now: Time, started: StartResult)
    requires Consistent(before) && Workable(before.tasks, id) && Starts(before, id, now, started)
    ensures started.Processable?
    ensures started.pluginType == before.tasks[id].pluginType && started.configuration == before.tasks[id].configuration
    ensures ParentOutputs(before.tasks, before.tasks[id].parentTaskIds, started.parentOutputs)
  {
    ReadyHasOutputs(before, id, now);
    ReadyParentsCompleted(before, id);
    var begun := ExecutionStore.StartTask(before, id, now).tasks;
    var parents := before.tasks[id].parentTaskIds;
    assert begun[id].parentTaskIds == parents;
    assert forall p | p in parents :: p in begun && p in before.tasks && before.tasks[p] == begun[p];
    hide Consistent, ParentOutputs, AllParentsHaveOutput;
    SameParentsSameInputs(begun, before.tasks, parents, started.parentOutputs);
  }

  lemma BegunTask(before: Store, id: Uuid, now: Time)
    requires Consistent(before) && Workable(before.tasks, id)
    ensures var begun := ExecutionStore.StartTask(before, id, now);
            && Consistent(begun) && Running(begun, id)
            && begun.tasks[id].childTaskIds == before.tasks[id].childTaskIds
            && begun.tasks[id].remainingTries == before.tasks[id].remainingTries >= 1
  {
    assert Settled(before.tasks[id]);
    hide Consistent;
    StartKeepsConsistent(before, id, now);
  }

  lemma SuccessSettles(before: Store, begun: Store, queued: Q.Entries, claim: Claim, output: TaskOutput, disposes: bool,
                       completedAt: Time, finishedAt: Time)
    requires Consistent(begun) && Running(begun, claim.taskExecutionId) && claim.taskExecutionId in before.tasks
    requires begun.tasks[claim.taskExecutionId].childTaskIds == before.tasks[claim.taskExecutionId].childTaskIds
    requires disposes ==> Q.Holds(queued, claim)
    ensures var (after, result) := ExecutionStore.CompleteTask(begun, claim.taskExecutionId, output, completedAt);
            Succeeds(before, queued, claim.taskExecutionId, output, disposes, completedAt, finishedAt, after,
                     if disposes then Q.Finished(queued, claim, result.runnableTaskIds, finishedAt) else queued)
  {
    var id := claim.taskExecutionId;
    var (after, result) := ExecutionStore.CompleteTask(begun, id, output, completedAt);
    CompletionIsExact(begun, id, output, completedAt);
    AllChildrenWait(begun, id);
    hide Consistent, ExecutionStore.CompleteTask;
    if disposes {
      ChildrenHandedOn(begun.tasks, id, output, completedAt, after.tasks, result.runnableTaskIds, queued, claim, finishedAt);
    }
    hide HandedOn;
  }

  lemma ChildrenHandedOn(
    begun: map<Uuid, TaskExecution>, id: Uuid, output: TaskOutput, completedAt: Time, after: map<Uuid, TaskExecution>,
    runnable: seq<Uuid>, queued: Q.Entries, claim: Claim, now: Time)
    requires id in begun && ChildrenWait(begun, id) && CompletionEffect(begun, id, output, completedAt, after)
    requires forall x :: x in runnable <==> x in begun[id].childTaskIds && begun[x].remainingDependencies == 1
    requires Q.Holds(queued, claim) && claim.taskExecutionId == id
    ensures HandedOn(after, begun[id].childTaskIds, queued, id, now, Q.Finished(queued, claim, runnable, now))
  {
    ReplacedEntries(queued, claim, runnable, now);
    hide Q.Finished, Q.FreeSince, Q.Holds;
  }

  lemma ReplacedEntries(queued: Q.Entries, claim: Claim, ids: seq<Uuid>, now: Time)
    requires Q.Holds(queued, claim)
    ensures var after, id := Q.Finished(queued, claim, ids, now), claim.taskExecutionId;
            && (forall x :: x in after <==> (x in queued && x != id) || x in ids)
            && OthersKept(queued, id, after)
            && (forall x | x in ids && x !in queued :: Q.FreeSince(after[x], now))
  {
  }

  lemma FailureSettles(before: Store, begun: Store, queued: Q.Entries, claim: Claim, message: Option<string>, disposes: bool,
                       completedAt: Time, finishedAt: Time)
    requires Consistent(begun) && Running(begun, claim.taskExecutionId) && claim.taskExecutionId in before.tasks
    requires begun.tasks[claim.taskExecutionId].remainingTries == before.tasks[claim.taskExecutionId].remainingTries >= 1
    requires disposes ==> Q.Holds(queued, claim)
    ensures var (after, result) := ExecutionStore.RetryTask(begun, claim.taskExecutionId, message, completedAt);
            Fails(before, queued, claim.taskExecutionId, message, disposes, completedAt, after,
                  if !disposes then queued
                  else if result.shouldRetry then Q.Released(queued, claim)
                  else Q.Finished(queued, claim, [], finishedAt))
  {
    var id := claim.taskExecutionId;
    if disposes {
      FreedOrRemoved(queued, claim, finishedAt);
    }
    if begun.tasks[id].remainingTries > 1 {
      AttemptIsExact(begun, id, message, completedAt);
    } else {
      FailureIsExact(begun, id, message, completedAt);
    }
    hide Consistent, ExecutionStore.RetryTask, Removed, Freed, Q.Holds, Q.Released, Q.Finished;
  }

  lemma FreedOrRemoved(queued: Q.Entries, claim: Claim, now: Time)
    requires Q.Holds(queued, claim)
    ensures Freed(queued, claim.taskExecutionId, Q.Released(queued, claim))
    ensures Removed(queued, claim.taskExecutionId, Q.Finished(queued, claim, [], now))
  {
  }

  /** What the plugin's answer does to a running task and its entry. */
  lemma AnswerSettles(
    before: Store, begun: Store, queued: Q.Entries, claim: Claim, result: TaskResult, untrusted: bool,
    completedAt: Time, finishedAt: Time)
    requires Consistent(begun) && Running(begun, claim.taskExecutionId) && claim.taskExecutionId in before.tasks
    requires begun.tasks[claim.taskExecutionId].childTaskIds == before.tasks[claim.taskExecutionId].childTaskIds
    requires begun.tasks[claim.taskExecutionId].remainingTries == before.tasks[claim.taskExecutionId].remainingTries >= 1
    ensures var id, disposes := claim.taskExecutionId, !untrusted && Q.Holds(queued, claim);
            var (after, outcome) := CommitResult(begun, id, result, completedAt);
            var entries := Disposed(queued, claim, Success(outcome), untrusted, finishedAt);
            if result.succeeded
            then Succeeds(before, queued, id, result.output, disposes, completedAt, finishedAt, after, entries)
            else Fails(before, queued, id, result.message, disposes, completedAt, after, entries)
  {
    var id, disposes := claim.taskExecutionId, !untrusted && Q.Holds(queued, claim);
    var outcome := CommitResult(begun, id, result, completedAt).1;
    if !disposes {
      LostClaims(queued, claim, Success(outcome), untrusted, finishedAt);
    }
    hide Consistent, ExecutionStore.CompleteTask, ExecutionStore.RetryTask, Succeeds, Fails, Q.Holds, Q.Released, Q.Finished;
    if result.succeeded {
      SuccessSettles(before, begun, queued, claim, result.output, disposes, completedAt, finishedAt);
    } else {
      FailureSettles(before, begun, queued, claim, result.message, disposes, completedAt, finishedAt);
    }
  }

  lemma WorkSettles(
    executor: Executor, before: Store, queued: Q.Entries, claim: Claim, started: StartResult, untrusted: bool,
    startedAt: Time, completedAt: Time, finishedAt: Time, after: Store, r: Result<ProcessTaskResult, ProcessError>)
    requires Consistent(before) && Workable(before.tasks, claim.taskExecutionId)
    requires Starts(before, claim.taskExecutionId, startedAt, started)
    requires ProcessedAs(executor, before, claim.taskExecutionId, started, startedAt, completedAt, after, r)
    ensures Works(executor, before, queued, claim.taskExecutionId, started, !untrusted && Q.Holds(queued, claim),
                  completedAt, finishedAt, after, Disposed(queued, claim, r, untrusted, finishedAt))
  {
    var id := claim.taskExecutionId;
    hide Consistent, Starts, ParentOutputs, ExecutionStore.StartTask, CommitResult, Succeeds, Fails, Q.Holds, Q.Released, Q.Finished;
    OpenStarts(before, id, startedAt, started);
    BegunTask(before, id, startedAt);
    var begun := ExecutionStore.StartTask(before, id, startedAt);
    var answer := executor(started.pluginType, ContextOf(started));
    if answer.Some? {
      AnswerSettles(before, begun, queued, claim, answer.value, untrusted, completedAt, finishedAt);
    }
  }

  lemma OverIsSkipped(
    executor: Executor, before: Store, queued: Q.Entries, claim: Claim, started: StartResult, untrusted: bool,
    startedAt: Time, completedAt: Time, finishedAt: Time, after: Store, r: Result<ProcessTaskResult, ProcessError>)
    requires !(claim.taskExecutionId in before.tasks && before.tasks[claim.taskExecutionId].Open())
    requires Starts(before, claim.taskExecutionId, startedAt, started)
    requires ProcessedAs(executor, before, claim.taskExecutionId, started, startedAt, completedAt, after, r)
    ensures Skips(before, queued, claim.taskExecutionId, !untrusted && Q.Holds(queued, claim), after,
                  Disposed(queued, claim, r, untrusted, finishedAt))
  {
    if !untrusted && Q.Holds(queued, claim) {
      FreedOrRemoved(queued, claim, finishedAt);
    } else {
      LostClaims(queued, claim, r, untrusted, finishedAt);
    }
    hide Q.Released, Q.Finished, Removed;
  }

  lemma ClaimSettles(
    executor: Executor, before: Store, queued: Q.Entries, claim: Claim, started: StartResult, untrusted: bool,
    startedAt: Time, completedAt: Time, finishedAt: Time, after: Store, r: Result<ProcessTaskResult, ProcessError>)
    requires Starts(before, claim.taskExecutionId, startedAt, started)
    requires ProcessedAs(executor, before, claim.taskExecutionId, started, startedAt, completedAt, after, r)
    ensures Settles(executor, before, queued, claim, started, untrusted, completedAt, finishedAt, after,
                    Disposed(queued, claim, r, untrusted, finishedAt))
    ensures r.Failure? <==> Raised(executor, started)
  {
    RaisedFails(executor, before, claim.taskExecutionId, started, startedAt, completedAt, after, r);
    if untrusted || !Q.Holds(queued, claim) || r.Failure? {
      LostClaims(queued, claim, r, untrusted, finishedAt);
    }
    hide Consistent, Starts, ProcessedAs, Works, Skips, Raised, Q.Holds, Disposed, Workable;
    if !(claim.taskExecutionId in before.tasks && before.tasks[claim.taskExecutionId].Open()) {
      OverIsSkipped(executor, before, queued, claim, started, untrusted, startedAt, completedAt, finishedAt, after, r);
    }
    if Consistent(before) && Workable(before.tasks, claim.taskExecutionId) {
      WorkSettles(executor, before, queued, claim, started, untrusted, startedAt, completedAt, finishedAt, after, r);
    }
  }

  lemma RaisedFails(
    executor: Executor, before: Store, id: Uuid, started: StartResult, startedAt: Time, completedAt: Time,
    after: Store, r: Result<ProcessTaskResult, ProcessError>)
    requires ProcessedAs(executor, before, id, started, startedAt, completedAt, after, r)
    ensures r.Failure? <==> Raised(executor, started)
    ensures r == Failure(PluginRaised) <==>
              started.Processable? && executor(started.pluginType, ContextOf(started)) == None
  {
    hide CommitResult, ExecutionStore.StartTask;
  }

  /** Without trust, or with a lost claim, the queue is left as it is. */
  lemma LostClaims(queued: Q.Entries, claim: Claim, r: Result<ProcessTaskResult, ProcessError>, untrusted: bool, now: Time)
    requires untrusted || !Q.Holds(queued, claim) || r.Failure?
    ensures Disposed(queued, claim, r, untrusted, now) == queued
  {
  }
}
