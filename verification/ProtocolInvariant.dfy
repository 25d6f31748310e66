/** The joint invariant of both stores, the workers' local states and the ids in flight. */
module ProtocolInvariant {
  import opened Domain
  import opened DefinitionGraph
  import opened StartService
  import opened ExecutionStore
  import opened StoreInvariant
  import opened Creation
  import opened Protocol
  import Q = QueueModel

  /******* The invariant *******/

  /** A stored task none of whose parents is unfinished. */
  ghost predicate Ready(tasks: map<Uuid, TaskExecution>, id: Uuid) {
    id in tasks && tasks[id].remainingDependencies == 0
  }

  /** The task still has its queue entry, or is over. */
  ghost predicate Kept(tasks: map<Uuid, TaskExecution>, entries: Q.Entries, id: Uuid) {
    id in tasks && (id in entries || tasks[id].Terminal())
  }

  ghost predicate RightContext(tasks: map<Uuid, TaskExecution>, id: Uuid, pluginType: string, context: TaskContext)
    requires id in tasks
  {
    && tasks[id].status != PENDING
    && pluginType == tasks[id].pluginType
    && context.configuration == tasks[id].configuration
    && ParentOutputs(tasks, tasks[id].parentTaskIds, context.inputs)
  }

  ghost predicate PhaseOk(tasks: map<Uuid, TaskExecution>, id: Uuid, phase: Phase)
    requires id in tasks
  {
    match phase
    case Claimed => true
    case Executing(pluginType, context) => RightContext(tasks, id, pluginType, context)
    case Executed(pluginType, context, result) => RightContext(tasks, id, pluginType, context)
    case Committed(outcome) =>
      && (!outcome.shouldRetry ==> tasks[id].Terminal())
      && (forall x | x in outcome.enqueueTaskIds :: Ready(tasks, x))
  }

  ghost predicate WorkerOk(tasks: map<Uuid, TaskExecution>, entries: Q.Entries, worker: Worker) {
    var id := worker.claim.taskExecutionId;
    Ready(tasks, id) && Kept(tasks, entries, id) && PhaseOk(tasks, id, worker.phase)
  }

  ghost predicate WorkersOk(tasks: map<Uuid, TaskExecution>, entries: Q.Entries, workers: map<Uuid, Worker>) {
    forall w | w in workers :: WorkerOk(tasks, entries, workers[w])
  }

  ghost predicate EntriesReady(tasks: map<Uuid, TaskExecution>, entries: Q.Entries) {
    forall id | id in entries :: Ready(tasks, id)
  }

  ghost predicate RunningQueued(tasks: map<Uuid, TaskExecution>, entries: Q.Entries) {
    forall id | id in tasks && tasks[id].status == RUNNING :: id in entries
  }

  ghost predicate AllReady(tasks: map<Uuid, TaskExecution>, ids: seq<Uuid>) {
    forall id | id in ids :: Ready(tasks, id)
  }

  ghost predicate PublishersReady(tasks: map<Uuid, TaskExecution>, publishers: map<Uuid, seq<Uuid>>) {
    forall p | p in publishers :: AllReady(tasks, publishers[p])
  }

  ghost predicate JointOk(tasks: map<Uuid, TaskExecution>, entries: Q.Entries, workers: map<Uuid, Worker>,
                          publishers: map<Uuid, seq<Uuid>>)
  {
    && EntriesReady(tasks, entries)
    && RunningQueued(tasks, entries)
    && WorkersOk(tasks, entries, workers)
    && PublishersReady(tasks, publishers)
  }

  ghost predicate StoreOk(definitions: Definitions, layouts: Layouts, st: Store) {
    && Consistent(st)
    && AllLaid(definitions, layouts, st)
    && forall d | d in definitions :: WellFormed(definitions[d].taskDefinitions)
  }

  ghost predicate Inv(s: System) {
    && StoreOk(s.definitions, s.layouts, s.store)
    && Q.QueueOk(s.queue)
    && JointOk(s.store.tasks, s.queue.entries, s.workers, s.publishers)
  }

  /******* What an advancing store keeps *******/

  /** A ready task's parents are all completed, with outputs. */
  lemma ReadyParentsCompleted(st: Store, id: Uuid)
    requires Consistent(st) && Ready(st.tasks, id)
    ensures forall p | p in st.tasks[id].parentTaskIds ::
              p in st.tasks && st.tasks[p].status == COMPLETED && st.tasks[p].output.Some?
  {
    assert Linked(st.tasks, id) && Counted(Completed(st.tasks), st.tasks[id]);
    CountZero(st.tasks[id].parentTaskIds, Completed(st.tasks));
    forall p | p in st.tasks[id].parentTaskIds
      ensures p in st.tasks && st.tasks[p].status == COMPLETED && st.tasks[p].output.Some?
    {
      assert p in Completed(st.tasks);
      assert Settled(st.tasks[p]);
    }
  }

  lemma InputsStay(st: Store, after: Store, id: Uuid, inputs: map<string, TaskOutput>)
    requires Consistent(st) && Ready(st.tasks, id) && Advances(st, after)
    requires ParentOutputs(st.tasks, st.tasks[id].parentTaskIds, inputs)
    ensures ParentOutputs(after.tasks, st.tasks[id].parentTaskIds, inputs)
  {
    var parents := st.tasks[id].parentTaskIds;
    ReadyParentsCompleted(st, id);
    forall p | p in parents
      ensures p in after.tasks && after.tasks[p] == st.tasks[p]
    {
      assert RowAdvances(st.tasks[p], after.tasks[p]);
    }
    hide Consistent, Advances, ParentOutputs;
    SameParentsSameInputs(st.tasks, after.tasks, parents, inputs);
  }

  lemma SameParentsSameInputs(
    before: map<Uuid, TaskExecution>, after: map<Uuid, TaskExecution>, parents: seq<Uuid>, inputs: map<string, TaskOutput>)
    requires forall p | p in parents :: p in before && p in after && after[p] == before[p]
    requires ParentOutputs(before, parents, inputs)
    ensures ParentOutputs(after, parents, inputs)
  {
    forall key | key in inputs
      ensures exists p | p in parents && p in after :: after[p].key == key && after[p].output == Some(inputs[key])
    {
      var p :| p in parents && p in before && before[p].key == key && before[p].output == Some(inputs[key]);
      assert after[p].key == key;
    }
  }

  /** Every entry that disappears belongs to a task that is over. */
  ghost predicate EntriesKept(tasks: map<Uuid, TaskExecution>, before: Q.Entries, after: Q.Entries) {
    forall id | id in before && id in tasks :: id in after || tasks[id].Terminal()
  }

  lemma ReadyStays(st: Store, after: Store, id: Uuid)
    requires Advances(st, after) && Ready(st.tasks, id)
    ensures Ready(after.tasks, id)
  {
    assert RowAdvances(st.tasks[id], after.tasks[id]);
  }

  lemma PhaseStays(st: Store, after: Store, id: Uuid, phase: Phase)
    requires Consistent(st) && Advances(st, after) && Ready(st.tasks, id) && PhaseOk(st.tasks, id, phase)
    ensures id in after.tasks && PhaseOk(after.tasks, id, phase)
  {
    assert RowAdvances(st.tasks[id], after.tasks[id]);
    if phase.Executing? || phase.Executed? {
      InputsStay(st, after, id, phase.context.inputs);
      assert Fixed(after.tasks[id]).parentTaskIds == Fixed(st.tasks[id]).parentTaskIds;
      assert Fixed(after.tasks[id]).pluginType == Fixed(st.tasks[id]).pluginType;
      assert Fixed(after.tasks[id]).configuration == Fixed(st.tasks[id]).configuration;
    } else if phase.Committed? {
      forall x | x in phase.outcome.enqueueTaskIds
        ensures Ready(after.tasks, x)
      {
        ReadyStays(st, after, x);
      }
    }
  }

  lemma WorkerStays(st: Store, after: Store, before: Q.Entries, entries: Q.Entries, worker: Worker)
    requires Consistent(st) && Advances(st, after) && EntriesKept(after.tasks, before, entries)
    requires WorkerOk(st.tasks, before, worker)
    ensures WorkerOk(after.tasks, entries, worker)
  {
    var id := worker.claim.taskExecutionId;
    PhaseStays(st, after, id, worker.phase);
    ReadyStays(st, after, id);
    assert RowAdvances(st.tasks[id], after.tasks[id]);
  }

  lemma WorkersStay(st: Store, after: Store, before: Q.Entries, entries: Q.Entries, workers: map<Uuid, Worker>)
    requires Consistent(st) && Advances(st, after) && EntriesKept(after.tasks, before, entries)
    requires WorkersOk(st.tasks, before, workers)
    ensures WorkersOk(after.tasks, entries, workers)
  {
    forall w | w in workers
      ensures WorkerOk(after.tasks, entries, workers[w])
    {
      hide WorkerOk, Consistent, Advances, EntriesKept;
      WorkerStays(st, after, before, entries, workers[w]);
    }
  }

  lemma PublishersStay(st: Store, after: Store, publishers: map<Uuid, seq<Uuid>>)
    requires Advances(st, after) && PublishersReady(st.tasks, publishers)
    ensures PublishersReady(after.tasks, publishers)
  {
    forall p, id | p in publishers && id in publishers[p]
      ensures Ready(after.tasks, id)
    {
      assert AllReady(st.tasks, publishers[p]);
      ReadyStays(st, after, id);
    }
  }

  lemma EntriesStay(st: Store, after: Store, entries: Q.Entries)
    requires Advances(st, after) && EntriesReady(st.tasks, entries)
    ensures EntriesReady(after.tasks, entries)
  {
    forall id | id in entries
      ensures Ready(after.tasks, id)
    {
      ReadyStays(st, after, id);
    }
  }

  /** An advancing store that starts nothing new keeps everything that was said about the queue, the workers
    * and the ids in flight. */
  lemma JointStays(st: Store, after: Store, entries: Q.Entries, workers: map<Uuid, Worker>,
                   publishers: map<Uuid, seq<Uuid>>)
    requires Consistent(st) && Advances(st, after) && JointOk(st.tasks, entries, workers, publishers)
    requires RunningQueued(after.tasks, entries)
    ensures JointOk(after.tasks, entries, workers, publishers)
  {
    assert EntriesKept(after.tasks, entries, entries);
    hide EntriesReady, RunningQueued, WorkersOk, PublishersReady, Advances, Consistent, EntriesKept;
    EntriesStay(st, after, entries);
    WorkersStay(st, after, entries, entries, workers);
    PublishersStay(st, after, publishers);
  }

  /******* Queue sessions *******/

  /** The entries a session leaves are old ones or ready ones, and those it removes are over. */
  lemma SessionKeepsJoint(st: Store, before: Q.Entries, after: Q.Entries, workers: map<Uuid, Worker>,
                          publishers: map<Uuid, seq<Uuid>>)
    requires Consistent(st) && JointOk(st.tasks, before, workers, publishers)
    requires EntriesKept(st.tasks, before, after)
    requires forall id | id in after && id !in before :: Ready(st.tasks, id)
    ensures JointOk(st.tasks, after, workers, publishers)
  {
    hide WorkersOk, PublishersReady, Consistent, Advances;
    SameStoreAdvances(st);
    WorkersStay(st, st, before, after, workers);
  }

  lemma EnqueueKeeps(st: Store, entries: Q.Entries, ids: seq<Uuid>, now: Time)
    requires AllReady(st.tasks, ids)
    ensures var after := Q.Inserted(entries, ids, now);
            && EntriesKept(st.tasks, entries, after)
            && forall id | id in after && id !in entries :: Ready(st.tasks, id)
  {
  }

  lemma FinishKeeps(st: Store, entries: Q.Entries, claim: Claim, ids: seq<Uuid>, now: Time)
    requires AllReady(st.tasks, ids)
    requires claim.taskExecutionId in st.tasks && st.tasks[claim.taskExecutionId].Terminal()
    ensures var after := Q.Finished(entries, claim, ids, now);
            && EntriesKept(st.tasks, entries, after)
            && forall id | id in after && id !in entries :: Ready(st.tasks, id)
  {
  }

  /** What each session does to the set of entries, given what the invariant says about its arguments. */
  lemma SessionEntries(s: System, step: Step)
    requires JointOk(s.store.tasks, s.queue.entries, s.workers, s.publishers)
    ensures var before, after := s.queue.entries, Apply(s, step).queue.entries;
            && EntriesKept(s.store.tasks, before, after)
            && forall id | id in after && id !in before :: Ready(s.store.tasks, id)
  {
    hide WorkersOk, EntriesReady, RunningQueued;
    var session := QueueSteps(s, step);
    OneSession(s, step);
    if step.Publish? && session != [] {
      EnqueueKeeps(s.store, s.queue.entries, s.publishers[step.publisher], s.queue.clock);
    } else if step.Dispose? && session != [] && session[0].FinishClaim? {
      DisposedIsOver(s, step.worker);
      FinishKeeps(s.store, s.queue.entries, session[0].claim, session[0].ids, s.queue.clock);
    }
  }

  lemma DisposedIsOver(s: System, worker: Uuid)
    requires WorkersOk(s.store.tasks, s.queue.entries, s.workers)
    requires worker in s.workers && s.workers[worker].phase.Committed? && !s.workers[worker].phase.outcome.shouldRetry
    ensures var w := s.workers[worker];
            && AllReady(s.store.tasks, w.phase.outcome.enqueueTaskIds)
            && w.claim.taskExecutionId in s.store.tasks
            && s.store.tasks[w.claim.taskExecutionId].Terminal()
  {
    assert WorkerOk(s.store.tasks, s.queue.entries, s.workers[worker]);
  }

  lemma QueueStaysOk(lease: Time, s: System, step: Step)
    requires Q.QueueOk(s.queue) && Enabled(lease, s, step)
    ensures Q.QueueOk(Apply(s, step).queue)
  {
    hide Q.QueueOk;
    OneSession(s, step);
    if QueueSteps(s, step) != [] {
      Q.StepKeepsQueueOk(lease, s.queue, QueueSteps(s, step)[0]);
    }
  }

  /** A step is at most one queue session. */
  lemma OneSession(s: System, step: Step)
    ensures |QueueSteps(s, step)| <= 1
    ensures Apply(s, step).queue
         == if QueueSteps(s, step) == [] then s.queue else Q.Apply(s.queue, QueueSteps(s, step)[0])
  {
    var session := QueueSteps(s, step);
    assert |session| <= 1;
    if |session| == 1 {
      assert session[1..] == [];
      assert Q.After(Q.Apply(s.queue, session[0]), []) == Q.Apply(s.queue, session[0]);
    }
  }

  /******* The store after a step *******/

  lemma StartedRows(s: System, step: Step)
    requires StoreOk(s.definitions, s.layouts, s.store) && step.Start?
    requires Enabled(0.0, s, step)
    ensures StoreOk(s.definitions, s.layouts[step.workflow := step.ids], StoreAfter(s, step))
    ensures Advances(s.store, StoreAfter(s, step))
  {
    var tasks := s.definitions[step.definitionId].taskDefinitions;
    hide Consistent, AllLaid, Advances, CreateExecution, Rows, CompiledFrom, WellFormed, Assigns;
    CreateKeepsConsistent(s.store, tasks, step.ids, step.workflow, step.definitionId, step.executions);
    CreateLays(s.definitions, s.layouts, s.store, tasks, step.ids, step.workflow, step.definitionId, step.executions);
  }

  lemma DefineKeepsStore(s: System, step: Step)
    requires StoreOk(s.definitions, s.layouts, s.store) && step.Define? && step.id !in s.definitions
    requires WellFormed(step.definition.taskDefinitions)
    ensures StoreOk(s.definitions[step.id := step.definition], s.layouts, s.store)
  {
    hide Consistent, WellFormed, Assigns;
    var more := s.definitions[step.id := step.definition];
    forall w | w in s.store.workflows
      ensures Laid(more, s.layouts, s.store, w)
    {
      assert Laid(s.definitions, s.layouts, s.store, w);
    }
  }

  /** A worker's claim names a ready task. */
  lemma ClaimedReady(s: System, worker: Uuid)
    requires JointOk(s.store.tasks, s.queue.entries, s.workers, s.publishers) && worker in s.workers
    ensures WorkerOk(s.store.tasks, s.queue.entries, s.workers[worker])
    ensures Ready(s.store.tasks, s.workers[worker].claim.taskExecutionId)
  {
    assert WorkersOk(s.store.tasks, s.queue.entries, s.workers);
  }

  lemma BegunRows(s: System, step: Step)
    requires StoreOk(s.definitions, s.layouts, s.store) && step.Begin? && Busy(s, step.worker)
    requires Ready(s.store.tasks, s.workers[step.worker].claim.taskExecutionId)
    ensures StoreOk(s.definitions, s.layouts, StoreAfter(s, step))
    ensures Advances(s.store, StoreAfter(s, step))
  {
    hide Consistent, AllLaid, Advances, SameRows, StartTask;
    if step.started.Processable? {
      StartKeepsConsistent(s.store, s.workers[step.worker].claim.taskExecutionId, s.queue.clock);
      LaidStays(s.definitions, s.layouts, s.store, StoreAfter(s, step));
    } else {
      SameStoreAdvances(s.store);
    }
  }

  lemma CommittedRows(s: System, step: Step)
    requires StoreOk(s.definitions, s.layouts, s.store) && step.Commit?
    ensures StoreOk(s.definitions, s.layouts, StoreAfter(s, step))
    ensures Advances(s.store, StoreAfter(s, step))
  {
    hide Consistent, AllLaid, Advances, SameRows, CompleteTask, RetryTask;
    SameStoreAdvances(s.store);
    if Busy(s, step.worker) && s.workers[step.worker].phase.Executed? {
      var id, result, now := s.workers[step.worker].claim.taskExecutionId, s.workers[step.worker].phase.result, s.queue.clock;
      if result.succeeded {
        CompleteKeepsConsistent(s.store, id, result.output, now);
        CompleteAdvances(s.store, id, result.output, now);
      } else {
        RetryKeepsConsistent(s.store, id, result.message, now);
      }
      LaidStays(s.definitions, s.layouts, s.store, StoreAfter(s, step));
    }
  }

  lemma StoreStep(lease: Time, s: System, step: Step)
    requires Inv(s) && Enabled(lease, s, step)
    ensures StoreOk(Apply(s, step).definitions, Apply(s, step).layouts, Apply(s, step).store)
    ensures Advances(s.store, Apply(s, step).store)
  {
    hide StoreOk, Advances, JointOk, Q.QueueOk;
    SameStoreAdvances(s.store);
    if step.Start? {
      StartedRows(s, step);
    } else if step.Define? {
      DefineKeepsStore(s, step);
    } else if step.Begin? {
      ClaimedReady(s, step.worker);
      BegunRows(s, step);
    } else if step.Commit? {
      CommittedRows(s, step);
    }
  }

  /** Only a worker with a kept claim makes a task run. */
  lemma StillQueued(lease: Time, s: System, step: Step)
    requires Inv(s) && Enabled(lease, s, step)
    ensures RunningQueued(Apply(s, step).store.tasks, s.queue.entries)
  {
    if step.Begin? {
      ClaimedReady(s, step.worker);
    } else if step.Commit? {
      CommitStartsNothing(s, step);
    } else if step.Start? {
      StartStartsNothing(s, step);
    }
  }

  lemma CommitStartsNothing(s: System, step: Step)
    requires Consistent(s.store) && step.Commit? && RunningQueued(s.store.tasks, s.queue.entries)
    ensures RunningQueued(StoreAfter(s, step).tasks, s.queue.entries)
  {
    hide Consistent, CompleteTask, RetryTask;
    if Busy(s, step.worker) && s.workers[step.worker].phase.Executed? {
      var id, result, now := s.workers[step.worker].claim.taskExecutionId, s.workers[step.worker].phase.result, s.queue.clock;
      if result.succeeded {
        CompletionStartsNothing(s.store, id, result.output, now);
      } else {
        RetryStartsNothing(s.store, id, result.message, now);
      }
    }
    forall x | x in StoreAfter(s, step).tasks && StoreAfter(s, step).tasks[x].status == RUNNING
      ensures x in s.queue.entries
    {
      assert Running(StoreAfter(s, step), x);
    }
  }

  lemma CompletionStartsNothing(st: Store, id: Uuid, output: TaskOutput, now: Time)
    requires Consistent(st)
    ensures forall x | Running(CompleteTask(st, id, output, now).0, x) :: Running(st, x)
  {
    if Running(st, id) {
      CompletionIsExact(st, id, output, now);
      hide Consistent, CompleteTask;
    }
  }

  lemma RetryStartsNothing(st: Store, id: Uuid, message: Option<string>, now: Time)
    ensures forall x | Running(RetryTask(st, id, message, now).0, x) :: Running(st, x)
  {
  }

  lemma StartStartsNothing(s: System, step: Step)
    requires StoreOk(s.definitions, s.layouts, s.store) && step.Start? && Enabled(0.0, s, step)
    requires RunningQueued(s.store.tasks, s.queue.entries)
    ensures RunningQueued(StoreAfter(s, step).tasks, s.queue.entries)
  {
    var tasks := s.definitions[step.definitionId].taskDefinitions;
    assert UniqueIds(tasks);
    hide Consistent, AllLaid, WellFormed;
    CompiledRows(tasks, step.ids, step.workflow, step.executions);
    forall id | id in Rows(step.executions)
      ensures Rows(step.executions)[id].status == PENDING
    {
      var i :| 0 <= i < |tasks| && ExecutionId(step.ids, tasks[i].id) == id;
    }
  }

  /******* The workers after a step *******/

  lemma ClaimOk(lease: Time, s: System, step: Step)
    requires JointOk(s.store.tasks, s.queue.entries, s.workers, s.publishers)
    requires step.ClaimTask? && Enabled(lease, s, step)
    ensures WorkerOk(s.store.tasks, Apply(s, step).queue.entries, Worker(Claim(step.id, step.token), true, Claimed))
  {
    assert Ready(s.store.tasks, step.id);
    OneSession(s, step);
  }

  lemma BegunOk(s: System, step: Step)
    requires step.Begin? && Busy(s, step.worker)
    requires Starts(s.store, s.workers[step.worker].claim.taskExecutionId, s.queue.clock, step.started)
    requires WorkerOk(s.store.tasks, s.queue.entries, s.workers[step.worker])
    requires WorkerOk(StoreAfter(s, step).tasks, s.queue.entries, s.workers[step.worker])
    ensures var after := WorkerAfter(s, step, s.workers[step.worker]);
            after.Some? ==> WorkerOk(StoreAfter(s, step).tasks, s.queue.entries, after.value)
  {
  }

  /** After a commit a task that is not to be retried is over, and the reported children are ready. */
  lemma CommittedOk(s: System, step: Step)
    requires Consistent(s.store) && step.Commit? && Busy(s, step.worker) && s.workers[step.worker].phase.Executed?
    requires WorkerOk(s.store.tasks, s.queue.entries, s.workers[step.worker])
    requires WorkerOk(StoreAfter(s, step).tasks, s.queue.entries, s.workers[step.worker])
    ensures var after := WorkerAfter(s, step, s.workers[step.worker]);
            after.Some? ==> WorkerOk(StoreAfter(s, step).tasks, s.queue.entries, after.value)
  {
    var worker := s.workers[step.worker];
    var id, result, now := worker.claim.taskExecutionId, worker.phase.result, s.queue.clock;
    if result.succeeded {
      CompletedOk(s.store, id, result.output, now);
    } else {
      RetriedOk(s.store, id, result.message, now);
    }
  }

  lemma CompletedOk(st: Store, id: Uuid, output: TaskOutput, now: Time)
    requires Consistent(st) && Ready(st.tasks, id) && st.tasks[id].status != PENDING
    ensures var (after, result) := CompleteTask(st, id, output, now);
            && id in after.tasks && after.tasks[id].Terminal()
            && forall x | x in result.runnableTaskIds :: Ready(after.tasks, x)
  {
    if Running(st, id) {
      assert Linked(st.tasks, id);
      CompletionIsExact(st, id, output, now);
      AllChildrenWait(st, id);
    }
  }

  lemma RetriedOk(st: Store, id: Uuid, message: Option<string>, now: Time)
    requires Consistent(st) && Ready(st.tasks, id) && st.tasks[id].status != PENDING
    ensures var (after, result) := RetryTask(st, id, message, now);
            && id in after.tasks && (!result.shouldRetry ==> after.tasks[id].Terminal())
  {
    assert Settled(st.tasks[id]);
    if Running(st, id) && st.tasks[id].remainingTries == 1 {
      FailureIsExact(st, id, message, now);
    }
  }

  /** The worker that took the step is left in order. */
  lemma OwnWorkerOk(lease: Time, s: System, step: Step)
    requires Inv(s) && Enabled(lease, s, step) && IsWorkerStep(step) && Busy(s, step.worker)
    requires WorkerOk(Apply(s, step).store.tasks, Apply(s, step).queue.entries, s.workers[step.worker])
    ensures var after := WorkerAfter(s, step, s.workers[step.worker]);
            after.Some? ==> WorkerOk(Apply(s, step).store.tasks, Apply(s, step).queue.entries, after.value)
  {
    hide Inv, Enabled, WorkerOk, WorkerAfter;
    if step.Begin? || step.Commit? {
      NoSession(s, step);
      TransactionLeavesOk(lease, s, step);
    } else {
      hide Apply;
      LocalStepOk(s, step, Apply(s, step).store.tasks, Apply(s, step).queue.entries);
    }
  }

  lemma LocalStepOk(s: System, step: Step, tasks: map<Uuid, TaskExecution>, entries: Q.Entries)
    requires IsWorkerStep(step) && !step.Begin? && !step.Commit? && Busy(s, step.worker)
    requires WorkerOk(tasks, entries, s.workers[step.worker])
    ensures var after := WorkerAfter(s, step, s.workers[step.worker]);
            after.Some? ==> WorkerOk(tasks, entries, after.value)
  {
    hide Q.Holds, CommitResult;
  }

  lemma TransactionLeavesOk(lease: Time, s: System, step: Step)
    requires Inv(s) && Enabled(lease, s, step) && (step.Begin? || step.Commit?) && Busy(s, step.worker)
    requires WorkerOk(StoreAfter(s, step).tasks, s.queue.entries, s.workers[step.worker])
    ensures var after := WorkerAfter(s, step, s.workers[step.worker]);
            after.Some? ==> WorkerOk(StoreAfter(s, step).tasks, s.queue.entries, after.value)
  {
    hide WorkerOk, Starts, StoreAfter, WorkerAfter, StoreOk, JointOk, Q.QueueOk;
    ClaimedReady(s, step.worker);
    if step.Begin? {
      BegunOk(s, step);
    } else {
      StoreIsConsistent(s);
      CommittedOk(s, step);
    }
  }

  lemma StoreIsConsistent(s: System)
    requires Inv(s)
    ensures Consistent(s.store)
  {
    hide Consistent, AllLaid, JointOk, Q.QueueOk;
  }

  lemma NoSession(s: System, step: Step)
    requires step.Begin? || step.Commit?
    ensures Apply(s, step).queue == s.queue
  {
  }

  lemma PublishersStep(lease: Time, s: System, step: Step)
    requires Inv(s) && Enabled(lease, s, step)
    requires PublishersReady(Apply(s, step).store.tasks, s.publishers)
    ensures PublishersReady(Apply(s, step).store.tasks, PublishersAfter(s, step))
  {
    if step.Start? {
      RootsReady(s, step);
    }
  }

  lemma RootsReady(s: System, step: Step)
    requires StoreOk(s.definitions, s.layouts, s.store) && step.Start? && Enabled(0.0, s, step)
    ensures AllReady(StoreAfter(s, step).tasks, Roots(step.executions))
  {
    var tasks := s.definitions[step.definitionId].taskDefinitions;
    assert UniqueIds(tasks);
    hide Consistent, AllLaid, WellFormed;
    CompiledRows(tasks, step.ids, step.workflow, step.executions);
    RootsHaveNoParents(step.executions);
    forall id | id in Roots(step.executions)
      ensures Ready(StoreAfter(s, step).tasks, id)
    {
      var i :| 0 <= i < |step.executions| && step.executions[i].id == id && step.executions[i].remainingDependencies == 0;
      assert step.executions[i] == Compiled(tasks, step.ids, step.workflow, i);
    }
  }

  /******* Every step keeps the invariant *******/

  lemma SessionOrStore(s: System, step: Step)
    ensures QueueSteps(s, step) == [] || StoreAfter(s, step) == s.store
  {
  }

  /** The other workers and publishers, seen from the state after the step. */
  lemma OthersStay(lease: Time, s: System, step: Step)
    requires Inv(s) && Enabled(lease, s, step)
    ensures JointOk(Apply(s, step).store.tasks, Apply(s, step).queue.entries, s.workers, s.publishers)
  {
    var after := Apply(s, step);
    StoreStep(lease, s, step);
    StillQueued(lease, s, step);
    SessionEntries(s, step);
    OneSession(s, step);
    SessionOrStore(s, step);
    hide Enabled, Apply, StoreAfter, QueueSteps, JointOk, AllLaid, Advances, RunningQueued, EntriesKept, Consistent;
    JointStays(s.store, after.store, s.queue.entries, s.workers, s.publishers);
    if after.store == s.store {
      SessionKeepsJoint(s.store, s.queue.entries, after.queue.entries, s.workers, s.publishers);
    }
  }

  lemma WorkersStep(lease: Time, s: System, step: Step)
    requires Inv(s) && Enabled(lease, s, step)
    requires WorkersOk(Apply(s, step).store.tasks, Apply(s, step).queue.entries, s.workers)
    ensures WorkersOk(Apply(s, step).store.tasks, Apply(s, step).queue.entries, WorkersAfter(s, step))
  {
    hide Inv, Enabled, WorkerOk, WorkerAfter, Apply;
    if step.ClaimTask? {
      NewWorkerOk(lease, s, step);
    } else if IsWorkerStep(step) {
      ActsAsBusy(lease, s, step);
      OwnWorkerOk(lease, s, step);
    }
  }

  lemma NewWorkerOk(lease: Time, s: System, step: Step)
    requires Inv(s) && step.ClaimTask? && Enabled(lease, s, step)
    ensures WorkerOk(Apply(s, step).store.tasks, Apply(s, step).queue.entries,
                     Worker(Claim(step.id, step.token), true, Claimed))
  {
    hide StoreOk, JointOk, Q.QueueOk, WorkerOk, Enabled;
    ClaimOk(lease, s, step);
  }

  lemma ActsAsBusy(lease: Time, s: System, step: Step)
    requires Enabled(lease, s, step) && IsWorkerStep(step)
    ensures Busy(s, step.worker)
  {
    hide Starts;
  }

  lemma StepKeepsInv(lease: Time, s: System, step: Step)
    requires Inv(s) && Enabled(lease, s, step)
    ensures Inv(Apply(s, step))
  {
    hide StoreOk, Q.QueueOk, WorkersOk, PublishersReady, EntriesReady, RunningQueued, Enabled, WorkersAfter,
         PublishersAfter, StoreAfter, QueueSteps;
    StoreStep(lease, s, step);
    QueueStaysOk(lease, s, step);
    OthersStay(lease, s, step);
    WorkersStep(lease, s, step);
    PublishersStep(lease, s, step);
  }

  lemma InitialInv(now: Time)
    ensures Inv(Initial(now))
  {
  }

  lemma {:induction false} RunKeepsInv(lease: Time, s: System, steps: seq<Step>)
    requires Inv(s) && Run(lease, s, steps)
    ensures Inv(After(s, steps)) && Advances(s.store, After(s, steps).store)
    decreases steps
  {
    hide Inv, Enabled, Apply, Advances;
    if steps == [] {
      SameStoreAdvances(s.store);
    } else {
      var next := Apply(s, steps[0]);
      StepKeepsInv(lease, s, steps[0]);
      StoreStep(lease, s, steps[0]);
      RunKeepsInv(lease, next, steps[1..]);
      AdvancesTransitive(s.store, next.store, After(next, steps[1..]).store);
    }
  }

  lemma ReachableInv(lease: Time, s: System)
    requires Reachable(lease, s)
    ensures Inv(s)
  {
    hide Inv, Enabled, Apply;
    var now, steps :| Run(lease, Initial(now), steps) && s == After(Initial(now), steps);
    InitialInv(now);
    RunKeepsInv(lease, Initial(now), steps);
  }
}
