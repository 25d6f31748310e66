/** Completing tasks of one workflow, statement by statement under READ COMMITTED, the isolation level a PostgreSQL
  * engine gives when none is configured: a statement reads what is committed when it starts plus its own
  * transaction's writes, and an update waits for the transaction that last wrote the row. */
module ReadCommitted {
  import opened Domain

  /** The rows of one workflow as they were compiled: parents and children list each other. */
  datatype Shape = Shape(tasks: set<Uuid>, parents: map<Uuid, seq<Uuid>>, children: map<Uuid, seq<Uuid>>)

  ghost predicate Matched(shape: Shape, p: Uuid, c: Uuid)
    requires c in shape.parents && p in shape.children
  {
    p in shape.parents[c] <==> c in shape.children[p]
  }

  ghost predicate ShapeOk(shape: Shape) {
    && shape.tasks != {}
    && shape.parents.Keys == shape.tasks && shape.children.Keys == shape.tasks
    && (forall id | id in shape.tasks :: NoDuplicates(shape.parents[id]) && NoDuplicates(shape.children[id]))
    && (forall id, p | id in shape.tasks && p in shape.parents[id] :: p in shape.tasks)
    && (forall id, c | id in shape.tasks && c in shape.children[id] :: c in shape.tasks)
    && (forall p, c | p in shape.tasks && c in shape.tasks :: Matched(shape, p, c))
  }

  /** A transaction that has marked its task completed: the counters it has written, how far it has come with the
    * child list, and what its completion check saw. */
  datatype Transaction = Transaction(writes: map<Uuid, int>, served: nat, check: Option<bool>)

  /** Committed statuses and counters, whether the workflow is committed as completed, and the open transactions,
    * each under the task it completes. */
  datatype Tables = Tables(
    running: set<Uuid>,
    done: set<Uuid>,
    counters: map<Uuid, int>,
    completed: bool,
    open: map<Uuid, Transaction>)

  datatype Statement =
    | BeginTask(id: Uuid)
    | MarkCompleted(id: Uuid)
    | ServeChild(id: Uuid)
    | CheckWorkflow(id: Uuid)
    | CommitTransaction(id: Uuid)
    | Rollback(id: Uuid)

  ghost predicate Pending(s: Tables, id: Uuid) {
    id !in s.running && id !in s.done
  }

  /** The row is written by no open transaction but that of `id`. */
  ghost predicate Unlocked(s: Tables, id: Uuid, c: Uuid) {
    forall other | other in s.open && other != id :: c !in s.open[other].writes
  }

  ghost predicate Checkable(shape: Shape, s: Tables, id: Uuid) {
    && id in s.open && id in shape.children
    && s.open[id].served == |shape.children[id]| && s.open[id].check.None?
  }

  ghost predicate Enabled(shape: Shape, s: Tables, step: Statement) {
    match step
    case BeginTask(id) => id in shape.tasks && Pending(s, id) && id in s.counters && s.counters[id] == 0
    case MarkCompleted(id) => id in s.running && id !in s.open
    case ServeChild(id) =>
      && id in s.open && id in shape.children && s.open[id].served < |shape.children[id]|
      && Unlocked(s, id, shape.children[id][s.open[id].served])
    case CheckWorkflow(id) => Checkable(shape, s, id)
    case CommitTransaction(id) => id in s.open && s.open[id].check.Some?
    case Rollback(id) => id in s.open
  }

  /** Every task but `id` is committed as completed. */
  ghost predicate OthersDone(shape: Shape, s: Tables, id: Uuid) {
    forall x | x in shape.tasks && x != id :: x in s.done
  }

  ghost function Served(shape: Shape, s: Tables, id: Uuid): Transaction
    requires id in s.open && id in shape.children && s.open[id].served < |shape.children[id]|
  {
    var txn, c := s.open[id], shape.children[id][s.open[id].served];
    if Pending(s, c) && c in s.counters && s.counters[c] > 0
    then Transaction(txn.writes[c := s.counters[c] - 1], txn.served + 1, txn.check)
    else txn.(served := txn.served + 1)
  }

  ghost function Apply(shape: Shape, s: Tables, step: Statement): Tables
    requires Enabled(shape, s, step)
  {
    match step
    case BeginTask(id) => s.(running := s.running + {id})
    case MarkCompleted(id) => s.(open := s.open[id := Transaction(map[], 0, None)])
    case ServeChild(id) => s.(open := s.open[id := Served(shape, s, id)])
    case CheckWorkflow(id) =>
      s.(open := s.open[id := s.open[id].(check := Some(!s.completed && OthersDone(shape, s, id)))])
    case CommitTransaction(id) =>
      Tables(s.running - {id}, s.done + {id}, s.counters + s.open[id].writes,
             s.completed || s.open[id].check.value, s.open - {id})
    case Rollback(id) => s.(open := s.open - {id})
  }

  ghost predicate Run(shape: Shape, s: Tables, steps: seq<Statement>)
    decreases steps
  {
    steps == [] || (Enabled(shape, s, steps[0]) && Run(shape, Apply(shape, s, steps[0]), steps[1..]))
  }

  ghost function After(shape: Shape, s: Tables, steps: seq<Statement>): Tables
    requires Run(shape, s, steps)
    decreases steps
  {
    if steps == [] then s else After(shape, Apply(shape, s, steps[0]), steps[1..])
  }

  ghost function Initial(shape: Shape): Tables
    requires ShapeOk(shape)
  {
    Tables({}, {}, map id | id in shape.tasks :: |shape.parents[id]|, false, map[])
  }

  /******* Counters lose no decrement *******/

  /** The counter is the number of parents not yet committed, and only tasks that wait for nothing run. */
  ghost predicate CounterOk(shape: Shape, s: Tables, id: Uuid)
    requires id in shape.parents
  {
    && id in s.counters && s.counters[id] == CountOutside(shape.parents[id], s.done)
    && (!Pending(s, id) ==> s.counters[id] == 0)
  }

  ghost predicate CountersOk(shape: Shape, s: Tables)
    requires ShapeOk(shape)
  {
    && s.counters.Keys == shape.tasks && s.done <= shape.tasks && s.running <= shape.tasks && s.running !! s.done
    && forall id | id in shape.tasks :: CounterOk(shape, s, id)
  }

  /** What a transaction has written is one less than what is committed, for exactly the children it has served. */
  ghost predicate WritesOk(children: seq<Uuid>, counters: map<Uuid, int>, txn: Transaction) {
    && txn.served <= |children|
    && (forall c :: c in txn.writes <==> c in children[..txn.served])
    && (forall c | c in txn.writes :: c in counters && txn.writes[c] == counters[c] - 1)
    && (txn.check.Some? ==> txn.served == |children|)
  }

  ghost predicate AllWritesOk(shape: Shape, counters: map<Uuid, int>, open: map<Uuid, Transaction>) {
    forall id | id in open :: id in shape.children && WritesOk(shape.children[id], counters, open[id])
  }

  ghost predicate LocksDisjoint(open: map<Uuid, Transaction>) {
    forall a, b, c | a in open && b in open && a != b && c in open[a].writes :: c !in open[b].writes
  }

  ghost predicate ChecksOk(shape: Shape, s: Tables) {
    && s.open.Keys <= s.running
    && (forall id | id in s.open && s.open[id].check == Some(true) :: OthersDone(shape, s, id))
    && (s.completed ==> s.done == shape.tasks)
  }

  ghost predicate Inv(shape: Shape, s: Tables) {
    && ShapeOk(shape) && CountersOk(shape, s)
    && AllWritesOk(shape, s.counters, s.open) && LocksDisjoint(s.open)
    && ChecksOk(shape, s)
  }

  /** A child of a running task is pending and counts that task. */
  lemma ChildWaits(shape: Shape, s: Tables, id: Uuid, c: Uuid)
    requires ShapeOk(shape) && CountersOk(shape, s) && id in s.running && c in shape.children[id]
    ensures c in shape.tasks && Pending(s, c) && s.counters[c] > 0
  {
    assert Matched(shape, id, c) && CounterOk(shape, s, c);
    CountZero(shape.parents[c], s.done);
  }

  /** A transaction that has served all its children has written one less for each of them and nothing else. */
  lemma CommittedCounters(children: seq<Uuid>, counters: map<Uuid, int>, txn: Transaction)
    requires WritesOk(children, counters, txn) && txn.check.Some?
    ensures (counters + txn.writes).Keys == counters.Keys
    ensures forall c | c in counters :: (counters + txn.writes)[c] == counters[c] - if c in children then 1 else 0
  {
    assert children[..txn.served] == children;
  }

  lemma CommitCounts(shape: Shape, s: Tables, after: Tables, id: Uuid)
    requires ShapeOk(shape) && CountersOk(shape, s) && id in s.running
    requires after.counters.Keys == s.counters.Keys
    requires forall c | c in s.counters :: after.counters[c] == s.counters[c] - if c in shape.children[id] then 1 else 0
    requires after.running == s.running - {id} && after.done == s.done + {id}
    ensures CountersOk(shape, after)
  {
    forall c | c in shape.tasks
      ensures CounterOk(shape, after, c)
    {
      CounterAfterCommit(shape, s, after, id, c);
    }
  }

  lemma CounterAfterCommit(shape: Shape, s: Tables, after: Tables, id: Uuid, c: Uuid)
    requires ShapeOk(shape) && CountersOk(shape, s) && id in s.running && c in shape.tasks
    requires after.counters.Keys == s.counters.Keys
    requires after.counters[c] == s.counters[c] - if c in shape.children[id] then 1 else 0
    requires after.running == s.running - {id} && after.done == s.done + {id}
    ensures CounterOk(shape, after, c)
  {
    assert CounterOk(shape, s, c) && Matched(shape, id, c);
    if c in shape.children[id] {
      ChildWaits(shape, s, id, c);
    }
    CountGrows(shape.parents[c], s.done, id);
    hide ShapeOk, CountersOk;
  }

  /** Disjoint locks keep the other transactions' writes one below what is committed. */
  lemma OtherWritesStay(shape: Shape, counters: map<Uuid, int>, open: map<Uuid, Transaction>, id: Uuid)
    requires AllWritesOk(shape, counters, open) && LocksDisjoint(open) && id in open
    ensures AllWritesOk(shape, counters + open[id].writes, open - {id})
  {
    forall other | other in open - {id}
      ensures WritesOk(shape.children[other], counters + open[id].writes, open[other])
    {
      assert WritesOk(shape.children[other], counters, open[other]);
    }
  }

  lemma CommitKeepsInv(shape: Shape, s: Tables, id: Uuid)
    requires Inv(shape, s) && Enabled(shape, s, CommitTransaction(id))
    ensures Inv(shape, Apply(shape, s, CommitTransaction(id)))
  {
    var after := Apply(shape, s, CommitTransaction(id));
    assert ChecksOk(shape, after);
    hide ShapeOk, CountersOk, ChecksOk, WritesOk, LocksDisjoint;
    CommittedCounters(shape.children[id], s.counters, s.open[id]);
    OtherWritesStay(shape, s.counters, s.open, id);
    assert id in s.running by {
      OpenIsRunning(shape, s, id);
    }
    CommitCounts(shape, s, after, id);
    FewerLocks(s.open, id);
  }

  lemma OpenIsRunning(shape: Shape, s: Tables, id: Uuid)
    requires ChecksOk(shape, s) && id in s.open
    ensures id in s.running
  {
  }

  lemma FewerLocks(open: map<Uuid, Transaction>, id: Uuid)
    requires LocksDisjoint(open)
    ensures LocksDisjoint(open - {id})
  {
  }

  /** One transaction changes; the others keep their writes and their locks. */
  lemma OneTransaction(shape: Shape, counters: map<Uuid, int>, open: map<Uuid, Transaction>, id: Uuid, txn: Transaction)
    requires AllWritesOk(shape, counters, open) && LocksDisjoint(open) && id in shape.children
    requires WritesOk(shape.children[id], counters, txn)
    requires forall c, other | other in open && other != id && c in txn.writes :: c !in open[other].writes
    ensures AllWritesOk(shape, counters, open[id := txn]) && LocksDisjoint(open[id := txn])
  {
    hide WritesOk;
  }

  /** The transaction of `id` moves on, with at most one more lock that nobody else holds. */
  lemma TransactionMovesOn(shape: Shape, s: Tables, id: Uuid, txn: Transaction)
    requires Inv(shape, s) && id in s.open && id in shape.children
    requires WritesOk(shape.children[id], s.counters, txn)
    requires forall c | c in txn.writes && c !in s.open[id].writes :: Unlocked(s, id, c)
    requires txn.check == Some(true) ==> OthersDone(shape, s, id)
    ensures Inv(shape, s.(open := s.open[id := txn]))
  {
    var after := s.(open := s.open[id := txn]);
    SameCounters(shape, s, after);
    MovesOnChecked(shape, s, id, txn);
    hide ShapeOk, CountersOk, ChecksOk, WritesOk, AllWritesOk, OthersDone;
    forall c, other | other in s.open && other != id && c in txn.writes
      ensures c !in s.open[other].writes
    {
      assert c !in s.open[id].writes ==> Unlocked(s, id, c);
    }
    hide LocksDisjoint;
    OneTransaction(shape, s.counters, s.open, id, txn);
  }

  lemma MovesOnChecked(shape: Shape, s: Tables, id: Uuid, txn: Transaction)
    requires ChecksOk(shape, s) && id in s.open && (txn.check == Some(true) ==> OthersDone(shape, s, id))
    ensures ChecksOk(shape, s.(open := s.open[id := txn]))
  {
    var after := s.(open := s.open[id := txn]);
    forall x | x in after.open && after.open[x].check == Some(true)
      ensures OthersDone(shape, after, x)
    {
      assert OthersDone(shape, s, x);
    }
    hide OthersDone;
  }

  lemma ServeKeepsInv(shape: Shape, s: Tables, id: Uuid)
    requires Inv(shape, s) && Enabled(shape, s, ServeChild(id))
    ensures Inv(shape, Apply(shape, s, ServeChild(id)))
  {
    ServedChild(shape, s, id);
    hide Inv;
    TransactionMovesOn(shape, s, id, Served(shape, s, id));
  }

  lemma ServedChild(shape: Shape, s: Tables, id: Uuid)
    requires Inv(shape, s) && Enabled(shape, s, ServeChild(id))
    ensures var txn := Served(shape, s, id);
            && WritesOk(shape.children[id], s.counters, txn)
            && (forall c | c in txn.writes && c !in s.open[id].writes :: Unlocked(s, id, c))
            && (txn.check == Some(true) ==> OthersDone(shape, s, id))
  {
    var c := shape.children[id][s.open[id].served];
    ChildWaits(shape, s, id, c);
    assert WritesOk(shape.children[id], s.counters, s.open[id]);
    assert c in s.counters;
    assert s.open[id].check == Some(true) ==> OthersDone(shape, s, id);
    hide ShapeOk, CountersOk, AllWritesOk, LocksDisjoint, ChecksOk, Unlocked, OthersDone;
    ServeWrites(shape.children[id], s.counters, s.open[id]);
    hide WritesOk;
  }

  lemma ServeWrites(children: seq<Uuid>, counters: map<Uuid, int>, txn: Transaction)
    requires WritesOk(children, counters, txn) && txn.served < |children|
    requires children[txn.served] in counters
    ensures var c := children[txn.served];
            WritesOk(children, counters, Transaction(txn.writes[c := counters[c] - 1], txn.served + 1, txn.check))
  {
    assert children[..txn.served + 1] == children[..txn.served] + [children[txn.served]];
  }

  lemma SameCounters(shape: Shape, s: Tables, after: Tables)
    requires ShapeOk(shape) && CountersOk(shape, s)
    requires after.counters == s.counters && after.running == s.running && after.done == s.done
    ensures CountersOk(shape, after)
  {
    forall x | x in shape.tasks
      ensures CounterOk(shape, after, x)
    {
      assert CounterOk(shape, s, x);
    }
  }

  lemma BeginKeepsInv(shape: Shape, s: Tables, id: Uuid)
    requires Inv(shape, s) && Enabled(shape, s, BeginTask(id))
    ensures Inv(shape, Apply(shape, s, BeginTask(id)))
  {
    var after := Apply(shape, s, BeginTask(id));
    assert ChecksOk(shape, after);
    hide ChecksOk, AllWritesOk, LocksDisjoint;
    forall x | x in shape.tasks
      ensures CounterOk(shape, after, x)
    {
      assert CounterOk(shape, s, x);
    }
    hide ShapeOk;
  }

  lemma MarkKeepsInv(shape: Shape, s: Tables, id: Uuid)
    requires Inv(shape, s) && Enabled(shape, s, MarkCompleted(id))
    ensures Inv(shape, Apply(shape, s, MarkCompleted(id)))
  {
    SameCounters(shape, s, Apply(shape, s, MarkCompleted(id)));
    assert id in shape.children;
    hide ShapeOk, CountersOk, AllWritesOk, LocksDisjoint;
    OneTransaction(shape, s.counters, s.open, id, Transaction(map[], 0, None));
  }

  lemma CheckKeepsInv(shape: Shape, s: Tables, id: Uuid)
    requires Inv(shape, s) && Enabled(shape, s, CheckWorkflow(id))
    ensures Inv(shape, Apply(shape, s, CheckWorkflow(id)))
  {
    assert WritesOk(shape.children[id], s.counters, s.open[id]);
    hide Inv;
    TransactionMovesOn(shape, s, id, s.open[id].(check := Some(!s.completed && OthersDone(shape, s, id))));
  }

  lemma RollbackKeepsInv(shape: Shape, s: Tables, id: Uuid)
    requires Inv(shape, s) && Enabled(shape, s, Rollback(id))
    ensures Inv(shape, Apply(shape, s, Rollback(id)))
  {
    SameCounters(shape, s, Apply(shape, s, Rollback(id)));
    FewerLocks(s.open, id);
    hide ShapeOk, CountersOk, LocksDisjoint;
  }

  lemma StepKeepsInv(shape: Shape, s: Tables, step: Statement)
    requires Inv(shape, s) && Enabled(shape, s, step)
    ensures Inv(shape, Apply(shape, s, step))
  {
    hide Inv, Apply;
    match step
    case BeginTask(id) => BeginKeepsInv(shape, s, id);
    case ServeChild(id) => ServeKeepsInv(shape, s, id);
    case CommitTransaction(id) => CommitKeepsInv(shape, s, id);
    case MarkCompleted(id) => MarkKeepsInv(shape, s, id);
    case CheckWorkflow(id) => CheckKeepsInv(shape, s, id);
    case Rollback(id) => RollbackKeepsInv(shape, s, id);
  }

  lemma InitialInv(shape: Shape)
    requires ShapeOk(shape)
    ensures Inv(shape, Initial(shape))
  {
    forall id | id in shape.tasks
      ensures CounterOk(shape, Initial(shape), id)
    {
      CountDisjoint(shape.parents[id], {});
    }
  }

  lemma {:induction false} RunKeepsInv(shape: Shape, s: Tables, steps: seq<Statement>)
    requires Inv(shape, s) && Run(shape, s, steps)
    ensures Inv(shape, After(shape, s, steps))
    decreases steps
  {
    if steps != [] {
      StepKeepsInv(shape, s, steps[0]);
      hide Inv;
      RunKeepsInv(shape, Apply(shape, s, steps[0]), steps[1..]);
    }
  }

  /** However the statements of concurrent completions interleave, every committed counter is the number of parents
    * not committed as completed, and a completed workflow has only completed tasks. */
  lemma NoLostDecrement(shape: Shape, steps: seq<Statement>, id: Uuid)
    requires ShapeOk(shape) && Run(shape, Initial(shape), steps) && id in shape.tasks
    ensures var s := After(shape, Initial(shape), steps);
            && id in s.counters && s.counters[id] == CountOutside(shape.parents[id], s.done)
            && (s.completed ==> s.done == shape.tasks)
  {
    InitialInv(shape);
    hide Run, After, Initial;
    RunKeepsInv(shape, Initial(shape), steps);
    assert CounterOk(shape, After(shape, Initial(shape), steps), id);
  }

  /******* When the workflow is completed *******/

  /** Some completion check of the run was made when every other task was already committed. */
  ghost predicate SawAll(shape: Shape, s: Tables, steps: seq<Statement>)
    requires Run(shape, s, steps)
    decreases steps
  {
    steps != [] && (
      || (steps[0].CheckWorkflow? && OthersDone(shape, s, steps[0].id))
      || SawAll(shape, Apply(shape, s, steps[0]), steps[1..]))
  }

  /** One task is left, and its transaction, if it has checked already, has seen that. */
  ghost predicate LastInSight(shape: Shape, s: Tables, id: Uuid) {
    && OthersDone(shape, s, id) && id !in s.done && id in shape.tasks
    && (id in s.open && s.open[id].check.Some? ==> s.open[id].check == Some(true))
  }

  ghost predicate WillComplete(shape: Shape, s: Tables) {
    s.completed || exists id :: LastInSight(shape, s, id)
  }

  lemma SightStays(shape: Shape, s: Tables, step: Statement)
    requires Inv(shape, s) && Enabled(shape, s, step) && WillComplete(shape, s)
    ensures WillComplete(shape, Apply(shape, s, step))
  {
    if !s.completed {
      var id :| LastInSight(shape, s, id);
      var after := Apply(shape, s, step);
      assert forall other | other in s.open :: other in s.running;
      assert forall other | other in s.open :: other == id;
      assert after.completed || LastInSight(shape, after, id);
    }
  }

  lemma CheckGivesSight(shape: Shape, s: Tables, id: Uuid)
    requires Inv(shape, s) && Enabled(shape, s, CheckWorkflow(id)) && OthersDone(shape, s, id)
    ensures WillComplete(shape, Apply(shape, s, CheckWorkflow(id)))
  {
    if !s.completed {
      assert LastInSight(shape, Apply(shape, s, CheckWorkflow(id)), id);
    }
  }

  lemma {:induction false} SeenIsCompleted(shape: Shape, s: Tables, steps: seq<Statement>)
    requires Inv(shape, s) && Run(shape, s, steps)
    requires WillComplete(shape, s) || SawAll(shape, s, steps)
    ensures WillComplete(shape, After(shape, s, steps))
    decreases steps
  {
    hide Inv, WillComplete, OthersDone;
    if steps != [] {
      var step := steps[0];
      StepKeepsInv(shape, s, step);
      if WillComplete(shape, s) {
        SightStays(shape, s, step);
      } else if step.CheckWorkflow? && OthersDone(shape, s, step.id) {
        CheckGivesSight(shape, s, step.id);
      }
      SeenIsCompleted(shape, Apply(shape, s, step), steps[1..]);
    }
  }

  /** A transaction that has seen everything done and will complete the workflow when it commits. */
  ghost predicate Finisher(s: Tables) {
    exists id :: id in s.open && s.open[id].check == Some(true)
  }

  lemma {:induction false} CompletedWasSeen(shape: Shape, s: Tables, steps: seq<Statement>)
    requires Run(shape, s, steps) && After(shape, s, steps).completed
    ensures s.completed || Finisher(s) || SawAll(shape, s, steps)
    decreases steps
  {
    hide OthersDone;
    if steps != [] {
      CompletedWasSeen(shape, Apply(shape, s, steps[0]), steps[1..]);
      if Apply(shape, s, steps[0]).completed || Finisher(Apply(shape, s, steps[0])) {
        FinisherOrigin(shape, s, steps[0]);
      }
    }
  }

  lemma FinisherOrigin(shape: Shape, s: Tables, step: Statement)
    requires Enabled(shape, s, step)
    requires Apply(shape, s, step).completed || Finisher(Apply(shape, s, step))
    ensures s.completed || Finisher(s) || (step.CheckWorkflow? && OthersDone(shape, s, step.id))
  {
    hide OthersDone;
    var after := Apply(shape, s, step);
    if !s.completed && !after.completed {
      var id :| id in after.open && after.open[id].check == Some(true);
      assert id in s.open || step == MarkCompleted(id);
    }
  }

  /** Once all tasks are committed as completed, the workflow is completed exactly when some transaction made its
    * check after every other task had been committed. */
  lemma CompletedIffSeen(shape: Shape, steps: seq<Statement>)
    requires ShapeOk(shape) && Run(shape, Initial(shape), steps)
    requires After(shape, Initial(shape), steps).done == shape.tasks
    ensures After(shape, Initial(shape), steps).completed <==> SawAll(shape, Initial(shape), steps)
  {
    InitialInv(shape);
    assert !Initial(shape).completed && !Finisher(Initial(shape));
    hide Inv, Run, After, SawAll, Initial, ShapeOk;
    if After(shape, Initial(shape), steps).completed {
      CompletedWasSeen(shape, Initial(shape), steps);
    }
    if SawAll(shape, Initial(shape), steps) {
      SeenIsCompleted(shape, Initial(shape), steps);
    }
  }

  /** A workflow that was not completed with its last task never will be: no statement is left that could run. */
  lemma MissedForGood(shape: Shape, s: Tables, step: Statement)
    requires Inv(shape, s) && s.done == shape.tasks
    ensures !Enabled(shape, s, step)
  {
    assert forall id | id in s.open :: id in s.running;
    assert forall id | id in s.running :: id in shape.tasks;
  }

  /******* What goes wrong, and when it cannot *******/

  const LEFT: Uuid := 1

  const RIGHT: Uuid := 2

  /** Two tasks without parents or children. */
  ghost function Siblings(): Shape {
    Shape({LEFT, RIGHT}, map[LEFT := [], RIGHT := []], map[LEFT := [], RIGHT := []])
  }

  /** Both mark their task, both check before either has committed, both commit. */
  ghost function Skewed(): seq<Statement> {
    [BeginTask(LEFT), BeginTask(RIGHT)] + [MarkCompleted(LEFT), MarkCompleted(RIGHT)]
    + [CheckWorkflow(LEFT), CheckWorkflow(RIGHT)] + [CommitTransaction(LEFT), CommitTransaction(RIGHT)]
  }

  lemma TwoSteps(shape: Shape, s: Tables, a: Statement, b: Statement, rest: seq<Statement>)
    requires Enabled(shape, s, a) && Enabled(shape, Apply(shape, s, a), b)
    requires Run(shape, Apply(shape, Apply(shape, s, a), b), rest)
    ensures Run(shape, s, [a, b] + rest)
    ensures After(shape, s, [a, b] + rest) == After(shape, Apply(shape, Apply(shape, s, a), b), rest)
  {
    hide Enabled, Apply;
    assert ([a, b] + rest)[1..] == [b] + rest && ([b] + rest)[1..] == rest;
    assert Run(shape, Apply(shape, s, a), [b] + rest);
  }

  /** The last two tasks of a workflow, completed at the same time, leave it running with every task completed. */
  lemma ConcurrentCompletionsMiss()
    ensures ShapeOk(Siblings()) && Run(Siblings(), Initial(Siblings()), Skewed())
    ensures var s := After(Siblings(), Initial(Siblings()), Skewed());
            s.done == Siblings().tasks && s.open == map[] && !s.completed
  {
    var shape := Siblings();
    var start := Tables({}, {}, map[LEFT := 0, RIGHT := 0], false, map[]);
    SiblingsOk();
    hide ShapeOk, Initial, Siblings, Run, After, Enabled, Apply;
    SkewedRun(shape, start);
  }

  lemma SiblingsOk()
    ensures ShapeOk(Siblings())
    ensures Initial(Siblings()) == Tables({}, {}, map[LEFT := 0, RIGHT := 0], false, map[])
    ensures Siblings().tasks == {LEFT, RIGHT}
  {
  }

  lemma SkewedRun(shape: Shape, start: Tables)
    requires shape == Siblings() && start == Tables({}, {}, map[LEFT := 0, RIGHT := 0], false, map[])
    ensures Run(shape, start, Skewed())
    ensures After(shape, start, Skewed()) == start.(done := {LEFT, RIGHT})
  {
    var begun := start.(running := {LEFT, RIGHT});
    var marked := begun.(open := map[LEFT := Transaction(map[], 0, None), RIGHT := Transaction(map[], 0, None)]);
    var seen := begun.(open := map[LEFT := Transaction(map[], 0, Some(false)), RIGHT := Transaction(map[], 0, Some(false))]);
    var over := start.(done := {LEFT, RIGHT});
    BothCommit(shape, seen, over);
    BothCheck(shape, marked, seen);
    BothStart(shape, start, begun, marked);
    assert Run(shape, over, []) && After(shape, over, []) == over;
    hide Siblings, Enabled, Apply, Run, After;
    var marks := [MarkCompleted(LEFT), MarkCompleted(RIGHT)];
    var checks := [CheckWorkflow(LEFT), CheckWorkflow(RIGHT)];
    var commits := [CommitTransaction(LEFT), CommitTransaction(RIGHT)];
    TwoSteps(shape, seen, commits[0], commits[1], []);
    assert commits + [] == commits;
    TwoSteps(shape, marked, checks[0], checks[1], commits);
    TwoSteps(shape, begun, marks[0], marks[1], checks + commits);
    TwoSteps(shape, start, BeginTask(LEFT), BeginTask(RIGHT), marks + (checks + commits));
    assert Skewed() == [BeginTask(LEFT), BeginTask(RIGHT)] + (marks + (checks + commits));
  }

  lemma BothStart(shape: Shape, s: Tables, begun: Tables, marked: Tables)
    requires shape == Siblings() && s == Tables({}, {}, map[LEFT := 0, RIGHT := 0], false, map[])
    requires begun == s.(running := {LEFT, RIGHT})
    requires marked == begun.(open := map[LEFT := Transaction(map[], 0, None), RIGHT := Transaction(map[], 0, None)])
    ensures Enabled(shape, s, BeginTask(LEFT)) && Enabled(shape, Apply(shape, s, BeginTask(LEFT)), BeginTask(RIGHT))
    ensures Apply(shape, Apply(shape, s, BeginTask(LEFT)), BeginTask(RIGHT)) == begun
    ensures Enabled(shape, begun, MarkCompleted(LEFT))
    ensures Enabled(shape, Apply(shape, begun, MarkCompleted(LEFT)), MarkCompleted(RIGHT))
    ensures Apply(shape, Apply(shape, begun, MarkCompleted(LEFT)), MarkCompleted(RIGHT)) == marked
  {
  }

  lemma BothCheck(shape: Shape, marked: Tables, seen: Tables)
    requires shape == Siblings() && marked.done == {} && !marked.completed
    requires marked.open == map[LEFT := Transaction(map[], 0, None), RIGHT := Transaction(map[], 0, None)]
    requires seen == marked.(open :=
               map[LEFT := Transaction(map[], 0, Some(false)), RIGHT := Transaction(map[], 0, Some(false))])
    ensures Enabled(shape, marked, CheckWorkflow(LEFT))
    ensures Enabled(shape, Apply(shape, marked, CheckWorkflow(LEFT)), CheckWorkflow(RIGHT))
    ensures Apply(shape, Apply(shape, marked, CheckWorkflow(LEFT)), CheckWorkflow(RIGHT)) == seen
  {
    var once := Apply(shape, marked, CheckWorkflow(LEFT));
    assert !OthersDone(shape, marked, LEFT) && !OthersDone(shape, once, RIGHT);
  }

  lemma BothCommit(shape: Shape, seen: Tables, over: Tables)
    requires shape == Siblings() && seen.running == {LEFT, RIGHT} && seen.done == {} && !seen.completed
    requires seen.open == map[LEFT := Transaction(map[], 0, Some(false)), RIGHT := Transaction(map[], 0, Some(false))]
    requires over == Tables({}, {LEFT, RIGHT}, seen.counters, false, map[])
    ensures Enabled(shape, seen, CommitTransaction(LEFT))
    ensures Enabled(shape, Apply(shape, seen, CommitTransaction(LEFT)), CommitTransaction(RIGHT))
    ensures Apply(shape, Apply(shape, seen, CommitTransaction(LEFT)), CommitTransaction(RIGHT)) == over
  {
    var once := Apply(shape, seen, CommitTransaction(LEFT));
    assert once.open == map[RIGHT := Transaction(map[], 0, Some(false))];
  }

  /** At most one transaction is open at any time. */
  ghost predicate Serial(shape: Shape, s: Tables, steps: seq<Statement>)
    requires Run(shape, s, steps)
    decreases steps
  {
    steps != [] ==>
      && (steps[0].MarkCompleted? ==> s.open == map[])
      && Serial(shape, Apply(shape, s, steps[0]), steps[1..])
  }

  ghost predicate SerialOk(shape: Shape, s: Tables) {
    && (forall a, b | a in s.open && b in s.open :: a == b)
    && (forall id | id in s.open && s.open[id].check.Some? :: s.open[id].check.value == OthersDone(shape, s, id))
    && (s.done == shape.tasks ==> s.completed)
  }

  lemma SerialStep(shape: Shape, s: Tables, step: Statement)
    requires Inv(shape, s) && SerialOk(shape, s) && Enabled(shape, s, step)
    requires step.MarkCompleted? ==> s.open == map[]
    ensures SerialOk(shape, Apply(shape, s, step))
  {
    assert forall id | id in s.open :: id in s.running;
    hide ShapeOk, AllWritesOk, LocksDisjoint;
  }

  lemma {:induction false} SerialRun(shape: Shape, s: Tables, steps: seq<Statement>)
    requires Inv(shape, s) && SerialOk(shape, s) && Run(shape, s, steps) && Serial(shape, s, steps)
    ensures SerialOk(shape, After(shape, s, steps))
    decreases steps
  {
    hide Inv, SerialOk;
    if steps != [] {
      StepKeepsInv(shape, s, steps[0]);
      SerialStep(shape, s, steps[0]);
      SerialRun(shape, Apply(shape, s, steps[0]), steps[1..]);
    }
  }

  /** With one transaction at a time, the workflow is completed exactly when all its tasks are. */
  lemma SerialCompletes(shape: Shape, steps: seq<Statement>)
    requires ShapeOk(shape) && Run(shape, Initial(shape), steps) && Serial(shape, Initial(shape), steps)
    ensures var s := After(shape, Initial(shape), steps); s.completed <==> s.done == shape.tasks
  {
    InitialInv(shape);
    assert SerialOk(shape, Initial(shape));
    hide Run, After, Serial, Initial, ShapeOk;
    SerialRun(shape, Initial(shape), steps);
    RunKeepsInv(shape, Initial(shape), steps);
  }
}
