/** The lease queue as a table and its operations as functions of that table, and what holds over any run of them. */
module QueueModel {
  import opened Domain
  import opened Settings

  datatype QueueEntry = QueueEntry(
    claimToken: Option<Uuid>,
    claimedBy: Option<Uuid>,
    queuedAt: Time,
    claimedAt: Option<Time>,
    lastHeartbeat: Option<Time>)

  type Entries = map<Uuid, QueueEntry>

  /******* The operations *******/

  function Unclaimed(queuedAt: Time): QueueEntry {
    QueueEntry(None, None, queuedAt, None, None)
  }

  /** Inserts the ids that are not queued yet; a conflicting id is left as it is. */
  ghost function Inserted(entries: Entries, ids: seq<Uuid>, now: Time): Entries {
    map id | id in entries.Keys + Elements(ids) :: if id in entries then entries[id] else Unclaimed(now)
  }

  /** Free, or leased to someone who has been silent since `expiration`. */
  predicate Claimable(entry: QueueEntry, expiration: Time) {
    entry.claimedBy.None? || (entry.lastHeartbeat.Some? && entry.lastHeartbeat.value <= expiration)
  }

  /** An available entry queued no later than any other available one. */
  ghost predicate NextInLine(entries: Entries, expiration: Time, id: Uuid) {
    && id in entries
    && Claimable(entries[id], expiration)
    && forall other | other in entries && Claimable(entries[other], expiration) ::
         entries[id].queuedAt <= entries[other].queuedAt
  }

  ghost function ClaimedBy(entries: Entries, id: Uuid, worker: Uuid, token: Uuid, now: Time): Entries
    requires id in entries
  {
    entries[id := QueueEntry(Some(token), Some(worker), entries[id].queuedAt, Some(now), Some(now))]
  }

  predicate Holds(entries: Entries, claim: Claim) {
    claim.taskExecutionId in entries && entries[claim.taskExecutionId].claimToken == Some(claim.claimToken)
  }

  ghost function Renewed(entries: Entries, claim: Claim, now: Time): Entries {
    if Holds(entries, claim) then
      entries[claim.taskExecutionId := entries[claim.taskExecutionId].(lastHeartbeat := Some(now))]
    else entries
  }

  ghost function Released(entries: Entries, claim: Claim): Entries {
    if Holds(entries, claim) then
      entries[claim.taskExecutionId := Unclaimed(entries[claim.taskExecutionId].queuedAt)]
    else entries
  }

  ghost function Finished(entries: Entries, claim: Claim, ids: seq<Uuid>, now: Time): Entries {
    if Holds(entries, claim) then Inserted(entries - {claim.taskExecutionId}, ids, now) else entries
  }

  /******* Runs *******/

  /** The table, the tokens handed out so far, and the clock. */
  datatype Queue = Queue(entries: Entries, issued: set<Uuid>, clock: Time)

  datatype QueueStep =
    | Tick(now: Time)
    | Enqueue(ids: seq<Uuid>)
    | ClaimNext(worker: Uuid, id: Uuid, token: Uuid)
    | Heartbeat(claim: Claim)
    | ReleaseClaim(claim: Claim)
    | FinishClaim(claim: Claim, ids: seq<Uuid>)

  ghost predicate Enabled(lease: Time, q: Queue, step: QueueStep) {
    match step
    case Tick(now) => now >= q.clock
    case ClaimNext(worker, id, token) => NextInLine(q.entries, q.clock - lease, id) && token !in q.issued
    case _ => true
  }

  ghost function Apply(q: Queue, step: QueueStep): Queue {
    match step
    case Tick(now) => q.(clock := now)
    case Enqueue(ids) => q.(entries := Inserted(q.entries, ids, q.clock))
    case ClaimNext(worker, id, token) =>
      if id in q.entries
      then q.(entries := ClaimedBy(q.entries, id, worker, token, q.clock), issued := q.issued + {token})
      else q
    case Heartbeat(claim) => q.(entries := Renewed(q.entries, claim, q.clock))
    case ReleaseClaim(claim) => q.(entries := Released(q.entries, claim))
    case FinishClaim(claim, ids) => q.(entries := Finished(q.entries, claim, ids, q.clock))
  }

  ghost predicate Run(lease: Time, q: Queue, steps: seq<QueueStep>)
    decreases steps
  {
    steps == [] || (Enabled(lease, q, steps[0]) && Run(lease, Apply(q, steps[0]), steps[1..]))
  }

  ghost function After(q: Queue, steps: seq<QueueStep>): Queue
    decreases steps
  {
    if steps == [] then q else After(Apply(q, steps[0]), steps[1..])
  }

  /******* What each session does, entry by entry *******/

  /** Free for anyone, queued at `at`. */
  predicate FreeSince(entry: QueueEntry, at: Time) {
    && entry.claimToken == None && entry.claimedBy == None && entry.claimedAt == None && entry.lastHeartbeat == None
    && entry.queuedAt == at
  }

  /** Enqueueing makes every given id an entry; the new ones are free and queued now, the old ones stay as they are. */
  lemma EnqueueIsExact(q: Queue, ids: seq<Uuid>)
    ensures var after := Apply(q, Enqueue(ids));
            && after.issued == q.issued && after.clock == q.clock
            && (forall id :: id in after.entries <==> id in q.entries || id in ids)
            && (forall id | id in q.entries :: after.entries[id] == q.entries[id])
            && (forall id | id in ids && id !in q.entries :: FreeSince(after.entries[id], q.clock))
  {
  }

  /** Finishing with a valid claim removes its entry and makes every given id one; the new ones are free and queued
    * now, all others stay as they are. */
  lemma FinishIsExact(q: Queue, claim: Claim, ids: seq<Uuid>)
    requires Holds(q.entries, claim)
    ensures var after, done := Apply(q, FinishClaim(claim, ids)), claim.taskExecutionId;
            && after.issued == q.issued && after.clock == q.clock
            && (forall id :: id in after.entries <==> (id in q.entries && id != done) || id in ids)
            && (forall id | id in q.entries && id != done :: after.entries[id] == q.entries[id])
            && (forall id | id in ids && (id !in q.entries || id == done) :: FreeSince(after.entries[id], q.clock))
  {
  }

  /** Claiming fills the lease of one entry, from now on and for this worker, and issues its token. */
  lemma ClaimIsExact(q: Queue, worker: Uuid, id: Uuid, token: Uuid)
    requires id in q.entries
    ensures var after := Apply(q, ClaimNext(worker, id, token));
            && after.issued == q.issued + {token} && after.clock == q.clock
            && after.entries.Keys == q.entries.Keys
            && after.entries[id].claimedBy == Some(worker) && after.entries[id].claimToken == Some(token)
            && after.entries[id].claimedAt == Some(q.clock) && after.entries[id].lastHeartbeat == Some(q.clock)
            && after.entries[id].queuedAt == q.entries[id].queuedAt
            && forall x | x in q.entries && x != id :: after.entries[x] == q.entries[x]
  {
  }

  /** A heartbeat with a valid claim notes the time, a release with one frees the entry in its place; neither does
    * anything else, and with any other claim they do nothing at all, as does finishing. */
  lemma LeaseSessionsAreExact(q: Queue, claim: Claim, ids: seq<Uuid>)
    ensures var id, renewed, released := claim.taskExecutionId,
              Apply(q, Heartbeat(claim)), Apply(q, ReleaseClaim(claim));
            if Holds(q.entries, claim) then
              && renewed == q.(entries := q.entries[id := q.entries[id].(lastHeartbeat := Some(q.clock))])
              && released.entries.Keys == q.entries.Keys && released.issued == q.issued && released.clock == q.clock
              && FreeSince(released.entries[id], q.entries[id].queuedAt)
              && forall x | x in q.entries && x != id :: released.entries[x] == q.entries[x]
            else
              renewed == q && released == q && Apply(q, FinishClaim(claim, ids)) == q
  {
  }

  /** A leased entry can be claimed exactly from one lease after its last heartbeat on. */
  lemma LeaseEndsExactly(lease: Time, q: Queue, claim: Claim, lastBeat: Time)
    requires BeatsAt(q, claim, lastBeat)
    ensures Claimable(q.entries[claim.taskExecutionId], q.clock - lease) <==> q.clock >= lastBeat + lease
  {
  }

  /** The step makes `id` an entry. */
  ghost predicate Queues(q: Queue, step: QueueStep, id: Uuid) {
    id !in q.entries && id in Apply(q, step).entries
  }

  /** Whatever session makes an id an entry, the entry is free and queued at the time of that session. */
  lemma NewEntriesAreStamped(q: Queue, step: QueueStep, id: Uuid)
    requires Queues(q, step, id)
    ensures FreeSince(Apply(q, step).entries[id], q.clock) && Apply(q, step).clock == q.clock
  {
  }

  /******* Stale claims stay dead *******/

  /** Lease columns are filled and cleared together, and never hold a token that was not issued. */
  ghost predicate Coherent(q: Queue, entry: QueueEntry) {
    && (entry.claimToken.Some? <==> entry.claimedBy.Some?)
    && (entry.claimToken.Some? <==> entry.lastHeartbeat.Some?)
    && (entry.claimToken.Some? ==> entry.claimToken.value in q.issued)
    && (entry.lastHeartbeat.Some? ==> entry.lastHeartbeat.value <= q.clock)
    && entry.queuedAt <= q.clock
  }

  /** No two entries share a token. */
  ghost predicate TokensDistinct(entries: Entries) {
    forall a, b | a in entries && b in entries && a != b ::
      entries[a].claimToken.None? || entries[a].claimToken != entries[b].claimToken
  }

  ghost predicate QueueOk(q: Queue) {
    (forall id | id in q.entries :: Coherent(q, q.entries[id])) && TokensDistinct(q.entries)
  }

  lemma StepKeepsQueueOk(lease: Time, q: Queue, step: QueueStep)
    requires QueueOk(q) && Enabled(lease, q, step)
    ensures QueueOk(Apply(q, step))
  {
    var after := Apply(q, step);
    forall id | id in after.entries
      ensures Coherent(after, after.entries[id])
    {
      if id in q.entries {
        assert Coherent(q, q.entries[id]);
      }
    }
    TokensStayDistinct(lease, q, step);
  }

  lemma TokensStayDistinct(lease: Time, q: Queue, step: QueueStep)
    requires QueueOk(q) && Enabled(lease, q, step)
    ensures TokensDistinct(Apply(q, step).entries)
  {
    var after := Apply(q, step).entries;
    forall a, b | a in after && b in after && a != b
      ensures after[a].claimToken.None? || after[a].claimToken != after[b].claimToken
    {
      if a in q.entries && b in q.entries {
        assert Coherent(q, q.entries[a]) && Coherent(q, q.entries[b]);
      }
    }
  }

  /** A claim that was issued and no longer matches its entry. */
  ghost predicate Dead(q: Queue, claim: Claim) {
    claim.claimToken in q.issued && !Holds(q.entries, claim)
  }

  /** Reclaiming, releasing and finishing each kill the claim they supersede. */
  lemma SupersededIsDead(lease: Time, q: Queue, step: QueueStep, claim: Claim)
    requires QueueOk(q) && Enabled(lease, q, step) && Holds(q.entries, claim)
    requires (step.ClaimNext? && step.id == claim.taskExecutionId)
          || (step.ReleaseClaim? && step.claim == claim)
          || (step.FinishClaim? && step.claim == claim)
    ensures Dead(Apply(q, step), claim)
  {
    assert Coherent(q, q.entries[claim.taskExecutionId]);
  }

  lemma DeadStaysDead(lease: Time, q: Queue, step: QueueStep, claim: Claim)
    requires Enabled(lease, q, step) && Dead(q, claim)
    ensures Dead(Apply(q, step), claim)
  {
  }

  /** Over any later run, a dead claim renews, releases and finishes nothing. */
  lemma {:induction false} StaleClaimsStayDead(lease: Time, q: Queue, steps: seq<QueueStep>, claim: Claim)
    requires Run(lease, q, steps) && Dead(q, claim)
    ensures var later := After(q, steps);
            && Dead(later, claim)
            && (forall now :: Renewed(later.entries, claim, now) == later.entries)
            && Released(later.entries, claim) == later.entries
            && (forall ids, now :: Finished(later.entries, claim, ids, now) == later.entries)
    decreases steps
  {
    if steps != [] {
      DeadStaysDead(lease, q, steps[0], claim);
      StaleClaimsStayDead(lease, Apply(q, steps[0]), steps[1..], claim);
    }
  }

  /** A token opens one entry at most, and an entry answers to one token at most. */
  lemma OneValidClaim(q: Queue, a: Claim, b: Claim)
    requires QueueOk(q) && Holds(q.entries, a) && Holds(q.entries, b)
    ensures a.claimToken == b.claimToken <==> a.taskExecutionId == b.taskExecutionId
  {
  }

  lemma {:induction false} RunKeepsQueueOk(lease: Time, q: Queue, steps: seq<QueueStep>)
    requires Run(lease, q, steps) && QueueOk(q)
    ensures QueueOk(After(q, steps)) && After(q, steps).clock >= q.clock && After(q, steps).issued >= q.issued
    decreases steps
  {
    if steps != [] {
      StepKeepsQueueOk(lease, q, steps[0]);
      RunKeepsQueueOk(lease, Apply(q, steps[0]), steps[1..]);
    }
  }

  /******* First in, first out *******/

  /** The step neither claims `id`, nor renews its lease, nor removes it. */
  ghost predicate LeavesAlone(q: Queue, step: QueueStep, id: Uuid) {
    match step
    case ClaimNext(worker, claimed, token) => claimed != id
    case Heartbeat(claim) => claim.taskExecutionId == id ==> !Holds(q.entries, claim)
    case FinishClaim(claim, ids) => claim.taskExecutionId == id ==> !Holds(q.entries, claim)
    case _ => true
  }

  ghost predicate AllLeaveAlone(q: Queue, steps: seq<QueueStep>, id: Uuid)
    decreases steps
  {
    steps == [] || (LeavesAlone(q, steps[0], id) && AllLeaveAlone(Apply(q, steps[0]), steps[1..], id))
  }

  /** Every claim of the run takes an entry queued at `bound` or before. */
  ghost predicate ClaimsUpTo(q: Queue, steps: seq<QueueStep>, bound: Time)
    decreases steps
  {
    steps == [] || (
      && (steps[0].ClaimNext? ==> steps[0].id in q.entries && q.entries[steps[0].id].queuedAt <= bound)
      && ClaimsUpTo(Apply(q, steps[0]), steps[1..], bound))
  }

  /** An entry that is available keeps its place: it stays available, and nothing queued after it is claimed first. */
  lemma {:induction false} NoOvertaking(lease: Time, q: Queue, steps: seq<QueueStep>, id: Uuid)
    requires Run(lease, q, steps) && AllLeaveAlone(q, steps, id)
    requires id in q.entries && Claimable(q.entries[id], q.clock - lease)
    ensures var later := After(q, steps);
            && id in later.entries
            && later.entries[id].queuedAt == q.entries[id].queuedAt
            && Claimable(later.entries[id], later.clock - lease)
    ensures ClaimsUpTo(q, steps, q.entries[id].queuedAt)
    decreases steps
  {
    if steps != [] {
      NoOvertaking(lease, Apply(q, steps[0]), steps[1..], id);
    }
  }

  /** No step claims `id`. */
  ghost predicate NeverClaims(steps: seq<QueueStep>, id: Uuid) {
    forall step | step in steps :: !(step.ClaimNext? && step.id == id)
  }

  lemma {:induction false} YoungerWaits(lease: Time, q: Queue, steps: seq<QueueStep>, id: Uuid, younger: Uuid)
    requires Run(lease, q, steps) && AllLeaveAlone(q, steps, id)
    requires id in q.entries && Claimable(q.entries[id], q.clock - lease)
    requires younger in q.entries && q.entries[younger].claimToken.None?
    requires q.entries[id].queuedAt < q.entries[younger].queuedAt
    ensures NeverClaims(steps, younger)
    decreases steps
  {
    if steps != [] {
      assert !(steps[0].ClaimNext? && steps[0].id == younger);
      YoungerWaits(lease, Apply(q, steps[0]), steps[1..], id, younger);
      assert steps == [steps[0]] + steps[1..];
    }
  }

  /** Between two arrivals the clock of the queue only moves on, and a free entry left alone keeps its place. */
  lemma {:induction false} WaitsInPlace(lease: Time, q: Queue, steps: seq<QueueStep>, id: Uuid)
    requires Run(lease, q, steps) && AllLeaveAlone(q, steps, id)
    requires id in q.entries && q.entries[id].claimToken.None? && q.entries[id].claimedBy.None?
    ensures var later := After(q, steps);
            && later.clock >= q.clock
            && id in later.entries && later.entries[id].queuedAt == q.entries[id].queuedAt
            && later.entries[id].claimToken.None? && later.entries[id].claimedBy.None?
    decreases steps
  {
    if steps != [] {
      WaitsInPlace(lease, Apply(q, steps[0]), steps[1..], id);
    }
  }

  /** First come, first served: as long as an arrival is left alone, nothing that arrives at a later time is claimed,
    * whichever sessions brought the two. */
  lemma LaterArrivalsWait(
    lease: Time, q: Queue, arrival: QueueStep, between: seq<QueueStep>, later: QueueStep, rest: seq<QueueStep>,
    id: Uuid, younger: Uuid)
    requires Queues(q, arrival, id)
    requires Run(lease, Apply(q, arrival), between) && AllLeaveAlone(Apply(q, arrival), between, id)
    requires var second := After(Apply(q, arrival), between);
             && second.clock > q.clock && Queues(second, later, younger) && LeavesAlone(second, later, id)
             && Run(lease, Apply(second, later), rest) && AllLeaveAlone(Apply(second, later), rest, id)
    ensures NeverClaims(rest, younger)
  {
    var first := Apply(q, arrival);
    var second := After(first, between);
    NewEntriesAreStamped(q, arrival, id);
    WaitsInPlace(lease, first, between, id);
    NewEntriesAreStamped(second, later, younger);
    var third := Apply(second, later);
    KeepsFree(second, later, id);
    hide Queues, Apply, After, AllLeaveAlone, LeavesAlone, Run;
    YoungerWaits(lease, third, rest, id, younger);
  }

  lemma KeepsFree(q: Queue, step: QueueStep, id: Uuid)
    requires LeavesAlone(q, step, id) && id in q.entries
    requires q.entries[id].claimToken.None? && q.entries[id].claimedBy.None?
    ensures id in Apply(q, step).entries && Apply(q, step).entries[id].queuedAt == q.entries[id].queuedAt
    ensures Apply(q, step).entries[id].claimToken.None? && Apply(q, step).entries[id].claimedBy.None?
  {
  }

  /** No step but its own removal changes when an entry was queued; enqueueing it again changes nothing about it. */
  lemma PositionIsKept(lease: Time, q: Queue, step: QueueStep, id: Uuid)
    requires Enabled(lease, q, step) && id in q.entries
    requires !(step.FinishClaim? && step.claim.taskExecutionId == id && Holds(q.entries, step.claim))
    ensures id in Apply(q, step).entries && Apply(q, step).entries[id].queuedAt == q.entries[id].queuedAt
    ensures step.Enqueue? || (step.FinishClaim? && step.claim.taskExecutionId != id) ==>
              Apply(q, step).entries[id] == q.entries[id]
  {
  }

  /******* The lease outlives punctual heartbeats *******/

  /** The worker holding `claim` is still processing, and each heartbeat comes less than two intervals after
    * the moment it was scheduled for, one interval after the previous one. */
  ghost predicate Punctual(interval: Time, q: Queue, steps: seq<QueueStep>, claim: Claim, lastBeat: Time)
    decreases steps
  {
    steps == [] || (
      var step, rest := steps[0], steps[1..];
      match step
      case Tick(now) =>
        now < (lastBeat + interval) + 2.0 * interval && Punctual(interval, Apply(q, step), rest, claim, lastBeat)
      case Heartbeat(c) =>
        Punctual(interval, Apply(q, step), rest, claim, if c == claim then q.clock else lastBeat)
      case ReleaseClaim(c) => c != claim && Punctual(interval, Apply(q, step), rest, claim, lastBeat)
      case FinishClaim(c, ids) => c != claim && Punctual(interval, Apply(q, step), rest, claim, lastBeat)
      case _ => Punctual(interval, Apply(q, step), rest, claim, lastBeat))
  }

  ghost predicate BeatsAt(q: Queue, claim: Claim, lastBeat: Time) {
    && Holds(q.entries, claim)
    && q.entries[claim.taskExecutionId].claimedBy.Some?
    && q.entries[claim.taskExecutionId].lastHeartbeat == Some(lastBeat)
  }

  /** With accepted timing, a worker whose heartbeats are punctual is never reclaimed while it is processing. */
  lemma {:induction false} PunctualKeepsLease(
    timing: Timing, q: Queue, steps: seq<QueueStep>, claim: Claim, lastBeat: Time)
    requires ValidTiming(timing)
    requires Run(timing.queueLeaseTimeout, q, steps)
    requires BeatsAt(q, claim, lastBeat)
    requires q.clock < lastBeat + 3.0 * timing.workerHeartbeatInterval
    requires Punctual(timing.workerHeartbeatInterval, q, steps, claim, lastBeat)
    ensures Holds(After(q, steps).entries, claim)
    decreases steps
  {
    if steps != [] {
      var step, next := steps[0], Apply(q, steps[0]);
      var beat := if step.Heartbeat? && step.claim == claim then q.clock else lastBeat;
      assert BeatsAt(next, claim, beat);
      PunctualKeepsLease(timing, next, steps[1..], claim, beat);
    }
  }

  /** The bound is tight: silent for as long as the lease lasts, a worker can be reclaimed. */
  lemma SilenceLosesLease(lease: Time, q: Queue, claim: Claim, lastBeat: Time, worker: Uuid, token: Uuid)
    requires BeatsAt(q, claim, lastBeat) && q.clock >= lastBeat + lease && token !in q.issued
    requires forall other | other in q.entries && Claimable(q.entries[other], q.clock - lease) ::
               q.entries[claim.taskExecutionId].queuedAt <= q.entries[other].queuedAt
    requires claim.claimToken in q.issued
    ensures Enabled(lease, q, ClaimNext(worker, claim.taskExecutionId, token))
    ensures Dead(Apply(q, ClaimNext(worker, claim.taskExecutionId, token)), claim)
  {
  }
}
