/** The PostgreSQL lease queue. Each method is one session, one committed transaction. */
module ExecutionQueue {
  import opened Domain
  import opened QueueModel

  class PostgresExecutionQueue {
    var entries: Entries
    const leaseTimeout: Time

    constructor (leaseTimeout: Time)
      ensures entries == map[] && this.leaseTimeout == leaseTimeout
    {
      entries := map[];
      this.leaseTimeout := leaseTimeout;
    }

    method Enqueue(ids: seq<Uuid>, now: Time)
      modifies this`entries
      ensures entries == Inserted(old(entries), ids, now)
    {
      InsertQueueEntries(ids, now);
    }

    method InsertQueueEntries(ids: seq<Uuid>, queuedAt: Time)
      modifies this`entries
      ensures entries == Inserted(old(entries), ids, queuedAt)
    {
      for i := 0 to |ids|
        invariant entries == Inserted(old(entries), ids[..i], queuedAt)
      {
        assert ids[..i + 1] == ids[..i] + [ids[i]];
        if ids[i] !in entries {
          entries := entries[ids[i] := Unclaimed(queuedAt)];
        }
      }
      assert ids[..|ids|] == ids;
    }

    /** The oldest available entry, if there is one. */
    method SelectNext(expiration: Time) returns (next: Option<Uuid>)
      ensures next.Some? ==> NextInLine(entries, expiration, next.value)
      ensures next.None? ==> forall id | id in entries :: !Claimable(entries[id], expiration)
    {
      next := None;
      var left := entries.Keys;
      while left != {}
        invariant left <= entries.Keys
        invariant next.Some? ==> next.value in entries && Claimable(entries[next.value], expiration)
        invariant forall id | id in entries && id !in left && Claimable(entries[id], expiration) ::
            next.Some? && entries[next.value].queuedAt <= entries[id].queuedAt
        decreases left
      {
        var id :| id in left;
        left := left - {id};
        if Claimable(entries[id], expiration) && (next.None? || entries[id].queuedAt < entries[next.value].queuedAt) {
          next := Some(id);
        }
      }
    }

    method Claim(worker: Uuid, now: Time, uuids: UuidSource) returns (claim: Option<Claim>)
      requires uuids.Valid()
      modifies this`entries, uuids
      ensures uuids.Valid() && old(uuids.issued) <= uuids.issued
      ensures claim.None? ==> entries == old(entries)
      ensures claim.None? <==> forall id | id in old(entries) :: !Claimable(old(entries)[id], now - leaseTimeout)
      ensures claim.Some? ==>
                && NextInLine(old(entries), now - leaseTimeout, claim.value.taskExecutionId)
                && claim.value.claimToken !in old(uuids.issued) && claim.value.claimToken in uuids.issued
                && entries == ClaimedBy(old(entries), claim.value.taskExecutionId, worker, claim.value.claimToken, now)
    {
      var next := SelectNext(now - leaseTimeout);
      if next.None? {
        return None;
      }
      var id, entry := next.value, entries[next.value];
      var token := uuids.Uuid4();
      entries := entries[id := entry.(
        claimedBy := Some(worker), claimToken := Some(token), claimedAt := Some(now), lastHeartbeat := Some(now))];
      return Some(Domain.Claim(id, token));
    }

    method Heartbeat(claim: Claim, now: Time) returns (owned: bool)
      modifies this`entries
      ensures entries == Renewed(old(entries), claim, now)
      ensures owned <==> Holds(old(entries), claim)
    {
      owned := Holds(entries, claim);
      if owned {
        entries := entries[claim.taskExecutionId := entries[claim.taskExecutionId].(lastHeartbeat := Some(now))];
      }
    }

    method Release(claim: Claim)
      modifies this`entries
      ensures entries == Released(old(entries), claim)
    {
      if Holds(entries, claim) {
        entries := entries[claim.taskExecutionId := entries[claim.taskExecutionId].(
          claimToken := None, claimedBy := None, claimedAt := None, lastHeartbeat := None)];
      }
    }

    method Finish(claim: Claim, ids: seq<Uuid>, now: Time)
      modifies this`entries
      ensures entries == Finished(old(entries), claim, ids, now)
    {
      if Holds(entries, claim) {
        entries := entries - {claim.taskExecutionId};
        InsertQueueEntries(ids, now);
      }
    }
  }
}
