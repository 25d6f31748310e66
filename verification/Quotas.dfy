/** How many occurrences an interval trigger still owes at a fixed moment. */
module Quotas {
  import opened Domain
  import opened Triggers
  import opened TriggerRepository
  import opened Scheduling

  /** floor((now - at) / interval) + 1 for an occurrence that is due, and nothing for one that is not. */
  ghost function Quota(now: Time, at: Time, interval: Time): (n: nat)
    requires interval > 0.0
    ensures n == 0 <==> at > now
  {
    if at > now then 0
    else
      QuotientIsNatural(now - at, interval);
      ((now - at) / interval).Floor + 1
  }

  lemma QuotientIsNatural(span: Time, interval: Time)
    requires span >= 0.0 && interval > 0.0
    ensures (span / interval).Floor >= 0
  {
    var q := span / interval;
    assert q * interval == span;
    Scale(0.0, q, interval);
  }

  lemma Scale(a: real, b: real, interval: Time)
    requires interval > 0.0
    ensures a <= b <==> a * interval <= b * interval
  {
    assert (b - a) * interval == b * interval - a * interval;
    if a <= b {
      assert (b - a) * interval >= 0.0;
    } else {
      assert (a - b) * interval > 0.0;
    }
  }

  /** The quota is the one number of intervals that ends the debt and not before. */
  lemma QuotaIsExact(now: Time, at: Time, interval: Time, n: nat)
    requires interval > 0.0 && at <= now
    ensures n == Quota(now, at, interval) <==> n >= 1 && Nth(at, interval, n - 1) <= now < Nth(at, interval, n)
  {
    var q := (now - at) / interval;
    assert q * interval == now - at;
    QuotientIsNatural(now - at, interval);
    if n >= 1 {
      NthNotAfter(at, interval, now, q, n - 1);
      NthNotAfter(at, interval, now, q, n);
      FloorIs(q, n - 1);
      hide Nth;
    }
  }

  lemma NthNotAfter(at: Time, interval: Time, now: Time, q: real, m: nat)
    requires interval > 0.0 && q * interval == now - at
    ensures m as real <= q <==> Nth(at, interval, m) <= now
  {
    Scale(m as real, q, interval);
  }

  lemma FloorIs(q: real, m: int)
    ensures q.Floor == m <==> m as real <= q < (m + 1) as real
  {
  }

  /** Counting on from a later occurrence. */
  lemma NthOfNth(at: Time, interval: Time, m: nat)
    ensures Nth(at + interval, interval, m) == Nth(at, interval, m + 1)
  {
  }

  /** Serving one due occurrence pays one off. */
  lemma QuotaFalls(now: Time, at: Time, interval: Time)
    requires interval > 0.0 && at <= now
    ensures Quota(now, at + interval, interval) == Quota(now, at, interval) - 1
  {
    var n := Quota(now, at, interval);
    QuotaIsExact(now, at, interval, n);
    NthNext(at, interval, 0);
    hide Quota;
    if n == 1 {
      assert at + interval > now;
    } else {
      NthOfNth(at, interval, n - 1);
      NthOfNth(at, interval, n - 2);
      FirstNotAfter(at, interval, n);
      QuotaIsExact(now, at + interval, interval, n - 1);
    }
  }

  lemma FirstNotAfter(at: Time, interval: Time, n: nat)
    requires interval > 0.0 && n >= 2
    ensures at + interval <= Nth(at, interval, n - 1)
  {
    Scale(1.0, (n - 1) as real, interval);
  }

  /******* The debt of all triggers *******/

  /** Every enabled trigger is an interval trigger with a valid configuration. */
  ghost predicate AllIntervals(triggers: TriggerTable) {
    forall id | id in triggers && triggers[id].enabled ::
      triggers[id].pluginType == INTERVAL && ValidInterval(triggers[id].configuration)
  }

  predicate Ticking(triggers: TriggerTable, id: Uuid) {
    id in triggers && triggers[id].enabled
  }

  ghost function IntervalOf(triggers: TriggerTable, id: Uuid): (interval: Time)
    requires AllIntervals(triggers) && Ticking(triggers, id)
    ensures interval > 0.0
  {
    Interval(triggers[id].configuration)
  }

  ghost function Owed(triggers: TriggerTable, schedule: Schedule, now: Time, id: Uuid): (n: nat)
    requires AllIntervals(triggers)
    ensures n > 0 <==> Due(triggers, schedule, now, id)
  {
    if Ticking(triggers, id) && id in schedule then Quota(now, schedule[id], IntervalOf(triggers, id)) else 0
  }

  ghost function TotalOwed(triggers: TriggerTable, schedule: Schedule, now: Time, ids: seq<Uuid>): nat
    requires AllIntervals(triggers)
  {
    if ids == [] then 0
    else TotalOwed(triggers, schedule, now, ids[..|ids| - 1]) + Owed(triggers, schedule, now, ids[|ids| - 1])
  }

  lemma {:induction false} TotalFalls(triggers: TriggerTable, schedule: Schedule, after: Schedule, now: Time,
                                      ids: seq<Uuid>, id: Uuid)
    requires AllIntervals(triggers) && NoDuplicates(ids)
    requires forall x | x != id :: Owed(triggers, after, now, x) == Owed(triggers, schedule, now, x)
    requires Owed(triggers, after, now, id) == Owed(triggers, schedule, now, id) - 1
    ensures TotalOwed(triggers, after, now, ids) == TotalOwed(triggers, schedule, now, ids) - if id in ids then 1 else 0
  {
    hide Owed;
    if ids != [] {
      var front, last := ids[..|ids| - 1], ids[|ids| - 1];
      assert ids == front + [last];
      assert forall i, j | 0 <= i < j < |front| :: ids[i] == front[i] && ids[j] == front[j];
      assert last !in front;
      TotalFalls(triggers, schedule, after, now, front, id);
    }
  }

  ghost function Enumerated(ids: set<Uuid>): (xs: seq<Uuid>)
    ensures NoDuplicates(xs) && forall x :: x in xs <==> x in ids
  {
    if ids == {} then []
    else
      var x :| x in ids;
      Enumerated(ids - {x}) + [x]
  }

  /******* Draining *******/

  /** Served in order of time, ties in order of trigger id. */
  ghost predicate InOrder(log: seq<Firing>) {
    forall i, j | 0 <= i < j < |log| :: NoLater(log[i].occurrence, log[i].trigger, log[j].occurrence, log[j].trigger)
  }

  /** What firing so far has done to one trigger's schedule: `n` occurrences served, one after the other. */
  ghost predicate Served(triggers: TriggerTable, start: Schedule, schedule: Schedule, now: Time, log: seq<Firing>, id: Uuid)
    requires AllIntervals(triggers) && id in start && id in schedule
  {
    var fired := Fired(log, id);
    if Ticking(triggers, id) then
      var interval := IntervalOf(triggers, id);
      && schedule[id] == Nth(start[id], interval, |fired|)
      && (forall k | 0 <= k < |fired| :: fired[k] == Nth(start[id], interval, k) && fired[k] <= now)
    else
      fired == [] && schedule[id] == start[id]
  }

  ghost predicate Draining(triggers: TriggerTable, start: Schedule, schedule: Schedule, now: Time, log: seq<Firing>)
    requires AllIntervals(triggers)
  {
    && schedule.Keys == start.Keys
    && (forall f | f in log :: f.trigger in start)
    && (forall id | id in start :: Served(triggers, start, schedule, now, log, id))
    && InOrder(log)
    && (forall f, id | f in log && Due(triggers, schedule, now, id) :: NoLater(f.occurrence, f.trigger, schedule[id], id))
  }

  lemma FireServes(triggers: TriggerTable, start: Schedule, schedule: Schedule, now: Time, log: seq<Firing>,
                   id: Uuid, f: Firing)
    requires AllIntervals(triggers) && Draining(triggers, start, schedule, now, log)
    requires EarliestDue(triggers, schedule, now, id) && f.trigger == id && f.occurrence == schedule[id]
    ensures var after := schedule[id := schedule[id] + IntervalOf(triggers, id)];
            Draining(triggers, start, after, now, log + [f])
  {
    var after, more := schedule[id := schedule[id] + IntervalOf(triggers, id)], log + [f];
    assert more[..|more| - 1] == log;
    StaysInOrder(triggers, start, schedule, now, log, id, f);
    assert Served(triggers, start, schedule, now, log, id);
    assert Due(triggers, schedule, now, id);
    hide AllIntervals, InOrder, Served, EarliestDue, Fired;
    ServedOnce(triggers, start, schedule, now, log, id, f);
    forall x | x in start && x != id
      ensures Served(triggers, start, after, now, more, x)
    {
      assert Served(triggers, start, schedule, now, log, x);
      StillServed(triggers, start, schedule, after, now, log, f, x);
    }
  }

  lemma StillServed(triggers: TriggerTable, start: Schedule, schedule: Schedule, after: Schedule, now: Time,
                    log: seq<Firing>, f: Firing, id: Uuid)
    requires AllIntervals(triggers) && id in start && id in schedule && id in after && after[id] == schedule[id]
    requires Served(triggers, start, schedule, now, log, id) && f.trigger != id
    ensures Served(triggers, start, after, now, log + [f], id)
  {
    assert (log + [f])[..|log|] == log;
    hide AllIntervals, IntervalOf, Nth;
    assert Fired(log + [f], id) == Fired(log, id);
  }

  lemma ServedOnce(triggers: TriggerTable, start: Schedule, schedule: Schedule, now: Time, log: seq<Firing>,
                   id: Uuid, f: Firing)
    requires AllIntervals(triggers) && id in start && Due(triggers, schedule, now, id)
    requires Served(triggers, start, schedule, now, log, id) && f.trigger == id && f.occurrence == schedule[id]
    ensures Served(triggers, start, schedule[id := schedule[id] + IntervalOf(triggers, id)], now, log + [f], id)
  {
    assert (log + [f])[..|log|] == log;
    NthNext(start[id], IntervalOf(triggers, id), |Fired(log, id)|);
    hide AllIntervals, IntervalOf, Nth;
    assert Fired(log + [f], id) == Fired(log, id) + [f.occurrence];
  }

  lemma StaysInOrder(triggers: TriggerTable, start: Schedule, schedule: Schedule, now: Time, log: seq<Firing>,
                     id: Uuid, f: Firing)
    requires AllIntervals(triggers) && Draining(triggers, start, schedule, now, log)
    requires EarliestDue(triggers, schedule, now, id) && f.trigger == id && f.occurrence == schedule[id]
    ensures InOrder(log + [f])
    ensures var after := schedule[id := schedule[id] + IntervalOf(triggers, id)];
            forall g, x | g in log + [f] && Due(triggers, after, now, x) ::
              NoLater(g.occurrence, g.trigger, after[x], x)
  {
    hide Served, AllIntervals, IntervalOf;
    assert forall g | g in log :: NoLater(g.occurrence, g.trigger, schedule[id], id);
  }

  lemma OwedFalls(triggers: TriggerTable, schedule: Schedule, now: Time, id: Uuid)
    requires AllIntervals(triggers) && Due(triggers, schedule, now, id)
    ensures var after := schedule[id := schedule[id] + IntervalOf(triggers, id)];
            && Owed(triggers, after, now, id) == Owed(triggers, schedule, now, id) - 1
            && forall x | x != id :: Owed(triggers, after, now, x) == Owed(triggers, schedule, now, x)
  {
    QuotaFalls(now, schedule[id], IntervalOf(triggers, id));
    hide Quota, AllIntervals;
  }

  /** When nothing is due any more, each trigger has been served exactly what it owed. */
  lemma DrainedIsPaid(triggers: TriggerTable, start: Schedule, schedule: Schedule, now: Time, log: seq<Firing>, id: Uuid)
    requires AllIntervals(triggers) && Draining(triggers, start, schedule, now, log)
    requires NothingDue(triggers, schedule, now) && id in start
    ensures |Fired(log, id)| == Owed(triggers, start, now, id)
  {
    assert Served(triggers, start, schedule, now, log, id);
    var n := |Fired(log, id)|;
    if Ticking(triggers, id) {
      var interval := IntervalOf(triggers, id);
      hide AllIntervals, InOrder, IntervalOf, Fired;
      assert !Due(triggers, schedule, now, id);
      assert n > 0 ==> Fired(log, id)[0] == Nth(start[id], interval, 0);
      NthNext(start[id], interval, 0);
      if start[id] <= now {
        assert n >= 1;
        assert Fired(log, id)[n - 1] == Nth(start[id], interval, n - 1);
        QuotaIsExact(now, start[id], interval, n);
      }
    }
  }
}
