/** The notification pump: one tick walks the pending deliveries in mailbox order and posts at
    most `batch` of them, skipping those that are not ready. */
module Pump {
  import opened Division
  import opened EventStore
  import opened Events
  import opened Faults

  datatype Pending = Pending(event: Event, body: Body)

  /** How often a delivery was attempted for subscription `u`. */
  function Tries(db: Db, u: Url, e: Event): nat {
    if (u, e) in db.deliveries then db.deliveries[(u, e)].attempts else 0
  }

  function Sweep(db: Db, at: int): Db {
    Maintained(db, at, true).(cleanup := {})
  }

  predicate SameRows(a: Db, b: Db, u: Url) {
    && (forall k :: k in a.deliveries && k.0 == u ==> k in b.deliveries && a.deliveries[k] == b.deliveries[k])
    && (forall k :: k in b.deliveries && k.0 == u ==> k in a.deliveries)
  }

  /** A subscription in force after a sweep was in force before it, and kept its rows. */
  lemma SweepKeepsInForce(db: Db, at: int, u: Url, now: int)
    requires InForce(Sweep(db, at), u, now)
    ensures u in db.subs && db.subs[u].active && db.subs[u].expires == Sweep(db, at).subs[u].expires
    ensures SameRows(db, Sweep(db, at), u)
  {
  }

  lemma SweepKeepsTries(db: Db, at: int, u: Url, now: int)
    requires InForce(Sweep(db, at), u, now)
    ensures forall e :: Tries(Sweep(db, at), u, e) == Tries(db, u, e)
  {
    SweepKeepsInForce(db, at, u, now);
  }

  lemma OnlyTarget(db: Db, at: int, u: Url, now: int)
    requires OneRow(db.subs) && InForce(Sweep(db, at), u, now)
    ensures Targets(Sweep(db, at), now) == {u}
  {
  }

  /** Calls that neither make nor renew a subscription: one in force after them was in force before,
      and none of its deliveries lost an attempt. */
  ghost predicate Lasting(w: World, v: World) {
    Continues(w, v) && SameTerms(w.db.subs, v.db.subs)
  }

  lemma LastingIsTransitive(w: World, v: World, x: World)
    requires Lasting(w, v) && Lasting(v, x)
    ensures Lasting(w, x)
  {
    ContinuesIsTransitive(w, v, x);
    hide Continues;
  }

  lemma LastingKeepsTries(w: World, v: World, u: Url)
    requires Lasting(w, v) && InForce(v.db, u, v.clock)
    ensures InForce(w.db, u, w.clock)
    ensures forall e :: Tries(v.db, u, e) >= Tries(w.db, u, e)
  {
    forall e: Event ensures Tries(v.db, u, e) >= Tries(w.db, u, e) {
      if (u, e) in w.db.deliveries {
        assert DeliveryFollows(w, v, (u, e));
      }
    }
  }

  /** What `Deliver` did to a ready row, given that the subscription is still in force. */
  lemma ReadyRowIsAttempted(db: Db, asked: int, swept: int, now: int, next: Db, u: Url, p: Pending, statuses: seq<int>)
    requires OneRow(db.subs) && InForce(next, u, now)
    requires asked <= now && (u in db.subs ==> Eligible(db, (u, p.event), asked))
    requires var m := Sweep(db, swept);
      && (Targets(m, now) == {} ==> statuses == [] && next == m)
      && (forall v :: v in Targets(m, now) ==>
            if Eligible(m, (v, p.event), now)
            then |statuses| == 1 && DeliveredRows(m, next, (v, p.event), p.body, now, statuses[0])
            else statuses == [] && next == m)
    ensures u in db.subs && db.subs[u].active && db.subs[u].expires == next.subs[u].expires
    ensures forall e :: Tries(next, u, e) == Tries(db, u, e) + if e == p.event then 1 else 0
  {
    var m := Sweep(db, swept);
    if v :| v in Targets(m, now) {
      assert next.subs == m.subs || next.subs == m.subs - {v};
    }
    assert u in m.subs && m.subs[u] == next.subs[u];
    SweepKeepsInForce(db, swept, u, now);
    OnlyTarget(db, swept, u, now);
    assert u in Targets(m, now);
    assert Eligible(m, (u, p.event), now);
  }

  /** One row of a tick. If the subscription outlasts it, the row is attempted exactly when it
      is reported notified, and a row never attempted before is notified. */
  method VisitRow(c: Connection, p: Pending, allowed: bool, ghost u: Url) returns (o: Outcome, notified: bool)
    requires c.Valid()
    modifies c`db, c`posts, c`forgets, c`replaced, c`clock, c.store
    ensures c.Valid() && c.clock >= old(c.clock) && Lasting(old(c.Stores()), c.Stores())
    ensures c.store.calm ==> o == if allowed then Done else Refused
    ensures o.Done? && InForce(c.db, u, c.clock) ==>
      && InForce(old(c.db), u, old(c.clock))
      && (Tries(old(c.db), u, p.event) == 0 ==> notified)
      && (forall e :: Tries(c.db, u, e) == Tries(old(c.db), u, e) + if notified && e == p.event then 1 else 0)
  {
    hide Sound, Live, Maintained, DeliveredRows, Eligible, Continues, SameTerms;
    ghost var w, before := c.Stores(), c.db;
    OneRowOf(c.Stores());
    var ready, swept, now;
    notified := false;
    o, ready, swept, now := c.Ready(p.event, allowed);
    ghost var v := c.Stores();
    if !o.Done? { return; }
    ghost var asked := c.db;
    OneRowOf(c.Stores());
    if ready {
      var statuses, swept', now';
      o, statuses, swept', now' := c.Deliver(p.event, p.body, allowed);
      LastingIsTransitive(w, v, c.Stores());
      if !o.Done? { return; }
      notified := true;
      if InForce(c.db, u, c.clock) {
        ReadyRowIsAttempted(asked, now, swept', now', c.db, u, p, statuses);
        SweepKeepsInForce(before, swept, u, now);
      }
    } else if InForce(c.db, u, c.clock) {
      SweepKeepsInForce(before, swept, u, now);
      OnlyTarget(before, swept, u, now);
      if Tries(asked, u, p.event) == 0 {
        NeverTriedIsEligible(asked, u, p.event, now);
      }
    }
  }

  lemma OneRowOf(w: World)
    requires Sound(w)
    ensures OneRow(w.db.subs)
    ensures forall k :: k in w.db.deliveries ==> 1 <= w.db.deliveries[k].attempts <= 3
  {
  }

  lemma NeverTriedIsEligible(db: Db, u: Url, e: Event, now: int)
    requires forall k :: k in db.deliveries ==> 1 <= db.deliveries[k].attempts
    requires Tries(db, u, e) == 0
    ensures Eligible(db, (u, e), now)
  {
  }

  // ---- one tick --------------------------------------------------------------------------

  predicate Increasing(hits: seq<nat>, bound: nat) {
    && (forall i :: 0 <= i < |hits| ==> hits[i] < bound)
    && (forall i, j :: 0 <= i < j < |hits| ==> hits[i] < hits[j])
  }

  /** Was `e` among the rows that the tick attempted? */
  predicate Hit(rows: seq<Pending>, hits: seq<nat>, e: Event) {
    exists i :: 0 <= i < |hits| && hits[i] < |rows| && rows[hits[i]].event == e
  }

  ghost predicate DistinctRows(rows: seq<Pending>) {
    forall i, j :: 0 <= i < j < |rows| ==> rows[i].event != rows[j].event
  }

  /** What one tick does to a subscription that outlasts it: the rows at `hits` gain one
      attempt, and a row never attempted is passed over only when the batch was spent ahead. */
  ghost predicate Ticked(u: Url, batch: nat, before: Db, after: Db, rows: seq<Pending>, hits: seq<nat>) {
    && |hits| <= batch && Increasing(hits, |rows|)
    && (forall e :: Tries(after, u, e) == Tries(before, u, e) + if Hit(rows, hits, e) then 1 else 0)
    && (forall i :: 0 <= i < |rows| && Tries(before, u, rows[i].event) == 0 && i !in hits ==>
          |hits| == batch && forall j :: 0 <= j < |hits| ==> hits[j] < i)
  }

  method Tick(c: Connection, rows: seq<Pending>, batch: nat, allowed: bool, ghost u: Url)
    returns (o: Outcome, hits: seq<nat>)
    requires c.Valid() && DistinctRows(rows)
    modifies c`db, c`posts, c`forgets, c`replaced, c`clock, c.store
    ensures c.Valid() && c.clock >= old(c.clock) && Lasting(old(c.Stores()), c.Stores())
    ensures c.store.calm ==> o == if allowed then Done else Refused
    ensures |hits| <= batch
    ensures o.Done? && InForce(c.db, u, c.clock) ==>
      Ticked(u, batch, old(c.db), c.db, rows, hits) && forall e :: Tries(c.db, u, e) <= 3
  {
    hide Sound, Live, Maintained, InForce, Hit, Tries, Refs, Continues, SameTerms;
    ghost var w, before := c.Stores(), c.db;
    hits := [];
    var swept;
    o, swept := c.Maintenance(allowed);
    if !o.Done? { return; }
    if InForce(c.db, u, c.clock) {
      SweepKeepsTries(before, swept, u, c.clock);
    }
    NoHits(rows);
    var i := 0;
    while i < |rows| && |hits| < batch
      invariant 0 <= i <= |rows| && |hits| <= batch && o.Done?
      invariant c.Valid() && c.clock >= old(c.clock) && Lasting(w, c.Stores())
      invariant Increasing(hits, i)
      invariant InForce(c.db, u, c.clock) ==>
        forall e :: Tries(c.db, u, e) == Tries(before, u, e) + if Hit(rows, hits, e) then 1 else 0
      invariant InForce(c.db, u, c.clock) ==>
        forall j :: 0 <= j < i && Tries(before, u, rows[j].event) == 0 ==> j in hits
    {
      var notified;
      ghost var v := c.Stores();
      o, notified := VisitRow(c, rows[i], allowed, u);
      LastingIsTransitive(w, v, c.Stores());
      if !o.Done? { return; }
      HitGrows(rows, hits, i);
      if notified {
        hits := hits + [i];
      }
      i := i + 1;
    }
    TriesBound(c.Stores(), u);
  }

  lemma TriesBound(w: World, u: Url)
    requires Sound(w)
    ensures forall e :: Tries(w.db, u, e) <= 3
  {
  }

  lemma NoHits(rows: seq<Pending>)
    ensures forall e :: !Hit(rows, [], e)
  {
  }

  lemma HitGrows(rows: seq<Pending>, hits: seq<nat>, i: nat)
    requires DistinctRows(rows) && i < |rows| && Increasing(hits, i)
    ensures !Hit(rows, hits, rows[i].event)
    ensures forall e :: Hit(rows, hits + [i], e) <==> Hit(rows, hits, e) || e == rows[i].event
  {
    forall e ensures Hit(rows, hits + [i], e) <==> Hit(rows, hits, e) || e == rows[i].event {
      assert (hits + [i])[|hits|] == i;
      if Hit(rows, hits, e) {
        var k :| 0 <= k < |hits| && hits[k] < |rows| && rows[hits[k]].event == e;
        assert (hits + [i])[k] == hits[k];
      }
    }
  }

  // ---- no starvation -----------------------------------------------------------------------

  /** A completed tick of the pump that found `d` at row `at`. */
  datatype TickLog = TickLog(rows: seq<Pending>, at: nat, before: Db, after: Db, hits: seq<nat>)

  /** The events ahead of row `at`. */
  function Ahead(rows: seq<Pending>, at: nat): set<Event>
    requires at <= |rows|
  {
    set i | 0 <= i < at :: rows[i].event
  }

  ghost predicate DistinctEvents(q: seq<Event>) {
    forall i, j :: 0 <= i < j < |q| ==> q[i] != q[j]
  }

  /** `d` is pending at row `at`, and everything ahead of it is in `q`. */
  ghost predicate Waits(rows: seq<Pending>, at: nat, d: Event, q: seq<Event>) {
    && DistinctRows(rows) && at < |rows| && rows[at].event == d
    && forall e :: e in Ahead(rows, at) ==> e in q
  }

  /** The tick left `d`, which was never attempted, behind its batch. */
  ghost predicate PassesOver(t: TickLog, u: Url, batch: nat, d: Event, q: seq<Event>) {
    && Waits(t.rows, t.at, d, q) && Ticked(u, batch, t.before, t.after, t.rows, t.hits)
    && (forall e :: Tries(t.after, u, e) <= 3)
    && Tries(t.before, u, d) == 0 && t.at !in t.hits
  }

  /** A run of ticks that pass `d` over. Between them rows ahead of it may be acknowledged and other
      callers may attempt deliveries; new arrivals queue behind. */
  ghost predicate PassedOver(ticks: seq<TickLog>, u: Url, batch: nat, d: Event, q: seq<Event>) {
    && (forall i :: 0 <= i < |ticks| ==> PassesOver(ticks[i], u, batch, d, q))
    && (forall i, e :: 0 < i < |ticks| ==> Tries(ticks[i].before, u, e) >= Tries(ticks[i - 1].after, u, e))
  }

  /** The attempts the deliveries of `q` still have before them. */
  function Budget(q: seq<Event>, db: Db, u: Url): int {
    if q == [] then 0 else 3 - Tries(db, u, q[0]) + Budget(q[1..], db, u)
  }

  lemma {:induction false} BudgetBound(q: seq<Event>, db: Db, u: Url)
    ensures Budget(q, db, u) <= 3 * |q|
  {
    if q != [] { BudgetBound(q[1..], db, u); }
  }

  /** Fewer attempts left where more were made: one less for each event of `hit` in `q`. */
  lemma {:induction false} BudgetFalls(q: seq<Event>, db: Db, next: Db, u: Url, hit: set<Event>)
    requires forall e :: e in q ==> Tries(next, u, e) >= Tries(db, u, e) + if e in hit then 1 else 0
    requires forall i, j :: 0 <= i < j < |q| ==> q[i] != q[j]
    requires forall e :: e in hit ==> e in q
    ensures Budget(q, next, u) <= Budget(q, db, u) - |hit|
  {
    if q == [] {
      assert hit == {};
    } else {
      assert q == [q[0]] + q[1..];
      BudgetFalls(q[1..], db, next, u, hit - {q[0]});
    }
  }

  lemma {:induction false} BudgetIsNat(q: seq<Event>, db: Db, u: Url)
    requires forall e :: Tries(db, u, e) <= 3
    ensures Budget(q, db, u) >= 0
  {
    if q != [] { BudgetIsNat(q[1..], db, u); }
  }

  lemma {:induction false} HitEvents(rows: seq<Pending>, hits: seq<nat>) returns (hit: set<Event>)
    requires DistinctRows(rows) && Increasing(hits, |rows|)
    ensures |hit| == |hits| && forall e :: e in hit <==> Hit(rows, hits, e)
  {
    if hits == [] {
      hit := {};
    } else {
      var front, last := hits[..|hits| - 1], hits[|hits| - 1];
      hit := HitEvents(rows, front);
      assert hits == front + [last];
      assert Increasing(front, last);
      HitGrows(rows, front, last);
      hit := hit + {rows[last].event};
    }
  }

  /** A tick that passes `d` over spends its whole batch on the deliveries ahead of `d`. */
  lemma PassingOverCostsABatch(t: TickLog, u: Url, batch: nat, d: Event, q: seq<Event>)
    requires PassesOver(t, u, batch, d, q) && DistinctEvents(q)
    ensures Budget(q, t.after, u) <= Budget(q, t.before, u) - batch
  {
    var hit := HitEvents(t.rows, t.hits);
    assert |hit| == batch;
    forall e | e in hit ensures e in q {
      var k :| 0 <= k < |t.hits| && t.hits[k] < |t.rows| && t.rows[t.hits[k]].event == e;
      assert t.hits[k] < t.at;
      assert e in Ahead(t.rows, t.at);
    }
    BudgetFalls(q, t.before, t.after, u, hit);
  }

  lemma {:induction false} BudgetMonotone(q: seq<Event>, db: Db, next: Db, u: Url)
    requires forall e :: Tries(next, u, e) >= Tries(db, u, e)
    ensures Budget(q, next, u) <= Budget(q, db, u)
  {
    if q != [] { BudgetMonotone(q[1..], db, next, u); }
  }

  lemma {:induction false} BudgetAfterTicks(ticks: seq<TickLog>, u: Url, batch: nat, d: Event, q: seq<Event>, n: nat)
    requires PassedOver(ticks, u, batch, d, q) && DistinctEvents(q) && 0 < n <= |ticks|
    ensures Budget(q, ticks[n - 1].after, u) <= 3 * |q| - n * batch
  {
    hide Budget, DistinctEvents, PassesOver;
    var t := ticks[n - 1];
    if n == 1 {
      BudgetBound(q, t.before, u);
    } else {
      BudgetAfterTicks(ticks, u, batch, d, q, n - 1);
      BudgetMonotone(q, ticks[n - 2].after, t.before, u);
    }
    PassingOverCostsABatch(t, u, batch, d, q);
    assert (n - 1) * batch + batch == n * batch;
  }

  /** No starvation: a delivery with only the events of `q` ahead of it is passed over by at most
      floor(3 |q| / batch) ticks, so it is attempted in the tick after those at the latest. */
  lemma NoStarvation(ticks: seq<TickLog>, u: Url, batch: nat, d: Event, q: seq<Event>)
    requires PassedOver(ticks, u, batch, d, q) && DistinctEvents(q) && batch >= 1
    ensures |ticks| <= 3 * |q| / batch
  {
    if ticks == [] {
      QuotientBound(0, 3 * |q|, batch);
    } else {
      BudgetAfterTicks(ticks, u, batch, d, q, |ticks|);
      BudgetIsNat(q, ticks[|ticks| - 1].after, u);
      assert |ticks| * batch <= 3 * |q|;
      QuotientBound(|ticks|, 3 * |q|, batch);
    }
  }

  /** The completed ticks passed `d` over, and no delivery has lost an attempt since the last. */
  ghost predicate Passing(ticks: seq<TickLog>, u: Url, batch: nat, d: Event, q: seq<Event>, db: Db) {
    && PassedOver(ticks, u, batch, d, q)
    && (ticks != [] ==> forall e :: Tries(db, u, e) >= Tries(ticks[|ticks| - 1].after, u, e))
  }

  lemma NothingPassed(u: Url, batch: nat, d: Event, q: seq<Event>, db: Db)
    ensures Passing([], u, batch, d, q, db)
  {
  }

  lemma PassingOn(ticks: seq<TickLog>, u: Url, batch: nat, d: Event, q: seq<Event>, before: Db, after: Db)
    requires Passing(ticks, u, batch, d, q, before)
    requires forall e :: Tries(after, u, e) >= Tries(before, u, e)
    ensures Passing(ticks, u, batch, d, q, after)
  {
    hide PassedOver, Tries;
  }

  lemma PassedOnceMore(ticks: seq<TickLog>, u: Url, batch: nat, d: Event, q: seq<Event>, t: TickLog)
    requires Passing(ticks, u, batch, d, q, t.before) && Waits(t.rows, t.at, d, q)
    requires Ticked(u, batch, t.before, t.after, t.rows, t.hits)
    requires (forall e :: Tries(t.after, u, e) <= 3) && Tries(t.after, u, d) == 0
    ensures Passing(ticks + [t], u, batch, d, q, t.after)
  {
    hide Tries, Ahead;
    assert t.at !in t.hits;
    assert PassesOver(t, u, batch, d, q);
    hide Ticked, Hit, Waits, PassesOver;
  }

  // ---- ticks among other calls -----------------------------------------------------------------

  /** What a connection is asked to do: a tick over the mailbox as it then is, or a call of somebody
      else's. */
  datatype Turn =
    | OwnTick(rows: seq<Pending>, allowed: bool)
    | OtherCall(call: Call, allowed: bool)

  function TickCount(turns: seq<Turn>): nat {
    if turns == [] then 0
    else TickCount(turns[..|turns| - 1]) + if turns[|turns| - 1].OwnTick? then 1 else 0
  }

  ghost predicate AllWait(turns: seq<Turn>, d: Event, q: seq<Event>) {
    forall i :: 0 <= i < |turns| && turns[i].OwnTick? ==> exists at :: Waits(turns[i].rows, at, d, q)
  }

  predicate Subscribes(turn: Turn) {
    turn.OtherCall? && turn.call.SubscribeTo?
  }

  ghost predicate TurnsFresh(turns: seq<Turn>, issued: set<Ref>) {
    && (forall i :: 0 <= i < |turns| && Subscribes(turns[i]) ==> turns[i].call.token !in issued)
    && (forall i, j :: 0 <= i < j < |turns| && Subscribes(turns[i]) && Subscribes(turns[j]) ==>
          turns[i].call.token != turns[j].call.token)
  }

  /** Any calls: a subscription that is never forgotten keeps its deliveries and their attempts, and
      if it is in force in the end it was all the while. */
  ghost predicate Outlasts(w: World, v: World) {
    Progress(w, v) && ForceLasts(w, v)
  }

  lemma OutlastsIsTransitive(w: World, v: World, x: World)
    requires Outlasts(w, v) && Outlasts(v, x)
    ensures Outlasts(w, x)
  {
    ProgressIsTransitive(w, v, x);
    ForceLastsIsTransitive(w, v, x);
    hide Progress, ForceLasts;
  }

  lemma OutlastsItself(w: World)
    ensures Outlasts(w, w)
  {
    QuietContinues(w, w);
    ForceLastsItself(w);
    hide ForceLasts, Progress;
  }

  lemma LastingOutlasts(w: World, v: World)
    requires Lasting(w, v)
    ensures Outlasts(w, v)
  {
    SameTermsLast(w, v);
    hide ForceLasts, Progress, SameTerms;
  }

  /** The subscription was never forgotten between `w` and `v`, and is in force at `v`. */
  ghost predicate Standing(w: World, v: World, u: Url) {
    u in w.db.subs && Epoch(v, u) == Epoch(w, u) && InForce(v.db, u, v.clock)
  }

  lemma StandingAllTheWhile(w: World, x: World, v: World, u: Url)
    requires Outlasts(w, x) && Outlasts(x, v) && Standing(w, v, u)
    ensures Standing(w, x, u) && forall e :: Tries(v.db, u, e) >= Tries(x.db, u, e)
  {
    hide InForce;
    assert Epoch(w, u) <= Epoch(x, u) <= Epoch(v, u);
    assert u in x.db.subs;
    forall e: Event ensures Tries(v.db, u, e) >= Tries(x.db, u, e) {
      if (u, e) in x.db.deliveries {
        assert DeliveryFollows(x, v, (u, e));
      }
    }
  }

  /** One turn; a crash in it starts a new process over the same stores. */
  method TakeTurn(first: Connection, turn: Turn, batch: nat, ghost w: World, ghost u: Url, ghost d: Event,
          ghost q: seq<Event>, ghost ticks: seq<TickLog>)
    returns (c: Connection, done: bool, ghost log: seq<TickLog>)
    requires first.Valid() && Outlasts(w, first.Stores())
    requires turn.OwnTick? ==> exists at :: Waits(turn.rows, at, d, q)
    requires Subscribes(turn) ==> turn.call.token !in first.issued
    requires Standing(w, first.Stores(), u) && Tries(first.db, u, d) == 0 ==> Passing(ticks, u, batch, d, q, first.db)
    modifies first, first.store
    ensures c.Valid() && c.store == first.store && (c == first || fresh(c))
    ensures Outlasts(w, c.Stores())
    ensures c.issued <= old(first.issued) + if Subscribes(turn) then {turn.call.token} else {}
    ensures done ==> turn.OwnTick?
    ensures first.store.calm && turn.OwnTick? && turn.allowed ==> done
    ensures |log| == |ticks| + if done then 1 else 0
    ensures Standing(w, c.Stores(), u) && Tries(c.db, u, d) == 0 ==> Passing(log, u, batch, d, q, c.db)
  {
    hide Sound, Live, Continues, SameTerms, InForce, Tries, Waits, Ticked, PassedOver, Outlasts, Standing, Passing;
    hide Epoch, Progress, ForceLasts;
    c, done, log := first, false, ticks;
    ghost var x := c.Stores();
    var o;
    match turn {
      case OwnTick(rows, allowed) =>
        ghost var at :| Waits(rows, at, d, q);
        var hits;
        WaitsIsDistinct(rows, at, d, q);
        o, hits := Tick(c, rows, batch, allowed, u);
        LastingOutlasts(x, c.Stores());
        done := o.Done?;
        ghost var t := TickLog(rows, at, x.db, c.db, hits);
        log := if done then ticks + [t] else ticks;
        if Standing(w, c.Stores(), u) && Tries(c.db, u, d) == 0 {
          StandingAllTheWhile(w, x, c.Stores(), u);
          if done {
            StandingIsInForce(w, c.Stores(), u);
            PassedOnceMore(ticks, u, batch, d, q, t);
          } else {
            PassingOn(ticks, u, batch, d, q, x.db, c.db);
          }
        }
      case OtherCall(call, allowed) =>
        o := Answer(c, call, allowed);
        AnswerOutlasts(x, c.Stores());
        if Standing(w, c.Stores(), u) && Tries(c.db, u, d) == 0 {
          StandingAllTheWhile(w, x, c.Stores(), u);
          PassingOn(ticks, u, batch, d, q, x.db, c.db);
        }
    }
    OutlastsIsTransitive(w, x, c.Stores());
    if o.Crashed? {
      c := new Connection(c.store, c.db, c.clock, c.Stores());
    }
  }

  lemma WaitsIsDistinct(rows: seq<Pending>, at: nat, d: Event, q: seq<Event>)
    requires Waits(rows, at, d, q)
    ensures DistinctRows(rows)
  {
  }

  lemma StandingIsInForce(w: World, v: World, u: Url)
    requires Standing(w, v, u)
    ensures InForce(v.db, u, v.clock)
  {
  }

  lemma AnswerOutlasts(w: World, v: World)
    requires Progress(w, v) && ForceLasts(w, v)
    ensures Outlasts(w, v)
  {
  }

  /** Ticks over a changing mailbox, among any calls of others, renewals and timer runs included,
      under any faults, with a new process after each crash. Where nothing fails and each tick is
      authorized, all of them complete. Once more of them have completed than floor(3 |q| / batch),
      `q` being all that was ever ahead of `d`, `d` has been attempted, if its subscription was never
      forgotten and is in force. */
  method RunTicks(first: Connection, turns: seq<Turn>, batch: nat, ghost u: Url, ghost d: Event, ghost q: seq<Event>)
    returns (c: Connection, completed: nat)
    requires first.Valid() && batch >= 1
    requires AllWait(turns, d, q) && DistinctEvents(q) && TurnsFresh(turns, first.issued)
    modifies first, first.store
    ensures c.Valid() && c.store == first.store && Outlasts(old(first.Stores()), c.Stores())
    ensures completed <= TickCount(turns)
    ensures first.store.calm && (forall i :: 0 <= i < |turns| && turns[i].OwnTick? ==> turns[i].allowed) ==>
      completed == TickCount(turns)
    ensures Standing(old(first.Stores()), c.Stores(), u) && completed > 3 * |q| / batch ==> Tries(c.db, u, d) > 0
  {
    hide Sound, Live, Tries, Waits, Outlasts, Standing, Passing, DistinctEvents;
    ghost var w := first.Stores();
    c, completed := first, 0;
    OutlastsItself(w);
    NothingPassed(u, batch, d, q, c.db);
    ghost var ticks: seq<TickLog> := [];
    for i := 0 to |turns|
      invariant c.Valid() && c.store == first.store && (c == first || fresh(c))
      invariant Outlasts(w, c.Stores())
      invariant forall j :: i <= j < |turns| && Subscribes(turns[j]) ==> turns[j].call.token !in c.issued
      invariant |ticks| == completed <= TickCount(turns[..i])
      invariant first.store.calm && (forall j :: 0 <= j < i && turns[j].OwnTick? ==> turns[j].allowed) ==>
        completed == TickCount(turns[..i])
      invariant Standing(w, c.Stores(), u) && Tries(c.db, u, d) == 0 ==> Passing(ticks, u, batch, d, q, c.db)
    {
      assert turns[..i + 1][..i] == turns[..i];
      var done;
      c, done, ticks := TakeTurn(c, turns[i], batch, w, u, d, q, ticks);
      if done { completed := completed + 1; }
    }
    assert turns[..|turns|] == turns;
    if Standing(w, c.Stores(), u) && Tries(c.db, u, d) == 0 {
      PassingIsBounded(ticks, u, batch, d, q, c.db);
    }
  }

  lemma PassingIsBounded(ticks: seq<TickLog>, u: Url, batch: nat, d: Event, q: seq<Event>, db: Db)
    requires Passing(ticks, u, batch, d, q, db) && DistinctEvents(q) && batch >= 1
    ensures |ticks| <= 3 * |q| / batch
  {
    NoStarvation(ticks, u, batch, d, q);
  }

  /** The price of n deliveries: at most 3n posts. */
  lemma {:induction false} PostsOfDeliveries(w: World, u: Url, q: seq<Event>)
    requires Sound(w)
    ensures PostCount(w, u, q) <= 3 * |q|
  {
    if q != [] {
      AtMostThreePosts(w, (u, q[0]));
      PostsOfDeliveries(w, u, q[1..]);
    }
  }

  function PostCount(w: World, u: Url, q: seq<Event>): nat {
    if q == [] then 0 else |PostsOf(w, (u, q[0]))| + PostCount(w, u, q[1..])
  }
}
