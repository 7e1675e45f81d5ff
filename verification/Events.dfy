/** The Events connection over its two stores.

    Every call into a store, every commit and every post may fail or be the last thing the
    process does, so each returns an `Outcome`, and a backend call that did not come back `Done`
    may still have taken effect. The methods keep the order of the program's steps. Whatever the
    outcomes, they keep `Sound` and make `Progress` (EventStore); where they say `Done` they did
    the whole job, and where they say `Refused` they raised after their own way out. */
module Events {
  import opened EventStore
  import opened Faults
  import opened Wrappers

  /** The external backend; the map is its content under this connection's namespace. */
  class KeyStore {
    const calm: bool
    var keys: map<Ref, Secret>

    constructor (keys: map<Ref, Secret>, calm: bool)
      ensures this.keys == keys && this.calm == calm
    {
      this.keys, this.calm := keys, calm;
    }

    method Put(ref: Ref, secret: Secret) returns (o: Outcome)
      modifies this
      ensures !o.Refused? && (calm ==> o.Done?)
      ensures keys == old(keys) || keys == old(keys)[ref := secret]
      ensures o.Done? ==> keys == old(keys)[ref := secret]
    {
      var takes;
      o, takes := Attempt(calm);
      if takes {
        keys := keys[ref := secret];
      }
    }

    method Delete(ref: Ref) returns (o: Outcome)
      modifies this
      ensures !o.Refused? && (calm ==> o.Done?)
      ensures keys == old(keys) || keys == old(keys) - {ref}
      ensures o.Done? ==> keys == old(keys) - {ref}
    {
      var takes;
      o, takes := Attempt(calm);
      if takes {
        keys := keys - {ref};
      }
    }

    method Get(ref: Ref) returns (o: Outcome, secret: Secret)
      ensures !o.Refused? && (calm && ref in keys ==> o.Done?)
      ensures o.Done? ==> ref in keys && secret == keys[ref]
    {
      o := Chance(calm);
      secret := 0;
      if ref !in keys {
        o := if o.Done? then Raised else o;
      } else {
        secret := keys[ref];
      }
    }

    method References() returns (o: Outcome, refs: set<Ref>)
      ensures !o.Refused? && (calm ==> o.Done?)
      ensures o.Done? ==> refs == keys.Keys
    {
      o := Chance(calm);
      refs := keys.Keys;
    }
  }

  /** The answer to a request: an HTTP status, 0 when the transport failed; the call may also
      raise, or the process die in it. */
  method HttpPost(calm: bool) returns (o: Outcome, status: int)
    ensures calm ==> o.Done?
  {
    o := Chance(calm);
    status := *;
  }

  class Connection {
    const store: KeyStore
    var db: Db
    var clock: int
    ghost var issued: set<Ref>
    ghost var verified: set<(Url, Secret)>
    ghost var posts: map<(Url, Event), seq<Post>>
    ghost var forgets: map<Url, nat>
    ghost var replaced: map<Ref, int>
    ghost var challenges: nat     // how many the endpoint answered

    ghost function Stores(): World
      reads this, store
    {
      World(db, store.keys, issued, verified, posts, forgets, replaced, clock)
    }

    ghost predicate Valid()
      reads this, store
    {
      Sound(Stores())
    }

    /** Open the connection over whatever an earlier process left in the two stores. */
    constructor (store: KeyStore, db: Db, clock: int, ghost w: World)
      requires Sound(w) && w.db == db && w.keys == store.keys && w.clock == clock
      ensures Valid() && this.store == store && Stores() == w
    {
      this.store, this.db, this.clock := store, db, clock;
      issued, verified, posts, forgets, replaced := w.issued, w.verified, w.posts, w.forgets, w.replaced;
      challenges := 0;
    }

    /** Nothing is left over: the key store holds exactly the live references. */
    ghost predicate Clean()
      reads this, store
    {
      store.keys.Keys == Live(db.subs) && db.cleanup == {}
    }

    method Now() returns (now: int)
      requires Valid()
      modifies this`clock
      ensures Valid() && Continues(old(Stores()), Stores())
      ensures now == clock >= old(clock)
    {
      hide Sound, Continues;
      ghost var w := Stores();
      var reading: int := *;
      if reading > clock {
        clock := reading;
      }
      now := clock;
      ForgetsAreHistory(w, forgets, clock);
      QuietContinues(w, Stores());
    }

    /** One SQLite transaction. An exception rolls it back; a crash may fall on either side. */
    method Commit(next: Db) returns (o: Outcome)
      requires Valid() && Committable(Stores(), next)
      modifies this`db, this`posts, this`forgets, this`replaced
      ensures Valid() && Progress(old(Stores()), Stores())
      ensures !o.Refused? && (store.calm ==> o.Done?)
      ensures next.subs.Keys <= old(db).subs.Keys ==> Continues(old(Stores()), Stores())
      ensures o.Done? ==> Stores() == After(old(Stores()), next)
      ensures o.Raised? ==> Stores() == old(Stores())
      ensures Stores() in {old(Stores()), After(old(Stores()), next)}
      ensures db == if Stores() == old(Stores()) then old(db) else next
      ensures posts == if Stores() == old(Stores()) then old(posts) else After(old(Stores()), next).posts
      ensures o.Done? ==> db == next && posts == After(old(Stores()), next).posts
    {
      hide Sound, Progress, Continues, RowsFollow, Kept, Dropped, Replacements;
      ghost var w := Stores();
      CommitProgresses(w, next);
      if next.subs.Keys <= db.subs.Keys { CommitContinues(w, next); }
      QuietContinues(w, w);
      ContinuesIsProgress(w, w);
      var takes;
      o, takes := Attempt(store.calm);
      if takes && !o.Raised? {
        db := next;
        posts, forgets, replaced := After(w, next).posts, After(w, next).forgets, After(w, next).replaced;
      }
    }

    /** Delete one retired key, then its cleanup row. */
    method Erase(ref: Ref) returns (o: Outcome)
      requires Valid() && ref in db.cleanup
      modifies this`db, this`posts, this`forgets, this`replaced, store
      ensures Valid() && Continues(old(Stores()), Stores())
      ensures !o.Refused? && (store.calm ==> o.Done?)
      ensures db.subs == old(db).subs && db.deliveries == old(db).deliveries && posts == old(posts)
      ensures store.keys == old(store.keys) || store.keys == old(store.keys) - {ref}
      ensures db.cleanup == old(db).cleanup || (db.cleanup == old(db).cleanup - {ref} && ref !in store.keys)
      ensures o.Done? ==> store.keys == old(store.keys) - {ref} && db.cleanup == old(db).cleanup - {ref}
    {
      hide Sound, Live, Progress, Continues, Committable, After;
      ghost var w := Stores();
      DeleteKeepsSound(w, ref);
      o := store.Delete(ref);
      ghost var v := Stores();
      QuietContinues(w, v);
      if !o.Done? { return; }
      CleanedCommits(v, ref);
      o := Commit(db.(cleanup := db.cleanup - {ref}));
      ContinuesIsTransitive(w, v, Stores());
    }

    method Reconcile() returns (o: Outcome)
      requires Valid()
      modifies this`db, this`posts, this`forgets, this`replaced, store
      ensures Valid() && Continues(old(Stores()), Stores())
      ensures !o.Refused? && (store.calm ==> o.Done?)
      ensures db.subs == old(db.subs) && db.deliveries == old(db.deliveries) && posts == old(posts)
      ensures forall r :: r in Live(db.subs) ==> r in old(store.keys) && store.keys[r] == old(store.keys)[r]
      ensures forall r :: r in old(db).cleanup && r !in db.cleanup ==> r !in store.keys
      ensures o.Done? ==> Clean()
    {
      hide Sound, Live, Progress, Continues, Committable, After;
      ghost var w := Stores();
      QuietContinues(w, w);
      var live := Live(db.subs);
      var refs;
      SoundKeys(w);
      o, refs := store.References();
      if !o.Done? { return; }
      RetireCommits(w, refs - live);
      o := Commit(Retire(db, refs - live));
      if !o.Done? { return; }
      var rows := db.cleanup;
      while rows != {}
        invariant Valid() && Continues(w, Stores())
        invariant rows == db.cleanup && live == Live(db.subs)
        invariant db.subs == old(db.subs) && db.deliveries == old(db.deliveries) && posts == old(posts)
        invariant forall r :: r in live ==>
          r in old(store.keys) && r in store.keys && store.keys[r] == old(store.keys)[r]
        invariant forall r :: r in old(db).cleanup && r !in db.cleanup ==> r !in store.keys
        invariant store.keys.Keys <= live + rows
        decreases rows
      {
        var ref :| ref in rows;
        ghost var v := Stores();
        SoundKeys(v);
        o := Erase(ref);
        ContinuesIsTransitive(w, v, Stores());
        if !o.Done? { return; }
        rows := rows - {ref};
      }
      SoundKeys(Stores());
      o := Done;
    }

    /** Forget what is over, end rotation windows that are over, and clean up. Without
        authorization everything goes, and the caller is refused. */
    method Maintenance(allowed: bool) returns (o: Outcome, now: int)
      requires Valid()
      modifies this`db, this`posts, this`forgets, this`replaced, this`clock, store
      ensures Valid() && Continues(old(Stores()), Stores()) && old(clock) <= now == clock
      ensures SameTerms(old(db).subs, db.subs)
      ensures db.subs in {old(db).subs, Maintained(old(db), now, allowed).subs}
      ensures db.deliveries in {old(db).deliveries, Maintained(old(db), now, allowed).deliveries}
      ensures (o.Done? ==> allowed) && (o.Refused? ==> !allowed)
      ensures store.calm ==> o.Done? || o.Refused?
      ensures o.Done? || o.Refused? ==>
        && Clean()
        && db == Maintained(old(db), now, allowed).(cleanup := {})
        && posts == Kept(old(posts), db)
      ensures o.Done? ==> Swept(old(db), db, now)
      ensures o.Refused? ==> db.subs == map[] && store.keys == map[]
      ensures forall r :: r in Live(db.subs) ==>
        r in old(store.keys) && r in store.keys && store.keys[r] == old(store.keys)[r]
    {
      hide Sound, Live, Progress, Continues, SameTerms, Maintained;
      ghost var w := Stores();
      o, now := Expire(allowed);
      ghost var v := Stores();
      SoundKeys(v);
      if !o.Done? { return; }
      o := Reconcile();
      SoundKeys(Stores());
      ContinuesIsTransitive(w, v, Stores());
      MaintainedIsSwept(w.db, now);
      if o.Done? && !allowed {
        o := Refused;
        NobodyIsLeft(w.db, now);
      }
    }

    /** The one transaction of it. */
    method Expire(allowed: bool) returns (o: Outcome, now: int)
      requires Valid()
      modifies this`db, this`posts, this`forgets, this`replaced, this`clock
      ensures Valid() && Continues(old(Stores()), Stores()) && old(clock) <= now == clock
      ensures SameTerms(old(db).subs, db.subs)
      ensures db == old(db) || db == Maintained(old(db), now, allowed)
      ensures o.Done? ==> db == Maintained(old(db), now, allowed) && posts == Kept(old(posts), db)
      ensures !o.Refused? && (store.calm ==> o.Done?)
      ensures Live(db.subs) <= Live(old(db).subs)
    {
      hide Sound, Live, RotateOut, Progress, Continues, Committable, Dropped, Replacements;
      ghost var w := Stores();
      now := Now();
      ghost var v := Stores();
      MaintainedCommits(v, now, allowed);
      MaintainedLive(db, now, allowed);
      var next := ForgetRows(db, GoneUrls(db, now, allowed));
      next := RotateOut(next, now);
      assert next == Maintained(db, now, allowed);
      MaintainedRows(db, now, now, allowed);
      MaintainedTerms(db, now, allowed);
      hide Maintained, ForgetAll, GoneUrls, Kept;
      o := Commit(next);
      ContinuesIsTransitive(w, v, Stores());
    }

    method ForgetRows(db: Db, gone: set<Url>) returns (next: Db)
      requires gone <= db.subs.Keys
      ensures next == ForgetAll(db, gone)
    {
      hide Forget, ForgetAll;
      next := db;
      var rows := gone;
      ForgetNone(db);
      assert gone - rows == {};
      while rows != {}
        invariant rows <= gone
        invariant next == ForgetAll(db, gone - rows)
        decreases rows
      {
        var u :| u in rows;
        ForgetOneMore(db, gone - rows, u);
        assert gone - (rows - {u}) == gone - rows + {u};
        next := Forget(next, u);
        rows := rows - {u};
      }
      assert gone - rows == gone;
    }

    /** The endpoint returns the challenge, or the subscription is refused. */
    method Challenge(u: Url, secret: Secret) returns (o: Outcome)
      requires Valid()
      modifies this`verified, this`challenges
      ensures Valid() && Continues(old(Stores()), Stores())
      ensures store.calm ==> o.Done?
      ensures old(verified) <= verified <= old(verified) + {(u, secret)}
      ensures o.Done? ==> (u, secret) in verified && challenges == old(challenges) + 1
    {
      hide Sound, Continues;
      ghost var w := Stores();
      VerifyKeepsSound(w, u, secret);
      o := Chance(store.calm);
      if o.Done? {
        verified := verified + {(u, secret)};
        challenges := challenges + 1;
      }
      QuietContinues(w, Stores());
    }

    /** Store the secret under a new reference, or leave the reference to the cleanup table. */
    method PutNew(ref: Ref, secret: Secret) returns (o: Outcome)
      requires Valid() && ref !in issued
      modifies this`db, this`posts, this`forgets, this`replaced, this`issued, store
      ensures Valid() && Continues(old(Stores()), Stores())
      ensures store.calm ==> o.Done?
      ensures issued == old(issued) + {ref}
      ensures db.subs == old(db.subs) && db.deliveries == old(db.deliveries) && posts == old(posts)
      ensures forall r :: r in old(store.keys) && r != ref ==> r in store.keys && store.keys[r] == old(store.keys)[r]
      ensures o.Done? ==> Stores() == old(Stores()).(keys := old(store.keys)[ref := secret], issued := issued)
      ensures o.Refused? ==> db == Retire(old(db), {ref})
      ensures o.Raised? ==> db == old(db)
    {
      hide Sound, Live, Progress, Continues, Committable, After;
      ghost var w := Stores();
      SoundKeys(w);
      PutKeepsSound(w, ref, secret);
      issued := issued + {ref};
      o := store.Put(ref, secret);
      ghost var v := Stores();
      QuietContinues(w, v);
      if o.Raised? {
        // A put that reports failure may still have stored the secret.
        RetireCommits(v, {ref});
        o := Commit(Retire(db, {ref}));
        ContinuesIsTransitive(w, v, Stores());
        if o.Done? { o := Refused; }
      }
    }

    /** Same key: only the deadlines move. */
    method Renew(u: Url, expires: int, verifiedUntil: int) returns (o: Outcome)
      requires Valid() && u in db.subs
      modifies this`db, this`posts, this`forgets, this`replaced, store
      ensures Valid() && Continues(old(Stores()), Stores())
      ensures store.calm ==> o.Done?
      ensures db.subs in {old(db).subs, Renewed(old(db), u, expires, verifiedUntil).subs}
      ensures db.deliveries == old(db).deliveries && posts == old(posts)
      ensures o.Done? ==> Clean() && db == Renewed(old(db), u, expires, verifiedUntil).(cleanup := {})
      ensures o.Done? ==> forall r :: r in store.keys ==> r in old(store.keys) && store.keys[r] == old(store.keys)[r]
    {
      hide Sound, Live, Progress, Continues, Committable, After;
      ghost var w := Stores();
      RenewedCommits(w, u, expires, verifiedUntil);
      o := Commit(Renewed(db, u, expires, verifiedUntil));
      if !o.Done? { return; }
      ghost var v := Stores();
      o := Reconcile();
      ContinuesIsTransitive(w, v, Stores());
    }

    /** New key: written to the backend first, named by a row second. */
    method Install(u: Url, secret: Secret, token: Ref, now: int, expires: int) returns (o: Outcome)
      requires Valid() && token !in issued && (u, secret) in verified
      requires (u in db.subs || db.subs == map[]) && now <= clock
      modifies this`db, this`posts, this`forgets, this`replaced, this`issued, store
      ensures Valid() && Progress(old(Stores()), Stores())
      ensures store.calm ==> o.Done?
      ensures issued <= old(issued) + {token}
      ensures db.subs in {old(db).subs, Installed(old(db), u, token, now, expires, now + 300000).subs}
      ensures db.deliveries == old(db).deliveries && posts == old(posts)
      ensures o.Done? ==>
        && Clean() && token in store.keys && store.keys[token] == secret
        && db == Installed(old(db), u, token, now, expires, now + 300000).(cleanup := {})
      // A failed write of the key or of the row leaves no row naming the key, and the key either
      // erased or in the cleanup table.
      ensures o.Refused? ==>
        && db.subs == old(db).subs && token !in Live(db.subs)
        && (token in db.cleanup || token !in store.keys)
    {
      hide Sound, Live, Progress, Continues, Committable, After, Refs;
      ghost var w := Stores();
      SoundKeys(w);
      o := PutNew(token, secret);
      ghost var v := Stores();
      ContinuesIsProgress(w, v);
      if !o.Done? { return; }
      var next := Installed(db, u, token, now, expires, now + 300000);
      InstalledCommits(v, u, token, now, expires, now + 300000);
      InstalledRow(db, u, token, now, expires, now + 300000);
      hide Installed;
      o := Commit(next);
      ProgressIsTransitive(w, v, Stores());
      ghost var x := Stores();
      if o.Raised? {
        o := Withdraw(token);
        ContinuesIsProgress(x, Stores());
        ProgressIsTransitive(w, x, Stores());
      } else if o.Done? {
        o := Reconcile();
        ContinuesIsProgress(x, Stores());
        ProgressIsTransitive(w, x, Stores());
        if o.Done? { InstalledRefIsLive(db, u, token); }
      }
    }

    /** The row that would name the key could not be written: retire the key and clean up. */
    method Withdraw(token: Ref) returns (o: Outcome)
      requires Valid() && token in issued && token !in Live(db.subs)
      modifies this`db, this`posts, this`forgets, this`replaced, store
      ensures Valid() && !o.Done? && Continues(old(Stores()), Stores())
      ensures db.subs == old(db).subs && db.deliveries == old(db).deliveries && posts == old(posts)
      ensures o.Refused? ==> token in db.cleanup || token !in store.keys
    {
      hide Sound, Live, Progress, Continues, Committable, After;
      ghost var w := Stores();
      RetireCommits(w, {token});
      o := Commit(Retire(db, {token}));
      ghost var v := Stores();
      if o.Done? {
        o := Reconcile();
        ContinuesIsTransitive(w, v, Stores());
        if !o.Crashed? { o := Refused; }
      }
    }

    method Subscribe(u: Url, secret: Secret, ttl: Option<int>, token: Ref, allowed: bool)
      returns (o: Outcome, now: int, ghost swept: int)
      requires Valid() && token !in issued
      modifies this`db, this`posts, this`forgets, this`replaced, this`clock, this`issued, this`verified
      modifies this`challenges, store
      ensures Valid() && Progress(old(Stores()), Stores()) && old(clock) <= now == clock
      ensures ForceLasts(old(Stores()), Stores())
      ensures issued <= old(issued) + {token}
      // Where nothing fails, only authorization, the lifetime and a live callback elsewhere decide.
      ensures store.calm ==> o.Done? || o.Refused?
      ensures (store.calm && allowed && (ttl.None? || ttl.value >= 1000)
               && forall v :: v in old(db).subs && v != u ==> Gone(old(db).subs[v], old(clock), true)) ==> o.Done?
      ensures o.Done? ==>
        && db.subs.Keys == {u} && Clean()
        && (u, secret) in verified
        && db.subs[u].current in store.keys && store.keys[db.subs[u].current] == secret
        && db.subs[u].active && now + 1000 <= db.subs[u].expires <= now + 86400000
      ensures o.Done? ==> old(clock) <= swept <= now && var left := LeftOf(old(db), u, swept);
        && GrantedRow(db.subs[u], left, HoldsKey(old(Stores()), left, secret), ttl, token, now)
        && Challenged(old(challenges), challenges, old(Stores()), left, secret, now)
      // Whatever happens, a callback that is not over keeps its row, and the rows of deliveries stay
      // as they are.
      ensures forall v :: v in old(db).subs && v !in db.subs ==> Gone(old(db).subs[v], now, allowed)
      ensures forall k :: k in db.deliveries ==> k in old(db).deliveries && db.deliveries[k] == old(db).deliveries[k]
      // A replaced key keeps signing for the rotation window, unless its row was already over.
      ensures u in old(db).subs && u in db.subs && db.subs[u].current != old(db).subs[u].current ==>
        || Gone(old(db).subs[u], now, allowed)
        || (db.subs[u].former == Some(old(db).subs[u].current) && db.subs[u].rotationUntil == now + ROTATION_MS)
    {
      hide Sound, Live, Maintained, Progress, Continues, SameTerms, Kept, Swept, LeftOf, HoldsKey, GrantedRow, Gone;
      ghost var w := Stores();
      o, now := Maintenance(allowed);
      swept := now;
      ghost var x := Stores();
      ContinuesIsProgress(w, x);
      MaintainedRows(w.db, now, now, allowed);
      if !o.Done? { SameTermsLast(w, x); return; }
      SweptLasts(w, x, x, swept);
      GoneStaysGone(w.db.subs, w.clock, swept);
      SweptLeaves(w.db, db, u, swept);
      o, now := Admit(u, secret, ttl, token);
      MaintainedRows(w.db, swept, now, allowed);
      HeldAfterSweep(w, x, u, secret, swept);
      ProgressIsTransitive(w, x, Stores());
      SweptLasts(w, x, Stores(), swept);
    }

    /** What follows the sweep: the lifetime is checked, then whether another callback is live. */
    method Admit(u: Url, secret: Secret, ttl: Option<int>, token: Ref) returns (o: Outcome, now: int)
      requires Valid() && token !in issued
      modifies this`db, this`posts, this`forgets, this`replaced, this`clock, this`issued, this`verified
      modifies this`challenges, store
      ensures Valid() && Progress(old(Stores()), Stores()) && old(clock) <= now == clock
      ensures issued <= old(issued) + {token}
      ensures store.calm ==> o.Done? || o.Refused?
      ensures store.calm && (ttl.None? || ttl.value >= 1000) && old(db).subs.Keys <= {u} ==> o.Done?
      ensures o.Done? ==>
        && db.subs.Keys == {u} && Clean()
        && (u, secret) in verified
        && db.subs[u].current in store.keys && store.keys[db.subs[u].current] == secret
        && db.subs[u].active && now + 1000 <= db.subs[u].expires <= now + 86400000
      ensures o.Done? ==> var prior := if u in old(db).subs then Some(old(db).subs[u]) else None;
        && GrantedRow(db.subs[u], prior, HoldsKey(old(Stores()), prior, secret), ttl, token, now)
        && Challenged(old(challenges), challenges, old(Stores()), prior, secret, now)
      ensures old(db).subs.Keys <= db.subs.Keys && db.deliveries == old(db).deliveries
      ensures u in old(db).subs && db.subs[u].current != old(db).subs[u].current ==>
        db.subs[u].former == Some(old(db).subs[u].current) && db.subs[u].rotationUntil == now + ROTATION_MS
    {
      hide Sound, Live, Progress, Continues, GrantedRow;
      ghost var x := Stores();
      QuietContinues(x, x);
      ContinuesIsProgress(x, x);
      now := clock;
      var millis := if ttl.None? then 3600000 else ttl.value;
      if millis < 1000 { o := Refused; return; }
      now := Now();
      ContinuesIsProgress(x, Stores());
      if u !in db.subs && db.subs != map[] { o := Refused; return; }
      ghost var y := Stores();
      o := Grant(u, secret, millis, token, now);
      if o.Done? && ttl.None? {
        ghost var prior := if u in x.db.subs then Some(x.db.subs[u]) else None;
        DefaultLifetime(db.subs[u], prior, HoldsKey(x, prior, secret), token, now);
      }
      ProgressIsTransitive(x, y, Stores());
    }

    /** Challenge the callback and write its row, on the same key or on a new one. */
    method Grant(u: Url, secret: Secret, millis: int, token: Ref, now: int) returns (o: Outcome)
      requires Valid() && token !in issued && 1000 <= millis && now == clock
      requires u in db.subs || db.subs == map[]
      modifies this`db, this`posts, this`forgets, this`replaced, this`issued, this`verified, this`challenges, store
      ensures Valid() && Progress(old(Stores()), Stores())
      ensures store.calm ==> o.Done?
      ensures issued <= old(issued) + {token}
      ensures o.Done? ==>
        && db.subs.Keys == {u} && Clean()
        && (u, secret) in verified
        && db.subs[u].current in store.keys && store.keys[db.subs[u].current] == secret
        && db.subs[u].active && now + 1000 <= db.subs[u].expires <= now + 86400000
      ensures o.Done? ==> var prior := if u in old(db).subs then Some(old(db).subs[u]) else None;
        && GrantedRow(db.subs[u], prior, HoldsKey(old(Stores()), prior, secret), Some(millis), token, now)
        && Challenged(old(challenges), challenges, old(Stores()), prior, secret, now)
      ensures old(db).subs.Keys <= db.subs.Keys && db.deliveries == old(db).deliveries
      ensures u in old(db).subs && db.subs[u].current != old(db).subs[u].current ==>
        db.subs[u].former == Some(old(db).subs[u].current) && db.subs[u].rotationUntil == now + ROTATION_MS
    {
      hide Sound, Live, Renewed, Installed, Progress, Continues, GrantedRow;
      ghost var w := Stores();
      var same;
      o, same := Prove(u, secret, now);
      ghost var v := Stores();
      ContinuesIsProgress(w, v);
      if !o.Done? { return; }
      o := WriteRow(u, secret, same, millis, token, now);
      ProgressIsTransitive(w, v, Stores());
    }

    /** The row of a key that was proven: renewed where it is the row's own, and new otherwise. */
    method WriteRow(u: Url, secret: Secret, same: bool, millis: int, token: Ref, now: int) returns (o: Outcome)
      requires Valid() && token !in issued && 1000 <= millis && now == clock && (u, secret) in verified
      requires u in db.subs || db.subs == map[]
      requires same ==> u in db.subs && db.subs[u].current in store.keys && store.keys[db.subs[u].current] == secret
      modifies this`db, this`posts, this`forgets, this`replaced, this`issued, store
      ensures Valid() && Progress(old(Stores()), Stores())
      ensures store.calm ==> o.Done?
      ensures issued <= old(issued) + {token}
      ensures o.Done? ==>
        && db.subs.Keys == {u} && Clean()
        && db.subs[u].current in store.keys && store.keys[db.subs[u].current] == secret
        && db.subs[u].active && now + 1000 <= db.subs[u].expires <= now + 86400000
      ensures o.Done? ==> var prior := if u in old(db).subs then Some(old(db).subs[u]) else None;
        GrantedRow(db.subs[u], prior, same, Some(millis), token, now)
      ensures old(db).subs.Keys <= db.subs.Keys && db.deliveries == old(db).deliveries
      ensures u in old(db).subs && db.subs[u].current != old(db).subs[u].current ==>
        db.subs[u].former == Some(old(db).subs[u].current) && db.subs[u].rotationUntil == now + ROTATION_MS
    {
      hide Sound, Live, Renewed, Installed, Progress, Continues, GrantedRow;
      var expires := now + (if millis < 86400000 then millis else 86400000);
      ghost var v := Stores();
      if same {
        RenewedRow(db, u, expires, now + 300000);
        RenewedIsGranted(db, u, Some(millis), token, now, expires);
        o := Renew(u, expires, now + 300000);
        ContinuesIsProgress(v, Stores());
      } else {
        InstalledRow(db, u, token, now, expires, now + 300000);
        InstalledIsGranted(db, u, Some(millis), token, now, expires);
        o := Install(u, secret, token, now, expires);
      }
      if o.Done? { SoundSub(Stores(), u); }
    }

    /** Decide whether the key is the row's own, and have the endpoint answer a challenge unless
        it answered one for this key lately. */
    method Prove(u: Url, secret: Secret, now: int) returns (o: Outcome, same: bool)
      requires Valid()
      modifies this`verified, this`challenges
      ensures Valid() && Continues(old(Stores()), Stores())
      ensures store.calm ==> o.Done?
      ensures o.Done? ==> (u, secret) in verified
      // Another key, an inactive row or a lapsed verification takes a new answer.
      ensures o.Done? ==>
        if u in db.subs && db.subs[u].active && same && now < db.subs[u].verifiedUntil
        then challenges == old(challenges) else challenges == old(challenges) + 1
      ensures o.Done? && u !in db.subs ==> !same
      ensures o.Done? && u in db.subs ==>
        db.subs[u].current in store.keys && same == (store.keys[db.subs[u].current] == secret)
    {
      hide Sound, Live, Continues;
      var proven, held := false, 0;
      o, same := Done, false;
      QuietContinues(Stores(), Stores());
      if u in db.subs {
        SoundSub(Stores(), u);
        o, held := store.Get(db.subs[u].current);
        if !o.Done? { return; }
        proven := db.subs[u].active && held == secret && now < db.subs[u].verifiedUntil;
      }
      if !proven {
        o := Challenge(u, secret);
        if !o.Done? { return; }
      }
      if u in db.subs {
        o, held := store.Get(db.subs[u].current);
        if !o.Done? { return; }
        same := held == secret;
      }
    }

    method Unsubscribe(u: Url, allowed: bool) returns (o: Outcome)
      requires Valid()
      modifies this`db, this`posts, this`forgets, this`replaced, this`clock, store
      ensures Valid() && Continues(old(Stores()), Stores())
      ensures SameTerms(old(db).subs, db.subs)
      ensures store.calm ==> o == if allowed then Done else Refused
      ensures o.Done? ==> u !in db.subs && Clean()
    {
      hide Sound, Live, Progress, Continues, Committable, After;
      ghost var w := Stores();
      var now;
      o, now := Maintenance(allowed);
      if !o.Done? { return; }
      ghost var v := Stores();
      ForgetCommits(v, u);
      o := Commit(Forget(db, u));
      ghost var x := Stores();
      ContinuesIsTransitive(w, v, x);
      if !o.Done? { return; }
      o := Reconcile();
      ContinuesIsTransitive(w, x, Stores());
    }

    /** A pending delivery is worth a post: never attempted, or due for one more try. */
    method Ready(e: Event, allowed: bool) returns (o: Outcome, ready: bool, swept: int, now: int)
      requires Valid()
      modifies this`db, this`posts, this`forgets, this`replaced, this`clock, store
      ensures Valid() && Continues(old(Stores()), Stores()) && old(clock) <= swept <= now == clock
      ensures SameTerms(old(db).subs, db.subs)
      ensures store.calm ==> o == if allowed then Done else Refused
      ensures o.Done? ==>
        Clean() && db == Maintained(old(db), swept, true).(cleanup := {}) && posts == Kept(old(posts), db)
      ensures o.Done? ==> (ready <==> exists u :: u in Targets(db, now) && Eligible(db, (u, e), now))
      ensures o.Done? ==> (ready <==> exists u :: Due(old(db), u, e, now))
    {
      hide Sound, Live, Maintained, Progress, Continues;
      ghost var w := Stores();
      ready := false;
      o, swept := Maintenance(allowed);
      now := swept;
      if !o.Done? { return; }
      ghost var v := Stores();
      now := Now();
      ContinuesIsTransitive(w, v, Stores());
      ready := exists u :: u in Targets(db, now) && Eligible(db, (u, e), now);
      ReadyIsDue(w.db, db, swept, e, now);
    }

    /** A store outage refuses before anything is persisted or sent. */
    method FetchKeys(u: Url, now: int) returns (o: Outcome, keys: seq<Secret>)
      requires u in db.subs && Refs(db.subs[u]) <= store.keys.Keys
      ensures o.Done? ==> keys == SigningKeys(db.subs[u], store.keys, now)
      ensures store.calm ==> o.Done?
    {
      var sub := db.subs[u];
      var key;
      o, key := store.Get(sub.current);
      keys := [key];
      if o.Done? && sub.former.Some? && sub.rotationUntil > now {
        o, key := store.Get(sub.former.value);
        keys := keys + [key];
      }
    }

    /** One attempt for every eligible subscription; there is at most one. */
    method Deliver(e: Event, body: Body, allowed: bool)
      returns (o: Outcome, statuses: seq<int>, swept: int, now: int)
      requires Valid()
      modifies this`db, this`posts, this`forgets, this`replaced, this`clock, store
      ensures Valid() && Continues(old(Stores()), Stores()) && old(clock) <= swept <= now == clock
      ensures SameTerms(old(db).subs, db.subs)
      ensures store.calm ==> o == if allowed then Done else Refused
      ensures o.Done? ==> var m := Maintained(old(db), swept, true).(cleanup := {});
        && (Targets(m, now) == {} ==> statuses == [] && db == m)
        && (forall u :: u in Targets(m, now) ==>
              if Eligible(m, (u, e), now)
              then |statuses| == 1 && DeliveredRows(m, db, (u, e), body, now, statuses[0])
              else statuses == [] && db == m)
      // What is due is attempted and answered; nothing else is.
      ensures o.Done? ==> |statuses| <= 1 && (statuses != [] <==> exists u :: Due(old(db), u, e, now))
      ensures o.Done? && statuses == [] ==> Swept(old(db), db, swept)
      ensures o.Done? && statuses != [] ==>
        forall u :: Due(old(db), u, e, now) ==> DueAnswered(old(db), db, u, e, body, now, statuses[0])
    {
      hide Sound, Live, Maintained, DeliveredRows, Eligible, Progress, Continues;
      ghost var w := Stores();
      statuses := [];
      o, swept := Maintenance(allowed);
      now := swept;
      if !o.Done? { return; }
      ghost var v := Stores();
      now := Now();
      ContinuesIsTransitive(w, v, Stores());
      ghost var m := db;
      var rows := Targets(db, now);
      while rows != {}
        invariant Valid() && Continues(w, Stores()) && now == clock
        invariant rows == {} || (rows == Targets(m, now) && db == m && statuses == [])
        invariant o.Done? && SameTerms(w.db.subs, db.subs)
        invariant rows == {} && Targets(m, now) == {} ==> statuses == [] && db == m
        invariant rows == {} ==> forall u :: u in Targets(m, now) ==>
          if Eligible(m, (u, e), now)
          then |statuses| == 1 && DeliveredRows(m, db, (u, e), body, now, statuses[0])
          else statuses == [] && db == m
        decreases rows
      {
        var u :| u in rows;
        ghost var x := Stores();
        SoundSub(x, u);
        var attempted, status;
        o, attempted, status := DeliverTo(u, e, body, now);
        ContinuesIsTransitive(w, x, Stores());
        if !o.Done? { return; }
        if attempted {
          statuses := statuses + [status];
        }
        rows := rows - {u};
      }
      DueIsAnswered(w.db, m, db, swept, e, body, now, statuses);
    }

    /** The attempt is in the database before it is on the wire. */
    method Persist(k: (Url, Event), body: Body, now: int) returns (o: Outcome, keys: seq<Secret>)
      requires Valid() && k.0 in db.subs && Refs(db.subs[k.0]) <= store.keys.Keys && Eligible(db, k, now)
      modifies this`db, this`posts, this`forgets, this`replaced
      ensures Valid() && Continues(old(Stores()), Stores()) && posts == old(posts)
      ensures db == old(db) || db == Attempted(old(db), k, now, body)
      ensures store.calm ==> o.Done?
      ensures o.Done? ==>
        && db == Attempted(old(db), k, now, body) && PostDue(Stores(), k, now)
        && keys == SigningKeys(old(db).subs[k.0], store.keys, now)
    {
      hide Sound, Live, Backoff, Progress, Continues, Committable, After;
      QuietContinues(Stores(), Stores());
      o, keys := FetchKeys(k.0, now);
      if !o.Done? { return; }
      AttemptedCommits(Stores(), k, now, body);
      o := Commit(Attempted(db, k, now, body));
    }

    /** One attempt for one subscription row: persist, post, record the answer. */
    method DeliverTo(u: Url, e: Event, body: Body, now: int) returns (o: Outcome, attempted: bool, status: int)
      requires Valid() && u in db.subs
      modifies this`db, this`posts, this`forgets, this`replaced, store
      ensures Valid() && Continues(old(Stores()), Stores())
      ensures SameTerms(old(db).subs, db.subs)
      ensures store.calm ==> o.Done?
      // Accepted, failed, exhausted and early rows are left alone.
      ensures !Eligible(old(db), (u, e), now) ==> o.Done? && !attempted && db == old(db) && posts == old(posts)
      ensures o.Done? ==> attempted == Eligible(old(db), (u, e), now)
      ensures o.Done? && old(db).subs[u].active && now < old(db).subs[u].expires ==>
        attempted == Due(old(db), u, e, now)
      ensures o.Done? && attempted && status != 410 ==> AnsweredRows(old(db), db, (u, e), body, now, status)
      ensures o.Done? && attempted && status == 410 ==> u !in db.subs
      ensures old(Refs(db.subs[u]) <= store.keys.Keys)
      ensures o.Done? && attempted ==> Clean() && DeliveredRows(old(db), db, (u, e), body, now, status)
      ensures o.Done? && attempted && status != 410 ==>
        posts == old(posts)[(u, e) := PostsOf(old(Stores()), (u, e)) + [ThePost(old(Stores()), (u, e), body, now)]]
      ensures old(SignedPost(Stores(), ThePost(Stores(), (u, e), body, now), (u, e), body, now))
      // Whatever happened, the history of this row gained at most this one post.
      ensures posts == old(posts) || u !in db.subs ||
        posts == old(posts)[(u, e) := PostsOf(old(Stores()), (u, e)) + [ThePost(old(Stores()), (u, e), body, now)]]
    {
      hide Sound, Live, Backoff, Progress, Continues, Eligible, ThePost, DeliveredRows, SameTerms;
      var k := (u, e);
      attempted, status := false, 0;
      SoundSub(Stores(), u);
      QuietContinues(Stores(), Stores());
      SameTermsAtOnce(db.subs);
      if db.subs[u].active && now < db.subs[u].expires { EligibleIsDue(db, u, e, now); }
      ThePostIsSigned(Stores(), k, body, now);
      hide Due, AnsweredRows, SignedPost;
      o := Done;
      if Eligible(db, k, now) {
        o, attempted, status := TryOnce(k, body, now);
      }
    }

    /** Persist, post, record the answer. */
    method TryOnce(k: (Url, Event), body: Body, now: int) returns (o: Outcome, attempted: bool, status: int)
      requires Valid() && k.0 in db.subs && Refs(db.subs[k.0]) <= store.keys.Keys && Eligible(db, k, now)
      modifies this`db, this`posts, this`forgets, this`replaced, store
      ensures Valid() && Continues(old(Stores()), Stores())
      ensures SameTerms(old(db).subs, db.subs)
      ensures store.calm ==> o.Done?
      ensures o.Done? ==> attempted && Clean() && DeliveredRows(old(db), db, k, body, now, status)
      ensures o.Done? && status != 410 ==> AnsweredRows(old(db), db, k, body, now, status)
      ensures o.Done? && status == 410 ==> k.0 !in db.subs
      ensures SignedPost(old(Stores()), ThePost(old(Stores()), k, body, now), k, body, now)
      ensures o.Done? && status != 410 ==>
        posts == old(posts)[k := PostsOf(old(Stores()), k) + [ThePost(old(Stores()), k, body, now)]]
      ensures posts == old(posts) || k.0 !in db.subs ||
        posts == old(posts)[k := PostsOf(old(Stores()), k) + [ThePost(old(Stores()), k, body, now)]]
    {
      hide Sound, Live, Backoff, Progress, Continues, Eligible;
      ghost var w := Stores();
      attempted, status := false, 0;
      ThePostIsSigned(w, k, body, now);
      EligibleHasAnAttempt(db, k, now);
      hide Tried, AnsweredRows, SignedPost;
      var keys;
      o, keys := Persist(k, body, now);
      if !o.Done? { return; }
      ghost var v := Stores();
      ghost var former := FormerSigner(db.subs[k.0], now);
      SigningKeysAreVerified(v, k.0, now);
      hide FormerSigner, SigningKeys;
      o, status := Send(k, now, keys, former);
      ghost var x := Stores();
      ContinuesIsTransitive(w, v, x);
      if !o.Done? { return; }
      attempted := true;
      o := RecordAnswer(k, status);
      ContinuesIsTransitive(w, x, Stores());
      if o.Done? && status != 410 { DeliveredIsAnswered(w.db, db, k, body, now, status); }
    }

    /** The one post that the persisted attempt announces. */
    method Send(k: (Url, Event), now: int, keys: seq<Secret>, ghost former: Option<Ref>)
      returns (o: Outcome, status: int)
      requires Valid() && k in db.deliveries && db.deliveries[k].state.Retry? && PostDue(Stores(), k, now)
      requires |keys| == (if former.Some? then 2 else 1) && forall key :: key in keys ==> (k.0, key) in verified
      requires former.Some? ==> former.value in replaced && now < replaced[former.value] + ROTATION_MS
      modifies this`posts
      ensures Valid() && Continues(old(Stores()), Stores())
      ensures posts == Posted(old(Stores()), k, now, keys, former).posts
      ensures store.calm ==> o.Done?
    {
      hide Sound, Continues, PostDue;
      PostedKeepsSound(Stores(), k, now, keys, former);
      PostedContinues(Stores(), k, now, keys, former);
      posts := Posted(Stores(), k, now, keys, former).posts;
      o, status := HttpPost(store.calm);
    }

    method RecordAnswer(k: (Url, Event), status: int) returns (o: Outcome)
      requires Valid() && k in db.deliveries && db.deliveries[k].state.Retry?
      modifies this`db, this`posts, this`forgets, this`replaced, store
      ensures Valid() && Continues(old(Stores()), Stores())
      ensures SameTerms(old(db).subs, db.subs)
      ensures store.calm ==> o.Done?
      ensures posts == old(posts) || k.0 !in db.subs
      ensures o.Done? ==> Clean()
      ensures o.Done? && status == 410 ==> db.subs == old(db).subs - {k.0}
      ensures o.Done? && status != 410 ==>
        && db == Settled(old(db), k, StateAfter(status, old(db).deliveries[k].attempts)).(cleanup := {})
        && posts == old(posts)
    {
      hide Sound, Live, Backoff, Progress, Continues, Committable, After;
      ghost var w := Stores();
      var state := StateAfter(status, db.deliveries[k].attempts);
      var next := Settled(db, k, state);
      if status == 410 {
        next := Forget(next, k.0);
        GoneCommits(w, k, state);
      } else {
        SettledCommits(w, k, state);
      }
      o := Commit(next);
      ghost var v := Stores();
      if o.Done? {
        o := Reconcile();
        ContinuesIsTransitive(w, v, Stores());
      }
    }
  }

  function Targets(db: Db, now: int): set<Url> {
    set u | u in db.subs && db.subs[u].active && now < db.subs[u].expires
  }

  /** The post of one attempt, as decided from the stores before it. */
  function ThePost(w: World, k: (Url, Event), body: Body, now: int): Post
    requires k.0 in w.db.subs && Refs(w.db.subs[k.0]) <= w.keys.Keys
  {
    var row := AttemptRow(w.db, k, now, body);
    Post(now, row.attempts, row.body, SigningKeys(w.db.subs[k.0], w.keys, now), FormerSigner(w.db.subs[k.0], now))
  }

  function StateAfter(status: int, attempt: nat): State {
    if 200 <= status < 300 then Accepted
    else if (status == 0 || status == 429 || 500 <= status < 600) && attempt < 3 then Retry
    else Failed
  }

  /** The tables after an answered attempt; 410 forgets the subscription. */
  predicate DeliveredRows(before: Db, db: Db, k: (Url, Event), body: Body, now: int, status: int) {
    if status == 410 then db.subs == before.subs - {k.0}
    else
      var row := AttemptRow(before, k, now, body);
      && db.subs == before.subs
      && db.deliveries == before.deliveries[k := row.(state := StateAfter(status, row.attempts))]
  }

  lemma ReadyIsDue(before: Db, after: Db, swept: int, e: Event, now: int)
    requires Swept(before, after, swept) && swept <= now
    ensures (exists u :: u in Targets(after, now) && Eligible(after, (u, e), now)) <==>
            exists u :: Due(before, u, e, now)
  {
    if u :| u in Targets(after, now) && Eligible(after, (u, e), now) {
      EligibleIsDue(after, u, e, now);
      DueAfterSweep(before, after, swept, u, e, now);
    }
    if u :| Due(before, u, e, now) {
      DueAfterSweep(before, after, swept, u, e, now);
      EligibleIsDue(after, u, e, now);
      assert u in Targets(after, now);
    }
  }

  lemma DeliveredIsAnswered(before: Db, after: Db, k: (Url, Event), body: Body, now: int, status: int)
    requires DeliveredRows(before, after, k, body, now, status) && status != 410 && Tried(before, k) <= 2
    ensures AnsweredRows(before, after, k, body, now, status)
  {
    BackoffSays();
    hide Backoff;
  }

  lemma DueIsAnswered(before: Db, m: Db, after: Db, swept: int, e: Event, body: Body, now: int, statuses: seq<int>)
    requires Swept(before, m, swept) && swept <= now
    requires Targets(m, now) == {} ==> statuses == [] && after == m
    requires forall u :: u in Targets(m, now) ==>
      if Eligible(m, (u, e), now) then |statuses| == 1 && DeliveredRows(m, after, (u, e), body, now, statuses[0])
      else statuses == [] && after == m
    ensures |statuses| <= 1 && (statuses != [] <==> exists u :: Due(before, u, e, now))
    ensures statuses == [] ==> after == m
    ensures statuses != [] ==>
      forall u :: Due(before, u, e, now) ==> DueAnswered(before, after, u, e, body, now, statuses[0])
  {
    ReadyIsDue(before, m, swept, e, now);
    hide Swept, DueAnswered, Eligible, DeliveredRows;
    forall u | Due(before, u, e, now) && statuses != []
      ensures DueAnswered(before, after, u, e, body, now, statuses[0])
    {
      OneDueIsAnswered(before, m, after, swept, u, e, body, now, statuses[0]);
    }
  }

  lemma OneDueIsAnswered(before: Db, m: Db, after: Db, swept: int, u: Url, e: Event, body: Body, now: int, status: int)
    requires Swept(before, m, swept) && swept <= now && Due(before, u, e, now)
    requires u in Targets(m, now) && Eligible(m, (u, e), now) ==> DeliveredRows(m, after, (u, e), body, now, status)
    ensures DueAnswered(before, after, u, e, body, now, status)
  {
    DueAfterSweep(before, m, swept, u, e, now);
    EligibleIsDue(m, u, e, now);
    assert u in Targets(m, now);
    if status != 410 { DeliveredIsAnswered(m, after, (u, e), body, now, status); }
  }

  lemma ThePostIsSigned(w: World, k: (Url, Event), body: Body, now: int)
    requires k.0 in w.db.subs && Refs(w.db.subs[k.0]) <= w.keys.Keys
    ensures SignedPost(w, ThePost(w, k, body, now), k, body, now)
  {
  }

  lemma InstalledRefIsLive(db: Db, u: Url, ref: Ref)
    requires u in db.subs && db.subs[u].current == ref
    ensures ref in Live(db.subs)
  {
    assert ref in Refs(db.subs[u]);
  }

  // ---- every run ---------------------------------------------------------------------------

  datatype Call =
    | Maintain
    | SubscribeTo(url: Url, secret: Secret, ttl: Option<int>, token: Ref)
    | UnsubscribeFrom(url: Url)
    | AskReady(event: Event)
    | DeliverEvent(event: Event, body: Body)

  ghost predicate TokensFresh(calls: seq<Call>, issued: set<Ref>) {
    && (forall i :: 0 <= i < |calls| && calls[i].SubscribeTo? ==> calls[i].token !in issued)
    && (forall i, j :: 0 <= i < j < |calls| && calls[i].SubscribeTo? && calls[j].SubscribeTo? ==>
          calls[i].token != calls[j].token)
  }

  /** Any calls in any order, each under any authorization, any faults, and a new process over
      the same stores after every crash: the invariant holds after each, and what `Progress` says
      holds from the first moment of the run to the last. */
  method Serve(first: Connection, calls: seq<Call>) returns (c: Connection)
    requires first.Valid() && TokensFresh(calls, first.issued)
    modifies first, first.store
    ensures c.Valid() && c.store == first.store
    ensures Progress(old(first.Stores()), c.Stores()) && ForceLasts(old(first.Stores()), c.Stores())
  {
    hide Sound, Progress, Continues, ForceLasts, SameTerms;
    c := first;
    QuietContinues(c.Stores(), c.Stores());
    ContinuesIsProgress(c.Stores(), c.Stores());
    ForceLastsItself(c.Stores());
    for i := 0 to |calls|
      invariant c.Valid() && c.store == first.store
      invariant Progress(old(first.Stores()), c.Stores()) && ForceLasts(old(first.Stores()), c.Stores())
      invariant c == first || fresh(c)
      invariant forall j :: i <= j < |calls| && calls[j].SubscribeTo? ==> calls[j].token !in c.issued
    {
      var allowed: bool := *;
      ghost var w := c.Stores();
      var o := Answer(c, calls[i], allowed);
      ProgressIsTransitive(old(first.Stores()), w, c.Stores());
      ForceLastsIsTransitive(old(first.Stores()), w, c.Stores());
      if o.Crashed? {
        c := new Connection(c.store, c.db, c.clock, c.Stores());
      }
    }
  }

  method Answer(c: Connection, call: Call, allowed: bool) returns (o: Outcome)
    requires c.Valid() && (call.SubscribeTo? ==> call.token !in c.issued)
    modifies c, c.store
    ensures c.Valid() && Progress(old(c.Stores()), c.Stores()) && ForceLasts(old(c.Stores()), c.Stores())
    ensures !call.SubscribeTo? ==> Continues(old(c.Stores()), c.Stores())
    ensures c.issued <= old(c.issued) + if call.SubscribeTo? then {call.token} else {}
  {
    hide Sound, Progress, Continues, ForceLasts, SameTerms;
    ghost var w := c.Stores();
    var now, swept;
    ghost var at;
    match call {
      case Maintain => o, now := c.Maintenance(allowed);
      case SubscribeTo(u, secret, ttl, token) => o, now, at := c.Subscribe(u, secret, ttl, token, allowed);
      case UnsubscribeFrom(u) => o := c.Unsubscribe(u, allowed);
      case AskReady(e) =>
        var ready;
        o, ready, swept, now := c.Ready(e, allowed);
      case DeliverEvent(e, body) =>
        var statuses;
        o, statuses, swept, now := c.Deliver(e, body, allowed);
    }
    if !call.SubscribeTo? {
      ContinuesIsProgress(w, c.Stores());
      SameTermsLast(w, c.Stores());
    }
  }
}
