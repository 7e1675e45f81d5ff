/** The two stores of the Events connection, as values: the SQLite tables and the external
    key store. They share no transaction, so what keeps them consistent is an invariant that
    holds between any two store operations. Each lemma here is one such operation. */
module EventStore {

  import opened Wrappers

  /** One principal and session, so the subscription id (a hash that includes the URL) stands
      for the URL. Key references are random tokens inside the connection's namespace. */
  type Url = nat
  type Ref = nat
  type Secret = nat
  type Event = nat
  type Body = nat

  datatype Sub = Sub(
    expires: int,
    current: Ref,
    former: Option<Ref>,
    rotationUntil: int,
    verifiedUntil: int,
    active: bool)

  datatype State = Retry | Accepted | Failed

  datatype Row = Row(attempts: nat, nextAttempt: int, state: State, body: Body)

  /** The committed content of the three tables. */
  datatype Db = Db(
    subs: map<Url, Sub>,
    deliveries: map<(Url, Event), Row>,
    cleanup: set<Ref>)

  /** One HTTP attempt, with the clock reading it was decided on, and the replaced key that signed
      beside the current one, if one did. */
  datatype Post = Post(at: int, attempt: nat, body: Body, keys: seq<Secret>, former: Option<Ref>)

  /** Both stores and the clock, and the history the promises speak about: every reference ever
      drawn, every (URL, secret) pair that answered a challenge, for each delivery row the posts
      made since it was created, how often each subscription was forgotten, and the clock reading
      at which a key was replaced. */
  datatype World = World(
    db: Db,
    keys: map<Ref, Secret>,
    issued: set<Ref>,
    verified: set<(Url, Secret)>,
    posts: map<(Url, Event), seq<Post>>,
    forgets: map<Url, nat>,
    replaced: map<Ref, int>,
    clock: int)

  const ROTATION_MS := 60000

  function Pow2(n: nat): nat {
    if n == 0 then 1 else 2 * Pow2(n - 1)
  }

  /** How long after attempt `n` the next one may start. Times are in milliseconds. */
  function Backoff(n: nat): nat {
    1000 * Pow2(n)
  }

  function Refs(sub: Sub): set<Ref> {
    {sub.current} + if sub.former.Some? then {sub.former.value} else {}
  }

  function Live(subs: map<Url, Sub>): set<Ref> {
    set u, r | u in subs && r in Refs(subs[u]) :: r
  }

  // ---- the invariant ---------------------------------------------------------------------

  ghost predicate OneRow(subs: map<Url, Sub>) {
    forall u, v :: u in subs && v in subs ==> u == v
  }

  ghost predicate KeysSound(w: World) {
    && Live(w.db.subs) <= w.keys.Keys
    && Live(w.db.subs) !! w.db.cleanup
    && w.keys.Keys <= w.issued && w.db.cleanup <= w.issued && w.replaced.Keys <= w.issued
  }

  /** The replaced key signs for the rotation window after its replacement, and no longer. */
  ghost predicate WindowSound(sub: Sub, replaced: map<Ref, int>) {
    && sub.current !in replaced
    && (sub.former.Some? ==>
          sub.former.value in replaced && sub.rotationUntil <= replaced[sub.former.value] + ROTATION_MS)
  }

  ghost predicate SubSound(w: World, u: Url)
    requires u in w.db.subs && Live(w.db.subs) <= w.keys.Keys
  {
    var sub := w.db.subs[u];
    assert Refs(sub) <= Live(w.db.subs);
    && (u, w.keys[sub.current]) in w.verified
    && (sub.former.Some? ==> sub.former.value != sub.current && (u, w.keys[sub.former.value]) in w.verified)
    && (sub.former.None? ==> sub.rotationUntil == 0)
    && WindowSound(sub, w.replaced)
  }

  /** The posts of one row: at most as many as its attempts, all with its body, each retry
      2^attempt seconds or more after the attempt before it, every key verified, and a replaced
      key used only inside its window. */
  ghost predicate PostsSound(posts: seq<Post>, row: Row, u: Url, verified: set<(Url, Secret)>,
          replaced: map<Ref, int>) {
    && |posts| <= row.attempts
    && (forall i :: 0 <= i < |posts| ==>
          && 1 <= posts[i].attempt <= row.attempts
          && posts[i].body == row.body
          && KeysInWindow(posts[i], replaced)
          && (forall key :: key in posts[i].keys ==> (u, key) in verified)
          && posts[i].at + Backoff(posts[i].attempt) <= row.nextAttempt)
    && (forall i, j :: 0 <= i < j < |posts| ==>
          && posts[i].attempt < posts[j].attempt
          && posts[i].at + Backoff(posts[i].attempt) <= posts[j].at)
  }

  /** One key, or two of which the second was replaced less than the rotation window before. */
  ghost predicate KeysInWindow(post: Post, replaced: map<Ref, int>) {
    && |post.keys| == (if post.former.Some? then 2 else 1)
    && (post.former.Some? ==>
          post.former.value in replaced && post.at < replaced[post.former.value] + ROTATION_MS)
  }

  ghost predicate DeliveriesSound(w: World) {
    && (forall k :: k in w.db.deliveries ==> k.0 in w.db.subs && 1 <= w.db.deliveries[k].attempts <= 3)
    && (forall k :: k in w.posts ==>
          k in w.db.deliveries && PostsSound(w.posts[k], w.db.deliveries[k], k.0, w.verified, w.replaced))
  }

  ghost predicate Sound(w: World) {
    && OneRow(w.db.subs)
    && KeysSound(w)
    && (forall u :: u in w.db.subs ==> SubSound(w, u))
    && DeliveriesSound(w)
  }

  lemma SoundKeys(w: World)
    requires Sound(w)
    ensures KeysSound(w)
  {
  }

  lemma KeptAll(w: World, next: Db)
    requires Sound(w) && next.deliveries == w.db.deliveries
    ensures Kept(w.posts, next) == w.posts
  {
  }

  /** A change of delivery rows and posts alone. */
  lemma SameKeysSound(w: World, w': World)
    requires Sound(w) && DeliveriesSound(w')
    requires w' == w.(db := w.db.(deliveries := w'.db.deliveries), posts := w'.posts)
    ensures Sound(w')
  {
    forall u | u in w.db.subs ensures SubSound(w', u) {
      assert SubSound(w, u);
    }
  }

  lemma SoundSub(w: World, u: Url)
    requires Sound(w) && u in w.db.subs
    ensures Refs(w.db.subs[u]) <= Live(w.db.subs) <= w.keys.Keys
    ensures SubSound(w, u)
    ensures w.db.subs.Keys == {u}
  {
  }

  // ---- what a transaction does to the history ---------------------------------------------------

  function Epoch(w: World, u: Url): nat {
    if u in w.forgets then w.forgets[u] else 0
  }

  /** One more forget for each subscription whose row goes. */
  function Dropped(forgets: map<Url, nat>, before: map<Url, Sub>, next: map<Url, Sub>): map<Url, nat> {
    forgets + map u | u in before && u !in next :: (if u in forgets then forgets[u] else 0) + 1
  }

  function Replacements(before: map<Url, Sub>, next: map<Url, Sub>, clock: int): map<Ref, int> {
    map u | u in before && u in next && before[u].current != next[u].current :: before[u].current := clock
  }

  /** The stores after a committed transaction. */
  function After(w: World, next: Db): World {
    w.(db := next,
       posts := Kept(w.posts, next),
       forgets := Dropped(w.forgets, w.db.subs, next.subs),
       replaced := Replacements(w.db.subs, next.subs, w.clock) + w.replaced)
  }

  /** A transaction that changes no current key. */
  ghost predicate SameCurrents(before: map<Url, Sub>, next: map<Url, Sub>) {
    forall u :: u in before && u in next ==> before[u].current == next[u].current
  }

  lemma AfterSameCurrents(w: World, next: Db)
    requires SameCurrents(w.db.subs, next.subs)
    ensures After(w, next) == w.(db := next, posts := Kept(w.posts, next), forgets := After(w, next).forgets)
  {
    hide Kept, Dropped;
    assert Replacements(w.db.subs, next.subs, w.clock) == map[];
  }

  lemma AfterKeepsSound(w: World, next: Db)
    requires SameCurrents(w.db.subs, next.subs) && Sound(w.(db := next, posts := Kept(w.posts, next)))
    ensures Sound(After(w, next))
  {
    hide *;
    AfterSameCurrents(w, next);
    ForgetsAreHistory(w.(db := next, posts := Kept(w.posts, next)), After(w, next).forgets, w.clock);
  }

  /** Neither the count of forgets nor the clock bears on the invariant. */
  lemma ForgetsAreHistory(w: World, forgets: map<Url, nat>, clock: int)
    requires Sound(w)
    ensures Sound(w.(forgets := forgets, clock := clock))
  {
    var v := w.(forgets := forgets, clock := clock);
    forall u | u in v.db.subs ensures SubSound(v, u) {
      assert SubSound(w, u);
    }
  }

  /** A settled row stays as it is while its subscription lasts; a row under way keeps its body and
      only gains attempts. */
  ghost predicate RowsFollow(before: Db, next: Db) {
    forall k :: k in before.deliveries && k.0 in next.subs ==>
      k in next.deliveries && RowFollows(before.deliveries[k], next.deliveries[k])
  }

  predicate RowFollows(a: Row, b: Row) {
    b.body == a.body && a.attempts <= b.attempts && (!a.state.Retry? ==> b == a)
  }

  /** The row and its posts, `w` being earlier. A settled row gains no post. */
  ghost predicate DeliveryFollows(w: World, v: World, k: (Url, Event))
    requires k in w.db.deliveries
  {
    && k in v.db.deliveries && RowFollows(w.db.deliveries[k], v.db.deliveries[k])
    && PostsOf(w, k) <= PostsOf(v, k)
    && (!w.db.deliveries[k].state.Retry? ==> PostsOf(v, k) == PostsOf(w, k))
  }

  /** What holds between any two moments of a run. Until its subscription is forgotten, an accepted
      or failed delivery is final, and the posts of any delivery only grow. A key that is replaced
      is dated then, once and for all. */
  ghost predicate Progress(w: World, v: World) {
    && w.clock <= v.clock
    && (forall u :: Epoch(w, u) <= Epoch(v, u))
    && (forall k :: k in w.db.deliveries && Epoch(v, k.0) == Epoch(w, k.0) ==> DeliveryFollows(w, v, k))
    && (forall r :: r in w.replaced ==> r in v.replaced && v.replaced[r] == w.replaced[r])
    && (forall r :: r in v.replaced && r !in w.replaced ==> w.clock <= v.replaced[r] <= v.clock)
    && (forall u :: u in w.db.subs && Epoch(v, u) == Epoch(w, u) ==>
          u in v.db.subs && (v.db.subs[u].current == w.db.subs[u].current || w.db.subs[u].current in v.replaced))
  }

  lemma ProgressIsTransitive(w: World, v: World, x: World)
    requires Progress(w, v) && Progress(v, x)
    ensures Progress(w, x)
  {
    forall u | Epoch(x, u) == Epoch(w, u) ensures Epoch(v, u) == Epoch(w, u) {
      assert Epoch(w, u) <= Epoch(v, u) <= Epoch(x, u);
    }
    forall k | k in w.db.deliveries && Epoch(x, k.0) == Epoch(w, k.0) ensures DeliveryFollows(w, x, k) {
      assert DeliveryFollows(w, v, k) && DeliveryFollows(v, x, k);
    }
  }

  /** Progress in which no subscription is new: those still there were never forgotten. */
  ghost predicate Continues(w: World, v: World) {
    Progress(w, v) && forall u :: u in v.db.subs ==> u in w.db.subs && Epoch(v, u) == Epoch(w, u)
  }

  lemma ContinuesIsTransitive(w: World, v: World, x: World)
    requires Continues(w, v) && Continues(v, x)
    ensures Continues(w, x)
  {
    ProgressIsTransitive(w, v, x);
    hide Progress, Epoch;
  }

  lemma ContinuesIsProgress(w: World, v: World)
    requires Continues(w, v)
    ensures Progress(w, v)
  {
  }

  /** Steps that leave the tables and their history alone. */
  lemma QuietContinues(w: World, v: World)
    requires v.db.subs == w.db.subs && v.db.deliveries == w.db.deliveries && v.posts == w.posts
    requires v.forgets == w.forgets && v.replaced == w.replaced && w.clock <= v.clock
    ensures Continues(w, v)
  {
  }

  lemma CommitProgresses(w: World, next: Db)
    requires Sound(w) && RowsFollow(w.db, next)
    ensures Progress(w, After(w, next))
  {
    var v := After(w, next);
    assert v.clock == w.clock && v.db == next;
    CommitForgets(w, next);
    CommitReplaces(w, next);
    forall k | k in w.db.deliveries && Epoch(v, k.0) == Epoch(w, k.0) ensures DeliveryFollows(w, v, k) {
      CommitFollows(w, next, k);
    }
    hide Sound, RowsFollow, DeliveryFollows, After, Epoch;
  }

  lemma CommitForgets(w: World, next: Db)
    ensures forall u :: Epoch(w, u) <= Epoch(After(w, next), u)
    ensures forall u :: u in w.db.subs && Epoch(After(w, next), u) == Epoch(w, u) ==> u in next.subs
  {
    hide Kept, Replacements;
  }

  lemma CommitReplaces(w: World, next: Db)
    requires Sound(w)
    ensures var v := After(w, next);
      && (forall r :: r in w.replaced ==> r in v.replaced && v.replaced[r] == w.replaced[r])
      && (forall r :: r in v.replaced && r !in w.replaced ==> v.replaced[r] == w.clock)
      && (forall u :: u in w.db.subs && u in next.subs ==>
            next.subs[u].current == w.db.subs[u].current || w.db.subs[u].current in v.replaced)
  {
    hide Kept, Dropped, DeliveriesSound, KeysSound, SubSound, Live;
  }

  lemma CommitFollows(w: World, next: Db, k: (Url, Event))
    requires Sound(w) && RowsFollow(w.db, next) && k in w.db.deliveries
    requires Epoch(After(w, next), k.0) == Epoch(w, k.0)
    ensures DeliveryFollows(w, After(w, next), k)
  {
    hide KeysSound, SubSound, PostsSound, OneRow, Live, Refs, Replacements;
    assert k.0 in w.db.subs && k.0 in next.subs;
  }

  lemma CommitContinues(w: World, next: Db)
    requires Sound(w) && RowsFollow(w.db, next) && next.subs.Keys <= w.db.subs.Keys
    ensures Continues(w, After(w, next))
  {
    CommitProgresses(w, next);
    hide Progress, Sound, RowsFollow, Kept, Replacements;
  }

  /** A transaction that keeps both stores consistent and every settled delivery settled. */
  ghost predicate Committable(w: World, next: Db) {
    Sound(After(w, next)) && RowsFollow(w.db, next)
  }

  lemma SameRowsCommit(w: World, next: Db)
    requires Sound(w) && Sound(w.(db := next))
    requires next.deliveries == w.db.deliveries && SameCurrents(w.db.subs, next.subs)
    ensures Committable(w, next) && After(w, next).posts == w.posts
  {
    KeptAll(w, next);
    hide Sound, Kept;
    AfterKeepsSound(w, next);
  }

  // ---- key-store operations, and the transactions, one by one ------------------------------

  /** `put` under a reference drawn just now; it takes effect whatever it reports. */
  lemma PutKeepsSound(w: World, ref: Ref, secret: Secret)
    requires Sound(w) && ref !in w.issued
    ensures Sound(w.(keys := w.keys[ref := secret], issued := w.issued + {ref}))
    ensures Sound(w.(issued := w.issued + {ref}))
  {
    var w' := w.(keys := w.keys[ref := secret], issued := w.issued + {ref});
    forall u | u in w.db.subs ensures SubSound(w', u) {
      assert Refs(w.db.subs[u]) <= Live(w.db.subs);
    }
  }

  /** `delete` of a reference the cleanup table names. */
  lemma DeleteKeepsSound(w: World, ref: Ref)
    requires Sound(w) && ref in w.db.cleanup
    ensures Sound(w.(keys := w.keys - {ref}))
  {
    var w' := w.(keys := w.keys - {ref});
    forall u | u in w.db.subs ensures SubSound(w', u) {
      assert Refs(w.db.subs[u]) <= Live(w.db.subs);
    }
  }

  function Retire(db: Db, refs: set<Ref>): Db {
    db.(cleanup := db.cleanup + refs)
  }

  lemma RetireKeepsSound(w: World, refs: set<Ref>)
    requires Sound(w) && refs <= w.issued && refs !! Live(w.db.subs)
    ensures Sound(w.(db := Retire(w.db, refs)))
  {
    forall u | u in w.db.subs ensures SubSound(w.(db := Retire(w.db, refs)), u) {
      assert SubSound(w, u);
    }
  }

  lemma CleanedKeepsSound(w: World, ref: Ref)
    requires Sound(w)
    ensures Sound(w.(db := w.db.(cleanup := w.db.cleanup - {ref})))
  {
    forall u | u in w.db.subs ensures SubSound(w.(db := w.db.(cleanup := w.db.cleanup - {ref})), u) {
      assert SubSound(w, u);
    }
  }

  lemma RetireCommits(w: World, refs: set<Ref>)
    requires Sound(w) && refs <= w.issued && refs !! Live(w.db.subs)
    ensures Committable(w, Retire(w.db, refs)) && After(w, Retire(w.db, refs)).posts == w.posts
  {
    RetireKeepsSound(w, refs);
    hide Sound, Live;
    SameRowsCommit(w, Retire(w.db, refs));
  }

  lemma CleanedCommits(w: World, ref: Ref)
    requires Sound(w)
    ensures var next := w.db.(cleanup := w.db.cleanup - {ref}); Committable(w, next) && After(w, next).posts == w.posts
  {
    CleanedKeepsSound(w, ref);
    hide Sound;
    SameRowsCommit(w, w.db.(cleanup := w.db.cleanup - {ref}));
  }

  /** The posts whose rows are still there: a row is deleted only by forgetting its subscription. */
  function Kept(posts: map<(Url, Event), seq<Post>>, db: Db): map<(Url, Event), seq<Post>> {
    map k | k in posts && k in db.deliveries :: posts[k]
  }

  function Forget(db: Db, u: Url): Db {
    Db(db.subs - {u},
       map k | k in db.deliveries && k.0 != u :: db.deliveries[k],
       if u in db.subs then db.cleanup + Refs(db.subs[u]) else db.cleanup)
  }

  lemma LiveAfterForget(subs: map<Url, Sub>, u: Url)
    requires OneRow(subs)
    ensures Live(subs - {u}) == if u in subs then {} else Live(subs)
    ensures u in subs ==> Live(subs) == Refs(subs[u])
  {
    if u !in subs {
      assert subs - {u} == subs;
    }
  }

  lemma ForgetKeepsSound(w: World, u: Url)
    requires Sound(w)
    ensures Sound(w.(db := Forget(w.db, u), posts := Kept(w.posts, Forget(w.db, u))))
  {
    var w' := w.(db := Forget(w.db, u), posts := Kept(w.posts, Forget(w.db, u)));
    LiveAfterForget(w.db.subs, u);
    if u !in w.db.subs {
      assert w'.db.subs == w.db.subs;
      forall v | v in w.db.subs ensures SubSound(w', v) {
        assert SubSound(w, v);
      }
    }
  }

  // ---- maintenance ---------------------------------------------------------------------------

  predicate Gone(sub: Sub, now: int, allowed: bool) {
    sub.expires <= now || !sub.active || !allowed
  }

  lemma GoneStaysGone(subs: map<Url, Sub>, at: int, later: int)
    requires at <= later
    ensures forall v :: v in subs && Gone(subs[v], at, true) ==> Gone(subs[v], later, true)
  {
  }

  function ForgetAll(db: Db, gone: set<Url>): Db {
    Db(db.subs - gone,
       map k | k in db.deliveries && k.0 !in gone :: db.deliveries[k],
       db.cleanup + set u, r | u in db.subs && u in gone && r in Refs(db.subs[u]) :: r)
  }

  function GoneUrls(db: Db, now: int, allowed: bool): set<Url> {
    set u | u in db.subs && Gone(db.subs[u], now, allowed)
  }

  /** The rotation window of every row that is over: the former key is retired and cleared. */
  function RotateOut(db: Db, now: int): Db {
    db.(subs := map u | u in db.subs :: Rotated(db.subs[u], now),
        cleanup := db.cleanup + set u | u in db.subs && db.subs[u].rotationUntil <= now && db.subs[u].former.Some?
                                      :: db.subs[u].former.value)
  }

  function Rotated(sub: Sub, now: int): Sub {
    if sub.rotationUntil <= now then sub.(former := None, rotationUntil := 0) else sub
  }

  function Maintained(db: Db, now: int, allowed: bool): Db {
    RotateOut(ForgetAll(db, GoneUrls(db, now, allowed)), now)
  }

  /** What a completed sweep at `now` leaves, said of each row: the subscriptions that are active and
      not over, with the former key of those whose rotation window is not over, and their deliveries. */
  ghost predicate Swept(before: Db, after: Db, now: int) {
    && (forall u :: u in after.subs <==> u in before.subs && before.subs[u].active && now < before.subs[u].expires)
    && (forall u :: u in after.subs ==>
          var prior, left := before.subs[u], after.subs[u];
          && left.current == prior.current && left.expires == prior.expires && left.active
          && left.verifiedUntil == prior.verifiedUntil
          && left.former == (if now < prior.rotationUntil then prior.former else None)
          && left.rotationUntil == (if now < prior.rotationUntil then prior.rotationUntil else 0))
    && (forall k :: k in after.deliveries <==> k in before.deliveries && k.0 !in before.subs.Keys - after.subs.Keys)
    && (forall k :: k in after.deliveries ==> after.deliveries[k] == before.deliveries[k])
  }

  lemma MaintainedIsSwept(db: Db, now: int)
    ensures Swept(db, Maintained(db, now, true).(cleanup := {}), now)
  {
  }

  lemma NobodyIsLeft(db: Db, now: int)
    ensures Maintained(db, now, false).subs == map[] && Live(map[]) == {}
  {
  }

  /** What a sweep at `swept` leaves of the row of `u`. */
  ghost function LeftOf(db: Db, u: Url, swept: int): Option<Sub> {
    if u in db.subs && db.subs[u].active && swept < db.subs[u].expires then
      var sub := db.subs[u];
      Some(if swept < sub.rotationUntil then sub else sub.(former := None, rotationUntil := 0))
    else None
  }

  ghost predicate HoldsKey(w: World, row: Option<Sub>, secret: Secret) {
    row.Some? && row.value.current in w.keys && w.keys[row.value.current] == secret
  }

  /** The endpoint answered a challenge, unless it did so for the very key of the row lately. */
  ghost predicate Challenged(before: nat, after: nat, w: World, row: Option<Sub>, secret: Secret, now: int) {
    if HoldsKey(w, row, secret) && row.Some? && row.value.active && now < row.value.verifiedUntil
    then after == before else after == before + 1
  }

  lemma SweptLeaves(before: Db, after: Db, u: Url, swept: int)
    requires Swept(before, after, swept)
    ensures LeftOf(before, u, swept) == if u in after.subs then Some(after.subs[u]) else None
    ensures u in after.subs ==> after.subs[u].active
  {
  }

  /** The key of a row that outlasts a sweep is held after it as before. */
  lemma HeldAfterSweep(w: World, x: World, u: Url, secret: Secret, swept: int)
    requires Sound(x) && LeftOf(w.db, u, swept) == if u in x.db.subs then Some(x.db.subs[u]) else None
    requires forall r :: r in Live(x.db.subs) ==> r in w.keys && r in x.keys && x.keys[r] == w.keys[r]
    ensures HoldsKey(w, LeftOf(w.db, u, swept), secret) <==> HoldsKey(x, LeftOf(w.db, u, swept), secret)
  {
    if u in x.db.subs { assert x.db.subs[u].current in Live(x.db.subs) by { LiveHasCurrent(x.db.subs, u); } }
  }

  lemma LiveHasCurrent(subs: map<Url, Sub>, u: Url)
    requires u in subs
    ensures subs[u].current in Live(subs)
  {
    assert subs[u].current in Refs(subs[u]);
  }

  /** The row a subscription ends with: an hour unless asked otherwise, a day at most, verified for five
      minutes. Over a row `prior` the same key stays as it is, and another key takes its place and
      leaves it the rotation window of a minute. */
  ghost predicate GrantedRow(row: Sub, prior: Option<Sub>, same: bool, ttl: Option<int>, token: Ref, now: int) {
    && row.active && row.verifiedUntil == now + 300000
    && (ttl == None ==> row.expires == now + 3600000)
    && (ttl.Some? && ttl.value <= 86400000 ==> row.expires == now + ttl.value)
    && (ttl.Some? && ttl.value > 86400000 ==> row.expires == now + 86400000)
    && (prior == None ==> row.current == token && row.former == None && row.rotationUntil == 0)
    && (prior.Some? && same ==>
          && row.current == prior.value.current && row.former == prior.value.former
          && row.rotationUntil == if prior.value.former == None then 0 else prior.value.rotationUntil)
    && (prior.Some? && !same ==>
          row.current == token && row.former == Some(prior.value.current) && row.rotationUntil == now + 60000)
  }

  /** The subscription is in force, and the event has not been tried yet, or is to be tried again,
      its back-off over and an attempt left. */
  ghost predicate Due(db: Db, u: Url, e: Event, now: int) {
    && u in db.subs && db.subs[u].active && now < db.subs[u].expires
    && ((u, e) in db.deliveries ==>
          var row := db.deliveries[(u, e)];
          row.state == Retry && row.nextAttempt <= now && row.attempts <= 2)
  }

  /** The row of a delivery, `tried` times attempted before, after an attempt at `now` that was
      answered with `status`. */
  ghost predicate Answered(row: Row, tried: nat, first: Body, now: int, status: int) {
    && row.attempts == tried + 1 && row.body == first
    && (tried == 0 ==> row.nextAttempt == now + 2000)
    && (tried == 1 ==> row.nextAttempt == now + 4000)
    && (tried == 2 ==> row.nextAttempt == now + 8000)
    && (200 <= status <= 299 ==> row.state == Accepted)
    && (status in {0, 429} || 500 <= status <= 599 ==> row.state == if tried <= 1 then Retry else Failed)
    && (status !in {0, 429} && !(200 <= status <= 299) && !(500 <= status <= 599) ==> row.state == Failed)
  }

  function Tried(db: Db, k: (Url, Event)): nat {
    if k in db.deliveries then db.deliveries[k].attempts else 0
  }

  function FirstBody(db: Db, k: (Url, Event), body: Body): Body {
    if k in db.deliveries then db.deliveries[k].body else body
  }

  /** The tables after an attempt for `k` answered with another status than 410: its row says so, and
      nothing else changed. */
  ghost predicate AnsweredRows(before: Db, after: Db, k: (Url, Event), body: Body, now: int, status: int) {
    && after.subs == before.subs && after.deliveries.Keys == before.deliveries.Keys + {k}
    && (forall j :: j in before.deliveries && j != k ==> after.deliveries[j] == before.deliveries[j])
    && Answered(after.deliveries[k], Tried(before, k), FirstBody(before, k, body), now, status)
  }

  /** What became of an event that was due: its row has the answer, or its subscription is gone. */
  ghost predicate DueAnswered(before: Db, after: Db, u: Url, e: Event, body: Body, now: int, status: int) {
    && (status == 410 ==> u !in after.subs)
    && (status != 410 ==>
          && u in after.subs && (u, e) in after.deliveries
          && Answered(after.deliveries[(u, e)], Tried(before, (u, e)), FirstBody(before, (u, e), body), now, status))
  }

  /** The post of the attempt: signed with the current key and, while the rotation window lasts, with
      the one it replaced. */
  ghost predicate SignedPost(w: World, post: Post, k: (Url, Event), body: Body, now: int)
    requires k.0 in w.db.subs && Refs(w.db.subs[k.0]) <= w.keys.Keys
  {
    var sub := w.db.subs[k.0];
    && post.at == now && post.attempt == Tried(w.db, k) + 1 && post.body == FirstBody(w.db, k, body)
    && if sub.former.Some? && now < sub.rotationUntil
       then post.keys == [w.keys[sub.current], w.keys[sub.former.value]]
       else post.keys == [w.keys[sub.current]]
  }

  lemma ForgetNone(db: Db)
    ensures ForgetAll(db, {}) == db
  {
    assert db.subs - {} == db.subs;
  }

  lemma ForgetOneMore(db: Db, gone: set<Url>, u: Url)
    requires u in db.subs && u !in gone
    ensures Forget(ForgetAll(db, gone), u) == ForgetAll(db, gone + {u})
  {
    assert (db.subs - gone) - {u} == db.subs - (gone + {u});
    assert Forget(ForgetAll(db, gone), u).cleanup == ForgetAll(db, gone + {u}).cleanup;
  }

  lemma MaintainedLive(db: Db, now: int, allowed: bool)
    ensures Live(Maintained(db, now, allowed).subs) <= Live(db.subs)
  {
    var subs := Maintained(db, now, allowed).subs;
    forall u, r | u in subs && r in Refs(subs[u]) ensures r in Live(db.subs) {
      assert r in Refs(db.subs[u]);
    }
  }

  /** What maintenance leaves is in force: not expired, and no rotation window that is over. */
  lemma MaintainedIsCurrent(w: World, now: int, u: Url)
    requires Sound(w) && u in Maintained(w.db, now, true).subs
    ensures u in w.db.subs
    ensures var sub := Maintained(w.db, now, true).subs[u];
      && sub.current == w.db.subs[u].current
      && sub.active && now < sub.expires
      && (sub.former.Some? ==> sub.former == w.db.subs[u].former && now < sub.rotationUntil)
  {
    assert SubSound(w, u);
  }

  /** Maintenance drops a row only when it is over, and keeps the key of every other. */
  lemma MaintainedRows(db: Db, swept: int, now: int, allowed: bool)
    requires swept <= now
    ensures var m := Maintained(db, swept, allowed);
      && (forall v :: v in db.subs && v !in m.subs ==> Gone(db.subs[v], now, allowed))
      && (forall v :: v in m.subs ==> v in db.subs && m.subs[v].current == db.subs[v].current)
      && (forall v :: v in m.subs ==> !Gone(db.subs[v], swept, allowed))
      && (forall k :: k in m.deliveries ==> k in db.deliveries && m.deliveries[k] == db.deliveries[k])
  {
  }

  lemma ForgetsTheOne(w: World, gone: set<Url>, u: Url)
    requires OneRow(w.db.subs) && DeliveriesSound(w) && u in gone && u in w.db.subs
    ensures ForgetAll(w.db, gone) == Forget(w.db, u)
  {
    hide PostsSound;
    assert w.db.subs - gone == w.db.subs - {u};
    assert forall k :: k in w.db.deliveries ==> k.0 == u;
  }

  lemma ForgetAllKeepsSound(w: World, gone: set<Url>)
    requires Sound(w)
    ensures Sound(w.(db := ForgetAll(w.db, gone), posts := Kept(w.posts, ForgetAll(w.db, gone))))
  {
    if u :| u in gone && u in w.db.subs {
      ForgetKeepsSound(w, u);
      ForgetsTheOne(w, gone, u);
      hide Sound, Kept, ForgetAll, Forget;
    } else {
      assert ForgetAll(w.db, gone) == w.db by {
        assert w.db.subs - gone == w.db.subs;
      }
      assert Kept(w.posts, w.db) == w.posts;
      assert w.(db := w.db, posts := w.posts) == w;
    }
  }

  lemma RotateOutKeepsSound(w: World, now: int)
    requires Sound(w)
    ensures Sound(w.(db := RotateOut(w.db, now)))
  {
    var w' := w.(db := RotateOut(w.db, now));
    if u :| u in w.db.subs {
      assert SubSound(w, u);
      assert Refs(w.db.subs[u]) == Live(w.db.subs);
      assert w'.db.subs == map[u := Rotated(w.db.subs[u], now)];
      assert Live(w'.db.subs) == Refs(w'.db.subs[u]);
    }
  }

  lemma MaintainedKeepsSound(w: World, now: int, allowed: bool)
    requires Sound(w)
    ensures Sound(w.(db := Maintained(w.db, now, allowed), posts := Kept(w.posts, Maintained(w.db, now, allowed))))
  {
    var gone := GoneUrls(w.db, now, allowed);
    ForgetAllKeepsSound(w, gone);
    var w' := w.(db := ForgetAll(w.db, gone), posts := Kept(w.posts, ForgetAll(w.db, gone)));
    RotateOutKeepsSound(w', now);
  }

  lemma MaintainedCommits(w: World, now: int, allowed: bool)
    requires Sound(w)
    ensures Committable(w, Maintained(w.db, now, allowed))
  {
    var next := Maintained(w.db, now, allowed);
    MaintainedKeepsSound(w, now, allowed);
    hide Sound, Kept;
    AfterKeepsSound(w, next);
  }

  lemma ForgetCommits(w: World, u: Url)
    requires Sound(w)
    ensures Committable(w, Forget(w.db, u))
  {
    ForgetKeepsSound(w, u);
    hide Sound, Kept;
    AfterKeepsSound(w, Forget(w.db, u));
  }

  /** The subscription is in force at clock reading `now`. */
  predicate InForce(db: Db, u: Url, now: int) {
    u in db.subs && db.subs[u].active && now < db.subs[u].expires
  }

  /** A subscription that is in force later on, and was never forgotten, was in force before. */
  ghost predicate ForceLasts(w: World, v: World) {
    forall u :: u in w.db.subs && Epoch(v, u) == Epoch(w, u) && InForce(v.db, u, v.clock) ==> InForce(w.db, u, w.clock)
  }

  lemma ForceLastsIsTransitive(w: World, v: World, x: World)
    requires Progress(w, v) && Progress(v, x) && ForceLasts(w, v) && ForceLasts(v, x)
    ensures ForceLasts(w, x)
  {
    hide InForce;
    forall u | u in w.db.subs && Epoch(x, u) == Epoch(w, u) && InForce(x.db, u, x.clock)
      ensures InForce(w.db, u, w.clock)
    {
      assert Epoch(w, u) <= Epoch(v, u) <= Epoch(x, u);
      assert u in v.db.subs;
    }
  }

  lemma ForceLastsItself(w: World)
    ensures ForceLasts(w, w)
  {
  }

  lemma SameTermsLast(w: World, v: World)
    requires Continues(w, v) && SameTerms(w.db.subs, v.db.subs)
    ensures ForceLasts(w, v)
  {
  }

  /** What outlives a sweep was in force before it, whatever becomes of its deadline. */
  lemma SweptLasts(w: World, x: World, v: World, swept: int)
    requires Progress(w, x) && (x == v || Progress(x, v)) && w.clock <= swept
    requires x.db.subs == Maintained(w.db, swept, true).subs
    ensures ForceLasts(w, v)
  {
    MaintainedRows(w.db, swept, swept, true);
    hide Maintained;
    forall u | u in w.db.subs && Epoch(v, u) == Epoch(w, u) ensures InForce(w.db, u, w.clock) {
      assert Epoch(w, u) <= Epoch(x, u) <= Epoch(v, u);
      assert u in x.db.subs;
    }
  }

  /** The subscriptions still there have the deadline they had. */
  ghost predicate SameTerms(before: map<Url, Sub>, after: map<Url, Sub>) {
    forall u :: u in after ==>
      u in before && after[u].expires == before[u].expires && after[u].active == before[u].active
  }

  lemma SameTermsAtOnce(subs: map<Url, Sub>)
    ensures SameTerms(subs, subs)
  {
  }

  lemma MaintainedTerms(db: Db, now: int, allowed: bool)
    ensures SameTerms(db.subs, Maintained(db, now, allowed).subs)
  {
  }

  // ---- subscribe ---------------------------------------------------------------------------------

  lemma VerifyKeepsSound(w: World, u: Url, secret: Secret)
    requires Sound(w)
    ensures Sound(w.(verified := w.verified + {(u, secret)}))
  {
    forall v | v in w.db.subs ensures SubSound(w.(verified := w.verified + {(u, secret)}), v) {
      assert SubSound(w, v);
    }
  }

  /** A renewed row: same key, new deadlines. */
  function Renewed(db: Db, u: Url, expires: int, verifiedUntil: int): Db
    requires u in db.subs
  {
    var sub := db.subs[u];
    db.(subs := db.subs[u := sub.(expires := expires, verifiedUntil := verifiedUntil, active := true,
                                  rotationUntil := if sub.former.Some? then sub.rotationUntil else 0)])
  }

  lemma RenewedKeepsSound(w: World, u: Url, expires: int, verifiedUntil: int)
    requires Sound(w) && u in w.db.subs
    ensures Sound(w.(db := Renewed(w.db, u, expires, verifiedUntil)))
  {
    var w' := w.(db := Renewed(w.db, u, expires, verifiedUntil));
    assert SubSound(w, u);
    assert w'.db.subs.Keys == w.db.subs.Keys;
    assert Live(w'.db.subs) == Live(w.db.subs) by {
      assert Refs(w'.db.subs[u]) == Refs(w.db.subs[u]);
    }
  }

  /** A new row, or a row whose key is replaced: the replaced key signs beside the new one for
      the rotation window, and the key before it is retired. */
  function Installed(db: Db, u: Url, ref: Ref, now: int, expires: int, verifiedUntil: int): Db {
    var previous := if u in db.subs then Some(db.subs[u]) else None;
    var former := if previous.Some? then Some(previous.value.current) else None;
    var sub := Sub(expires, ref, former, if former.Some? then now + ROTATION_MS else 0, verifiedUntil, true);
    var retired := if previous.Some? && previous.value.former.Some? then {previous.value.former.value} else {};
    db.(subs := db.subs[u := sub], cleanup := db.cleanup + retired)
  }

  lemma DefaultLifetime(row: Sub, prior: Option<Sub>, same: bool, token: Ref, now: int)
    requires GrantedRow(row, prior, same, Some(3600000), token, now)
    ensures GrantedRow(row, prior, same, None, token, now)
  {
  }

  lemma RenewedIsGranted(db: Db, u: Url, ttl: Option<int>, token: Ref, now: int, expires: int)
    requires u in db.subs && ttl.Some? && expires == now + if ttl.value < 86400000 then ttl.value else 86400000
    ensures GrantedRow(Renewed(db, u, expires, now + 300000).subs[u], Some(db.subs[u]), true, ttl, token, now)
  {
  }

  lemma InstalledIsGranted(db: Db, u: Url, ttl: Option<int>, token: Ref, now: int, expires: int)
    requires ttl.Some? && expires == now + if ttl.value < 86400000 then ttl.value else 86400000
    ensures var prior := if u in db.subs then Some(db.subs[u]) else None;
      GrantedRow(Installed(db, u, token, now, expires, now + 300000).subs[u], prior, false, ttl, token, now)
  {
  }

  lemma RenewedRow(db: Db, u: Url, expires: int, verifiedUntil: int)
    requires u in db.subs
    ensures var next := Renewed(db, u, expires, verifiedUntil).subs;
      && next.Keys == db.subs.Keys
      && next[u].current == db.subs[u].current && next[u].expires == expires && next[u].active
  {
  }

  lemma InstalledRow(db: Db, u: Url, ref: Ref, now: int, expires: int, verifiedUntil: int)
    ensures var next := Installed(db, u, ref, now, expires, verifiedUntil).subs;
      && next.Keys == db.subs.Keys + {u}
      && next[u].current == ref && next[u].expires == expires && next[u].active
      && (u in db.subs ==> next[u].former == Some(db.subs[u].current) && next[u].rotationUntil == now + ROTATION_MS)
    ensures Installed(db, u, ref, now, expires, verifiedUntil).deliveries == db.deliveries
  {
  }

  /** A longer record of replacements changes nothing about the posts made so far. */
  lemma ReplacedGrows(w: World, v: World)
    requires DeliveriesSound(w) && v.posts == w.posts && v.db.deliveries == w.db.deliveries && v.verified == w.verified
    requires w.db.subs.Keys <= v.db.subs.Keys
    requires forall r :: r in w.replaced ==> r in v.replaced && v.replaced[r] == w.replaced[r]
    ensures DeliveriesSound(v)
  {
    hide Backoff;
  }

  lemma InstalledHistory(w: World, u: Url, ref: Ref, now: int, expires: int, verifiedUntil: int)
    requires Sound(w) && (u in w.db.subs || w.db.subs == map[])
    requires ref !in Live(w.db.subs)
    ensures var next := Installed(w.db, u, ref, now, expires, verifiedUntil);
      && After(w, next) == w.(db := next, forgets := After(w, next).forgets, replaced := After(w, next).replaced)
      && next.subs.Keys == {u} && Live(next.subs) == Refs(next.subs[u])
      && After(w, next).replaced ==
           (if u in w.db.subs then map[w.db.subs[u].current := w.clock] else map[]) + w.replaced
  {
    var next := Installed(w.db, u, ref, now, expires, verifiedUntil);
    assert Kept(w.posts, next) == w.posts by { KeptAll(w, next); }
    if u in w.db.subs {
      assert w.db.subs[u].current in Refs(w.db.subs[u]);
      assert w.db.subs.Keys == {u};
      assert Replacements(w.db.subs, next.subs, w.clock) == map[w.db.subs[u].current := w.clock];
    } else {
      assert Replacements(w.db.subs, next.subs, w.clock) == map[];
    }
  }

  lemma InstalledKeepsSound(w: World, u: Url, ref: Ref, now: int, expires: int, verifiedUntil: int)
    requires Sound(w) && (u in w.db.subs || w.db.subs == map[]) && now <= w.clock
    requires ref in w.keys && ref !in Live(w.db.subs) && ref !in w.db.cleanup && (u, w.keys[ref]) in w.verified
    requires ref !in w.replaced
    ensures Sound(After(w, Installed(w.db, u, ref, now, expires, verifiedUntil)))
  {
    var v := After(w, Installed(w.db, u, ref, now, expires, verifiedUntil));
    InstalledHistory(w, u, ref, now, expires, verifiedUntil);
    ReplacedGrows(w, v);
    hide After, Replacements, Dropped, Kept, DeliveriesSound;
    InstalledKeys(w, v, u, ref, now, expires, verifiedUntil);
    hide KeysSound, SubSound, Installed, Live, Refs;
  }

  lemma RenewedCommits(w: World, u: Url, expires: int, verifiedUntil: int)
    requires Sound(w) && u in w.db.subs
    ensures var next := Renewed(w.db, u, expires, verifiedUntil);
      Committable(w, next) && After(w, next).posts == w.posts
  {
    RenewedKeepsSound(w, u, expires, verifiedUntil);
    hide Sound;
    SameRowsCommit(w, Renewed(w.db, u, expires, verifiedUntil));
  }

  lemma InstalledCommits(w: World, u: Url, ref: Ref, now: int, expires: int, verifiedUntil: int)
    requires Sound(w) && (u in w.db.subs || w.db.subs == map[]) && now <= w.clock
    requires ref in w.keys && ref !in Live(w.db.subs) && ref !in w.db.cleanup && (u, w.keys[ref]) in w.verified
    requires ref !in w.replaced
    ensures var next := Installed(w.db, u, ref, now, expires, verifiedUntil);
      Committable(w, next) && After(w, next).posts == w.posts
  {
    var next := Installed(w.db, u, ref, now, expires, verifiedUntil);
    InstalledKeepsSound(w, u, ref, now, expires, verifiedUntil);
    KeptAll(w, next);
    hide Sound, Live, Kept;
  }

  /** The keys of the new row: the one just written, and the one it replaces, dated now. */
  lemma InstalledKeys(w: World, v: World, u: Url, ref: Ref, now: int, expires: int, verifiedUntil: int)
    requires Sound(w) && (u in w.db.subs || w.db.subs == map[]) && now <= w.clock
    requires ref in w.keys && ref !in Live(w.db.subs) && ref !in w.db.cleanup && (u, w.keys[ref]) in w.verified
    requires ref !in w.replaced
    requires v.db == Installed(w.db, u, ref, now, expires, verifiedUntil)
    requires v == w.(db := v.db, forgets := v.forgets, replaced := v.replaced)
    requires Live(v.db.subs) == Refs(v.db.subs[u])
    requires v.replaced == (if u in w.db.subs then map[w.db.subs[u].current := w.clock] else map[]) + w.replaced
    ensures KeysSound(v) && SubSound(v, u)
  {
    hide DeliveriesSound;
    if u in w.db.subs {
      var sub := w.db.subs[u];
      assert SubSound(w, u) && sub.current in Refs(sub);
      assert w.db.subs.Keys == {u};
      assert Refs(sub) == Live(w.db.subs);
      hide Live;
      assert Refs(v.db.subs[u]) == {ref, sub.current};
    } else {
      hide Live;
      assert Refs(v.db.subs[u]) == {ref};
    }
  }

  // ---- deliver -----------------------------------------------------------------------------------

  lemma EligibleHasAnAttempt(db: Db, k: (Url, Event), now: int)
    requires Eligible(db, k, now)
    ensures Tried(db, k) <= 2
  {
  }

  lemma EligibleIsDue(db: Db, u: Url, e: Event, now: int)
    requires u in db.subs && db.subs[u].active && now < db.subs[u].expires
    ensures Eligible(db, (u, e), now) <==> Due(db, u, e, now)
  {
  }

  /** A sweep changes nothing about what is due. */
  lemma DueAfterSweep(before: Db, after: Db, swept: int, u: Url, e: Event, now: int)
    requires Swept(before, after, swept) && swept <= now
    ensures Due(after, u, e, now) <==> Due(before, u, e, now)
    ensures Due(after, u, e, now) ==> Tried(after, (u, e)) == Tried(before, (u, e))
    ensures Due(after, u, e, now) ==> forall body :: FirstBody(after, (u, e), body) == FirstBody(before, (u, e), body)
  {
    if Due(before, u, e, now) { assert u in after.subs; }
    if Due(after, u, e, now) { assert u in before.subs; }
  }

  predicate Eligible(db: Db, k: (Url, Event), now: int) {
    k !in db.deliveries ||
    (db.deliveries[k].state.Retry? && db.deliveries[k].nextAttempt <= now && db.deliveries[k].attempts < 3)
  }

  /** The row persisted before the post; a retry keeps the first body. */
  function AttemptRow(db: Db, k: (Url, Event), now: int, body: Body): Row {
    var attempt := (if k in db.deliveries then db.deliveries[k].attempts else 0) + 1;
    Row(attempt, now + Backoff(attempt), Retry, if k in db.deliveries then db.deliveries[k].body else body)
  }

  function Attempted(db: Db, k: (Url, Event), now: int, body: Body): Db {
    db.(deliveries := db.deliveries[k := AttemptRow(db, k, now, body)])
  }

  /** The history of `k` leaves room for the post that its row announces. */
  ghost predicate PostDue(w: World, k: (Url, Event), now: int) {
    && k in w.db.deliveries
    && w.db.deliveries[k].nextAttempt == now + Backoff(w.db.deliveries[k].attempts)
    && (k in w.posts ==>
          && |w.posts[k]| < w.db.deliveries[k].attempts
          && forall i :: 0 <= i < |w.posts[k]| ==>
               && w.posts[k][i].attempt < w.db.deliveries[k].attempts
               && w.posts[k][i].at + Backoff(w.posts[k][i].attempt) <= now)
  }

  lemma AttemptedKeepsSound(w: World, k: (Url, Event), now: int, body: Body)
    requires Sound(w) && k.0 in w.db.subs && Eligible(w.db, k, now)
    ensures Sound(w.(db := Attempted(w.db, k, now, body)))
    ensures PostDue(w.(db := Attempted(w.db, k, now, body)), k, now)
  {
    hide Live, Backoff, KeysSound, SubSound, OneRow;
    AttemptedRows(w, k, now, body);
    hide DeliveriesSound, PostDue, PostsSound;
    SameKeysSound(w, w.(db := Attempted(w.db, k, now, body)));
  }

  lemma AttemptedRows(w: World, k: (Url, Event), now: int, body: Body)
    requires DeliveriesSound(w) && k.0 in w.db.subs && Eligible(w.db, k, now)
    ensures var v := w.(db := Attempted(w.db, k, now, body)); DeliveriesSound(v) && PostDue(v, k, now)
  {
    hide Backoff, KeysInWindow;
    BackoffIsPositive(AttemptRow(w.db, k, now, body).attempts);
  }

  lemma {:induction false} BackoffIsPositive(n: nat)
    ensures Backoff(n) > 0
  {
    if n > 0 {
      BackoffIsPositive(n - 1);
    }
  }

  /** The keys a delivery is signed with: the current one and, inside the rotation window, the
      one it replaced. */
  function SigningKeys(sub: Sub, keys: map<Ref, Secret>, now: int): seq<Secret>
    requires Refs(sub) <= keys.Keys
  {
    [keys[sub.current]]
    + if sub.former.Some? && sub.rotationUntil > now then [keys[sub.former.value]] else []
  }

  /** The replaced key, while it still signs. */
  function FormerSigner(sub: Sub, now: int): Option<Ref> {
    if sub.rotationUntil > now then sub.former else None
  }

  function PostsOf(w: World, k: (Url, Event)): seq<Post> {
    if k in w.posts then w.posts[k] else []
  }

  function Posted(w: World, k: (Url, Event), now: int, keys: seq<Secret>, former: Option<Ref>): World
    requires k in w.db.deliveries
  {
    var row := w.db.deliveries[k];
    w.(posts := w.posts[k := PostsOf(w, k) + [Post(now, row.attempts, row.body, keys, former)]])
  }

  lemma PostedKeepsSound(w: World, k: (Url, Event), now: int, keys: seq<Secret>, former: Option<Ref>)
    requires Sound(w) && PostDue(w, k, now)
    requires |keys| == (if former.Some? then 2 else 1) && forall key :: key in keys ==> (k.0, key) in w.verified
    requires former.Some? ==> former.value in w.replaced && now < w.replaced[former.value] + ROTATION_MS
    ensures Sound(Posted(w, k, now, keys, former))
  {
    hide Live, Backoff, PostsSound;
    var row := w.db.deliveries[k];
    AppendedPost(PostsOf(w, k), row, k.0, w.verified, w.replaced, Post(now, row.attempts, row.body, keys, former));
    SameKeysSound(w, Posted(w, k, now, keys, former));
  }

  /** Only a row under way gains a post. */
  lemma PostedContinues(w: World, k: (Url, Event), now: int, keys: seq<Secret>, former: Option<Ref>)
    requires k in w.db.deliveries && w.db.deliveries[k].state.Retry?
    ensures Continues(w, Posted(w, k, now, keys, former))
  {
    var v := Posted(w, k, now, keys, former);
    forall j | j in w.db.deliveries ensures DeliveryFollows(w, v, j) {
    }
  }

  lemma AppendedPost(posts: seq<Post>, row: Row, u: Url, verified: set<(Url, Secret)>, replaced: map<Ref, int>,
          post: Post)
    requires posts == [] || PostsSound(posts, row, u, verified, replaced)
    requires |posts| < row.attempts == post.attempt && post.body == row.body
    requires KeysInWindow(post, replaced) && forall key :: key in post.keys ==> (u, key) in verified
    requires post.at + Backoff(post.attempt) <= row.nextAttempt
    requires forall i :: 0 <= i < |posts| ==>
      posts[i].attempt < post.attempt && posts[i].at + Backoff(posts[i].attempt) <= post.at
    ensures PostsSound(posts + [post], row, u, verified, replaced)
  {
    hide Backoff;
  }

  lemma AttemptedKeepsPosts(w: World, k: (Url, Event), now: int, body: Body)
    requires Sound(w)
    ensures Kept(w.posts, Attempted(w.db, k, now, body)) == w.posts
  {
  }

  lemma SettledKeepsPosts(w: World, k: (Url, Event), state: State)
    requires Sound(w) && k in w.db.deliveries
    ensures Kept(w.posts, Settled(w.db, k, state)) == w.posts
  {
  }

  lemma SigningKeysAreVerified(w: World, u: Url, now: int)
    requires Sound(w) && u in w.db.subs
    ensures Refs(w.db.subs[u]) <= w.keys.Keys
    ensures var keys := SigningKeys(w.db.subs[u], w.keys, now);
      && (forall key :: key in keys ==> (u, key) in w.verified)
      && |keys| == (if FormerSigner(w.db.subs[u], now).Some? then 2 else 1)
    ensures var former := FormerSigner(w.db.subs[u], now);
      former.Some? ==> former.value in w.replaced && now < w.replaced[former.value] + ROTATION_MS
  {
    assert Refs(w.db.subs[u]) <= Live(w.db.subs);
    assert SubSound(w, u);
  }

  function Settled(db: Db, k: (Url, Event), state: State): Db
    requires k in db.deliveries
  {
    db.(deliveries := db.deliveries[k := db.deliveries[k].(state := state)])
  }

  lemma SettledKeepsSound(w: World, k: (Url, Event), state: State)
    requires Sound(w) && k in w.db.deliveries
    ensures Sound(w.(db := Settled(w.db, k, state)))
  {
    hide Live, Backoff;
    SameKeysSound(w, w.(db := Settled(w.db, k, state)));
  }

  lemma AttemptedCommits(w: World, k: (Url, Event), now: int, body: Body)
    requires Sound(w) && k.0 in w.db.subs && Eligible(w.db, k, now)
    ensures var next := Attempted(w.db, k, now, body);
      Committable(w, next) && After(w, next).posts == w.posts && PostDue(After(w, next), k, now)
  {
    var next := Attempted(w.db, k, now, body);
    AttemptedKeepsSound(w, k, now, body);
    AttemptedKeepsPosts(w, k, now, body);
    AttemptedFollows(w.db, k, now, body);
    hide Sound, Kept, Backoff, RowsFollow, Attempted;
    AfterKeepsSound(w, next);
  }

  lemma AttemptedFollows(db: Db, k: (Url, Event), now: int, body: Body)
    requires Eligible(db, k, now)
    ensures RowsFollow(db, Attempted(db, k, now, body)) && Attempted(db, k, now, body).subs == db.subs
  {
    hide Backoff;
  }

  /** Recording an answer settles a row under way, or leaves it under way. */
  lemma SettledCommits(w: World, k: (Url, Event), state: State)
    requires Sound(w) && k in w.db.deliveries && w.db.deliveries[k].state.Retry?
    ensures var next := Settled(w.db, k, state); Committable(w, next) && After(w, next).posts == w.posts
  {
    SettledKeepsSound(w, k, state);
    SettledKeepsPosts(w, k, state);
    hide Sound, Kept, Backoff;
    AfterKeepsSound(w, Settled(w.db, k, state));
  }

  /** The answer 410 takes the row away with its subscription. */
  lemma GoneCommits(w: World, k: (Url, Event), state: State)
    requires Sound(w) && k in w.db.deliveries
    ensures Committable(w, Forget(Settled(w.db, k, state), k.0))
  {
    SettledForget(w, k, state);
    hide Sound, Kept, Backoff;
    AfterKeepsSound(w, Forget(Settled(w.db, k, state), k.0));
  }

  lemma SettledForget(w: World, k: (Url, Event), state: State)
    requires Sound(w) && k in w.db.deliveries
    ensures var next := Forget(Settled(w.db, k, state), k.0); Sound(w.(db := next, posts := Kept(w.posts, next)))
  {
    SettledKeepsSound(w, k, state);
    hide Sound;
    ForgetKeepsSound(w.(db := Settled(w.db, k, state)), k.0);
  }

  // ---- what the invariant says ---------------------------------------------------------------------

  /** Between two forgets of its subscription an event is posted at most three times. */
  lemma AtMostThreePosts(w: World, k: (Url, Event))
    requires Sound(w)
    ensures var posts := PostsOf(w, k);
      && |posts| <= 3
      && (forall i :: 0 <= i < |posts| ==> posts[i].body == posts[0].body && i + 1 <= posts[i].attempt <= 3)
      && (|posts| > 1 ==> posts[1].at >= posts[0].at + 2000)
      && (|posts| > 2 ==> posts[2].at >= posts[1].at + 4000)
  {
    var posts := PostsOf(w, k);
    if posts != [] {
      assert PostsSound(posts, w.db.deliveries[k], k.0, w.verified, w.replaced);
      hide Sound;
      if |posts| > 1 { BackoffGrows(1, posts[0].attempt); }
      if |posts| > 2 { BackoffGrows(2, posts[1].attempt); }
      BackoffSays();
      hide Backoff;
    }
  }

  /** 2^attempt seconds. */
  lemma BackoffSays()
    ensures Backoff(1) == 2000 && Backoff(2) == 4000 && Backoff(3) == 8000
  {
  }

  lemma {:induction false} BackoffGrows(m: nat, n: nat)
    requires m <= n
    ensures Backoff(m) <= Backoff(n)
  {
    if m < n { BackoffGrows(m, n - 1); }
  }

  /** In a run, an accepted or failed delivery stays as it is and is not posted again until its
      subscription is forgotten; the posts of one under way grow with the same body. */
  lemma SettledIsFinal(w: World, v: World, k: (Url, Event))
    requires Progress(w, v) && k in w.db.deliveries && Epoch(v, k.0) == Epoch(w, k.0)
    ensures k in v.db.deliveries && v.db.deliveries[k].body == w.db.deliveries[k].body
    ensures PostsOf(w, k) <= PostsOf(v, k)
    ensures !w.db.deliveries[k].state.Retry? ==>
      v.db.deliveries[k] == w.db.deliveries[k] && PostsOf(v, k) == PostsOf(w, k)
  {
  }

  /** In particular a settled delivery that is still there after calls other than `subscribe` is as
      it was. */
  lemma SettledStays(w: World, v: World)
    requires Continues(w, v) && Sound(v)
    ensures forall k :: k in w.db.deliveries && !w.db.deliveries[k].state.Retry? && k in v.db.deliveries ==>
      v.db.deliveries[k] == w.db.deliveries[k]
  {
    hide Live, KeysSound, PostsSound;
    forall k | k in w.db.deliveries && !w.db.deliveries[k].state.Retry? && k in v.db.deliveries
      ensures v.db.deliveries[k] == w.db.deliveries[k]
    {
      assert k.0 in v.db.subs;
      assert DeliveryFollows(w, v, k);
    }
  }

  /** A key current at one moment of a run and not at a later one, the subscription not forgotten
      in between, was replaced between the two, and no post after the rotation window carries it. */
  lemma ReplacedKeySignsForTheWindow(w: World, v: World, u: Url, k: (Url, Event), i: nat)
    requires Progress(w, v) && Sound(w) && Sound(v)
    requires u in w.db.subs && Epoch(v, u) == Epoch(w, u) && v.db.subs[u].current != w.db.subs[u].current
    requires i < |PostsOf(v, k)| && PostsOf(v, k)[i].former == Some(w.db.subs[u].current)
    ensures var ref := w.db.subs[u].current;
      ref in v.replaced && w.clock <= v.replaced[ref] <= v.clock && PostsOf(v, k)[i].at < v.replaced[ref] + ROTATION_MS
  {
    assert SubSound(w, u);
    assert PostsSound(v.posts[k], v.db.deliveries[k], k.0, v.verified, v.replaced);
  }

  /** No live reference is scheduled for deletion, and every one of them is in the key store. */
  lemma LiveKeysAreKept(w: World, u: Url)
    requires Sound(w) && u in w.db.subs
    ensures w.db.subs[u].current in w.keys && w.db.subs[u].current !in w.db.cleanup
    ensures w.db.subs[u].former.Some? ==>
      w.db.subs[u].former.value in w.keys && w.db.subs[u].former.value !in w.db.cleanup
  {
    assert Refs(w.db.subs[u]) <= Live(w.db.subs);
  }
}
