/** What each operation of CacheSleeve/HybridCacher.cs and
    CacheSleeve/HybridCacherAsync.cs does to the two tiers, as functions of
    the state before it.  The remote half of each step is the RemoteSpec
    step of CacheSleeve/RedisCacher.cs (Sync) or RedisCacherAsync.cs
    (Async); the local half is a LocalCache function. */
module HybridSpec {
  import opened Wrappers
  import opened CacheTypes
  import opened KeyCodec
  import opened RedisStore
  import opened RemoteSpec
  import opened LocalCache
  import Glob

  /** Both tiers as one process sees them: the Redis keyspace, the messages
      published so far, and the local cache. */
  datatype World = World(db: Db, log: seq<Message>, items: Items)

  datatype Outcome<T> = Outcome(world: World, reply: Reply<T>)

  /** The channel a write or remove of `key` publishes on. */
  function RemoveChannel(key: string): string {
    "cacheSleeve.remove." + key
  }

  const FlushChannel: string := "cacheSleeve.flush"

  /** The message every write and remove of `key` publishes: the caller's
      key, on its remove channel. */
  function Invalidation(key: string): Message {
    Message(RemoveChannel(key), key)
  }

  // ---------------------------------------------------------------------
  // Reads.
  // ---------------------------------------------------------------------

  /** The string Get<string> answers for the `.parent` entry. */
  function ParentName(read: Option<Value>): Option<string> {
    match read
    case None => None
    case Some(x) => Some(AsText(x))
  }

  /** The local parent key taken from the remote `.parent` entry: Get strips
      the prefix with StripPrefix; GetAsync cuts off as many characters as
      the prefix has, which throws on a name shorter than the prefix. */
  function LocalParent(v: Variant, prefix: string, name: Option<string>): Reply<Option<string>> {
    match name
    case None => Ok(None)
    case Some(p) =>
      if v != Async then Ok(StripPrefix(prefix, name))
      else if |p| < |prefix| then Fault(ArgumentOutOfRange)
      else Ok(Some(p[|prefix|..]))
  }

  /** The entry the backfill stores: the remote TTL becomes an expiry `ttl`
      seconds from now, and -1 becomes no expiry. */
  function Backfill(now: int, ttl: int, value: Value): CacheEntry {
    CacheEntry(value, if ttl > -1 then Some(Deadline(now, ttl)) else None)
  }

  /** Get<T> (Sync) and GetAsync<T> (Async): local first; on a miss,
      FillStep. */
  function FetchStep(v: Variant, prefix: string, up: bool, now: int, w: World, key: string, want: Want): Outcome<Option<Value>> {
    var l := Read(prefix, w.items, key, want);
    if l.reply.Fault? || l.reply.value.Some? then Outcome(World(w.db, w.log, l.items), l.reply)
    else FillStep(v, prefix, up, now, World(w.db, w.log, l.items), key, want)
  }

  /** The rest of Get<T> / GetAsync<T> after a local miss: the remote value,
      its TTL and its `.parent` entry are read, the value is stored locally
      with that TTL and parent, and the local copy is read back. */
  function FillStep(v: Variant, prefix: string, up: bool, now: int, w: World, key: string, want: Want): Outcome<Option<Value>> {
    var pk := AddPrefix(prefix, Some(key));
    var g := GetStep(v, prefix, up, w.db, key, want);
    if g.reply.Fault? || g.reply.value.None? then Outcome(World(g.db, w.log, w.items), g.reply)
    else
      var ttl := TtlAnswer(up, g.db, pk);
      if ttl.Fault? then Outcome(World(g.db, w.log, w.items), Fault(ttl.error))
      else
        var p := GetStep(Sync, prefix, up, g.db, key + ".parent", WantText);
        if p.reply.Fault? then Outcome(World(p.db, w.log, w.items), Fault(p.reply.error))
        else
          var parent := LocalParent(v, prefix, ParentName(p.reply.value));
          if parent.Fault? then Outcome(World(p.db, w.log, w.items), Fault(parent.error))
          else
            var filled := Written(prefix, w.items, now, key, Backfill(now, ttl.value, g.reply.value.value), parent.value);
            var back := Read(prefix, filled, key, want);
            Outcome(World(p.db, w.log, back.items), back.reply)
  }

  /** GetOrSetAsync: the cached value if there is one; otherwise the
      factory's value, stored with SetAsync when it is not null.  The
      factory is caller code, so its answer is an input. */
  function FetchOrStoreStep(prefix: string, up: bool, now: int, w: World, key: string, want: Want,
                            made: Option<Value>, expiresAt: int, parent: Option<string>): Outcome<Option<Value>> {
    var f := FetchStep(Async, prefix, up, now, w, key, want);
    if f.reply.Fault? || f.reply.value.Some? then f
    else match made
      case None => Outcome(f.world, Ok(None))
      case Some(x) =>
        var s := WriteStep(Async, prefix, up, f.world, key, x, Some(Span(expiresAt, now)), parent);
        Outcome(s.world, if s.reply.Fault? then Fault(s.reply.error) else Ok(Some(x)))
  }

  /** FetchOrStoreStep on a miss, once the write-through is known. */
  lemma StoreOnMiss(prefix: string, up: bool, now: int, w: World, key: string, want: Want, x: Value,
                    expiresAt: int, parent: Option<string>, f: Outcome<Option<Value>>, s: Outcome<bool>)
    requires f == FetchStep(Async, prefix, up, now, w, key, want) && f.reply == Ok(None)
    requires s == WriteStep(Async, prefix, up, f.world, key, x, Some(Span(expiresAt, now)), parent)
    ensures FetchOrStoreStep(prefix, up, now, w, key, want, Some(x), expiresAt, parent)
            == Outcome(s.world, if s.reply.Fault? then Fault(s.reply.error) else Ok(Some(x)))
  {
  }

  // ---------------------------------------------------------------------
  // Writes.
  // ---------------------------------------------------------------------

  /** The catch block of every Set overload: the key is removed locally and
      remotely; an exception from the remote removal escapes. */
  function RecoverStep(prefix: string, up: bool, w: World, key: string): Outcome<bool> {
    var rm := RemoveStep(Sync, prefix, up, w.db, key);
    Outcome(World(rm.db, w.log, Removed(prefix, w.items, key)),
            if rm.reply.Fault? then Fault(rm.reply.error) else Ok(false))
  }

  /** Set / SetAsync (every overload): write remote, publish the
      invalidation, answer true; any exception on the way leads to the
      catch block. */
  function WriteStep(v: Variant, prefix: string, up: bool, w: World, key: string, value: Value,
                     expiresIn: Option<int>, parent: Option<string>): Outcome<bool> {
    var s := SetStep(v, prefix, up, w.db, key, value, expiresIn, parent);
    if s.reply.Ok? && up then Outcome(World(s.db, w.log + [Invalidation(key)], w.items), Ok(true))
    else RecoverStep(prefix, up, World(s.db, w.log, w.items), key)
  }

  /** Remove / RemoveAsync: remove remote, publish the invalidation, answer
      true; any exception makes the answer false. */
  function DropStep(v: Variant, prefix: string, up: bool, w: World, key: string): Outcome<bool> {
    var rm := RemoveStep(v, prefix, up, w.db, key);
    if rm.reply.Ok? && up then Outcome(World(rm.db, w.log + [Invalidation(key)], w.items), Ok(true))
    else Outcome(World(rm.db, w.log, w.items), Ok(false))
  }

  /** FlushAll with the server up, `listed` being the keys the remote
      listing found: the remote flush, then the flush message. */
  function ClearStep(prefix: string, w: World, listed: seq<string>): Outcome<()> {
    var f := FlushStep(Sync, prefix, w.db, listed);
    if f.reply.Fault? then Outcome(World(f.db, w.log, w.items), f.reply)
    else Outcome(World(f.db, w.log + [Message(FlushChannel, "")], w.items), Ok(()))
  }

  /** FlushAllAsync: the remote FlushAllAsync (one delete of the key named
      `listingName`), then the flush message. */
  function ClearAsyncStep(up: bool, w: World, listingName: string): Outcome<()> {
    if !up then Outcome(w, Fault(Unreachable))
    else Outcome(World(Del(w.db, listingName), w.log + [Message(FlushChannel, "")], w.items), Ok(()))
  }

  // ---------------------------------------------------------------------
  // Key listing: the remote keys, then the local ones, one per name.
  // ---------------------------------------------------------------------

  /** `k` is the first entry of `ks` that carries its name. */
  predicate FirstOfName(ks: seq<Key>, k: Key) {
    exists i :: 0 <= i < |ks| && ks[i] == k && forall j :: 0 <= j < i ==> ks[j].keyName != k.keyName
  }

  /** Keeps, for each key name, only its first entry in `ks`. */
  function FirstByName(ks: seq<Key>): (r: seq<Key>)
    ensures Distinct(Names(r))
    ensures forall n :: n in Names(r) <==> n in Names(ks)
    ensures forall k :: k in r ==> FirstOfName(ks, k)
  {
    if ks == [] then []
    else
      var init := ks[..|ks| - 1];
      var last := ks[|ks| - 1];
      assert ks == init + [last];
      NamesSnoc(init, last);
      var r := FirstByName(init);
      FirstOfNameExtends(init, last, r);
      if last.keyName in Names(r) then r
      else
        NamesSnoc(r, last);
        DistinctSnoc(Names(r), last.keyName);
        FirstOfNameLast(init, last);
        r + [last]
  }

  lemma NamesSnoc(ks: seq<Key>, k: Key)
    ensures Names(ks + [k]) == Names(ks) + [k.keyName]
  {
  }

  lemma DistinctSnoc(s: seq<string>, x: string)
    requires Distinct(s) && x !in s
    ensures Distinct(s + [x])
  {
  }

  lemma FirstOfNameExtends(init: seq<Key>, last: Key, r: seq<Key>)
    requires forall k :: k in r ==> FirstOfName(init, k)
    ensures forall k :: k in r ==> FirstOfName(init + [last], k)
  {
    forall k | k in r ensures FirstOfName(init + [last], k) {
      var i :| 0 <= i < |init| && init[i] == k && forall j :: 0 <= j < i ==> init[j].keyName != k.keyName;
      assert (init + [last])[i] == k;
    }
  }

  lemma FirstOfNameLast(init: seq<Key>, last: Key)
    requires last.keyName !in Names(init)
    ensures FirstOfName(init + [last], last)
  {
    var ks := init + [last];
    forall j | 0 <= j < |ks| - 1 ensures ks[j].keyName != last.keyName {
      assert Names(init)[j] == ks[j].keyName;
    }
    assert ks[|ks| - 1] == last;
  }

  // ---------------------------------------------------------------------
  // Properties.
  // ---------------------------------------------------------------------

  /** A local hit is answered from the local tier: the remote tier is not
      read and nothing changes. */
  lemma LocalHitSkipsRemote(v: Variant, prefix: string, up: bool, now: int, w: World, key: string, want: Want, x: Value)
    requires Read(prefix, w.items, key, want).reply == Ok(Some(x))
    ensures FetchStep(v, prefix, up, now, w, key, want) == Outcome(w, Ok(Some(x)))
  {
  }

  /** A miss in both tiers answers the default and leaves the local tier
      as it was. */
  lemma MissEverywhereLeavesLocal(v: Variant, prefix: string, up: bool, now: int, w: World, key: string, want: Want)
    requires AddPrefix(prefix, Some(key)) !in w.items
    requires GetStep(v, prefix, up, w.db, key, want).reply == Ok(None)
    ensures var f := FetchStep(v, prefix, up, now, w, key, want);
            f.reply == Ok(None) && f.world.items == w.items && f.world.log == w.log
  {
  }

  /** Whatever the remote read hands back has the requested type. */
  lemma RemoteValueHasType(v: Variant, prefix: string, up: bool, db: Db, key: string, want: Want, x: Value)
    requires GetStep(v, prefix, up, db, key, want).reply == Ok(Some(x))
    ensures HasType(x, want) && up
  {
  }

  /** With nothing cached locally under the key, Get goes straight to the
      remote half. */
  lemma FetchOnMiss(v: Variant, prefix: string, up: bool, now: int, w: World, key: string, want: Want)
    requires AddPrefix(prefix, Some(key)) !in w.items
    ensures FetchStep(v, prefix, up, now, w, key, want) == FillStep(v, prefix, up, now, w, key, want)
  {
  }

  /** A remote hit whose parent name the variant accepts is stored locally
      with the backfill entry, then read back. */
  lemma FillOnHit(v: Variant, prefix: string, up: bool, now: int, w: World, key: string, want: Want, x: Value)
    requires GetStep(v, prefix, up, w.db, key, want).reply == Ok(Some(x))
    requires var g := GetStep(v, prefix, up, w.db, key, want);
             LocalParent(v, prefix, ParentName(GetStep(Sync, prefix, up, g.db, key + ".parent", WantText).reply.value)).Ok?
    ensures var g := GetStep(v, prefix, up, w.db, key, want);
            var ttl := TtlAnswer(up, g.db, AddPrefix(prefix, Some(key)));
            var p := GetStep(Sync, prefix, up, g.db, key + ".parent", WantText);
            var parent := LocalParent(v, prefix, ParentName(p.reply.value));
            var back := Read(prefix, Written(prefix, w.items, now, key, Backfill(now, ttl.value, x), parent.value), key, want);
            ttl.Ok? && (ttl.value == -1 || ttl.value > 0) && p.reply.Ok?
            && FillStep(v, prefix, up, now, w, key, want) == Outcome(World(p.db, w.log, back.items), back.reply)
  {
    RemoteValueHasType(v, prefix, up, w.db, key, want, x);
  }

  /** On a local miss and a remote hit, Get answers the remote value and
      leaves it cached locally, expiring when the remote copy does, provided
      the parent it names is cached locally (or there is none). */
  lemma BackfillFromRemote(v: Variant, prefix: string, up: bool, now: int, w: World, key: string, want: Want, x: Value)
    requires AddPrefix(prefix, Some(key)) !in w.items
    requires GetStep(v, prefix, up, w.db, key, want).reply == Ok(Some(x))
    requires var g := GetStep(v, prefix, up, w.db, key, want);
             var parent := LocalParent(v, prefix, ParentName(GetStep(Sync, prefix, up, g.db, key + ".parent", WantText).reply.value));
             parent.Ok? && ParentCached(prefix, w.items, key, parent.value)
    ensures var f := FetchStep(v, prefix, up, now, w, key, want);
            var g := GetStep(v, prefix, up, w.db, key, want);
            var pk := AddPrefix(prefix, Some(key));
            f.reply == Ok(Some(x)) && f.world.log == w.log
            && pk in f.world.items && f.world.items[pk].expiresAt == Expiration(now, TtlOf(g.db, pk))
  {
    FetchOnMiss(v, prefix, up, now, w, key, want);
    FillOnHit(v, prefix, up, now, w, key, want, x);
    RemoteValueHasType(v, prefix, up, w.db, key, want, x);
    var g := GetStep(v, prefix, up, w.db, key, want);
    var pk := AddPrefix(prefix, Some(key));
    var ttl := TtlAnswer(up, g.db, pk);
    var p := GetStep(Sync, prefix, up, g.db, key + ".parent", WantText);
    var parent := LocalParent(v, prefix, ParentName(p.reply.value));
    var e := Backfill(now, ttl.value, x);
    assert e.expiresAt == Expiration(now, TtlOf(g.db, pk));
    ReadBackWritten(prefix, w.items, now, key, e, parent.value, want);
    DependencyOnlyForParent(prefix, w.items, now, key, e, parent.value);
  }

  /** On a local miss and a remote hit whose parent is not cached locally,
      the backfilled entry is invalidated at once: Get answers the default,
      nothing is cached locally and nothing is published. */
  lemma BackfillUnderUncachedParent(v: Variant, prefix: string, up: bool, now: int, w: World, key: string,
                                    want: Want, x: Value)
    requires AddPrefix(prefix, Some(key)) !in w.items
    requires GetStep(v, prefix, up, w.db, key, want).reply == Ok(Some(x))
    requires var g := GetStep(v, prefix, up, w.db, key, want);
             var parent := LocalParent(v, prefix, ParentName(GetStep(Sync, prefix, up, g.db, key + ".parent", WantText).reply.value));
             parent.Ok? && !ParentCached(prefix, w.items, key, parent.value)
    ensures var f := FetchStep(v, prefix, up, now, w, key, want);
            f.reply == Ok(None) && f.world.log == w.log && AddPrefix(prefix, Some(key)) !in f.world.items
            && forall d :: d in f.world.items ==> d in w.items && f.world.items[d] == w.items[d]
  {
    FetchOnMiss(v, prefix, up, now, w, key, want);
    FillOnHit(v, prefix, up, now, w, key, want, x);
    var g := GetStep(v, prefix, up, w.db, key, want);
    var ttl := TtlAnswer(up, g.db, AddPrefix(prefix, Some(key)));
    var p := GetStep(Sync, prefix, up, g.db, key + ".parent", WantText);
    var parent := LocalParent(v, prefix, ParentName(p.reply.value));
    UncachedParentDropsEntry(prefix, w.items, now, key, Backfill(now, ttl.value, x), parent.value, want);
  }

  /** GetOrSetAsync on a remote hit whose parent is not cached locally: the
      read comes back empty, so the factory's value is answered and written
      through, as on a miss in both tiers. */
  lemma UncachedParentCallsFactory(prefix: string, up: bool, now: int, w: World, key: string, want: Want,
                                   x: Value, y: Value, expiresAt: int, parent: Option<string>)
    requires AddPrefix(prefix, Some(key)) !in w.items
    requires GetStep(Async, prefix, up, w.db, key, want).reply == Ok(Some(x))
    requires var g := GetStep(Async, prefix, up, w.db, key, want);
             var p := LocalParent(Async, prefix, ParentName(GetStep(Sync, prefix, up, g.db, key + ".parent", WantText).reply.value));
             p.Ok? && !ParentCached(prefix, w.items, key, p.value)
    ensures var f := FetchStep(Async, prefix, up, now, w, key, want);
            var o := FetchOrStoreStep(prefix, up, now, w, key, want, Some(y), expiresAt, parent);
            var s := SetStep(Async, prefix, up, f.world.db, key, y, Some(Span(expiresAt, now)), parent);
            f.reply == Ok(None)
            && (s.reply.Ok? ==> o == Outcome(World(s.db, w.log + [Invalidation(key)], f.world.items), Ok(Some(y))))
  {
    BackfillUnderUncachedParent(Async, prefix, up, now, w, key, want, x);
  }

  /** The synchronous Get never fails on the `.parent` read, so a remote
      hit always reaches the backfill; under a parent slot that is cached
      locally, the local child then depends on the parent named by the
      remote `.parent` entry. */
  lemma BackfillKeepsParent(prefix: string, up: bool, now: int, w: World, key: string, want: Want, x: Value, pp: string)
    requires AddPrefix(prefix, Some(key)) !in w.items
    requires GetStep(Sync, prefix, up, w.db, key, want).reply == Ok(Some(x))
    requires var g := GetStep(Sync, prefix, up, w.db, key, want);
             var ppk := ParentKey(AddPrefix(prefix, Some(key)));
             HoldsScalar(g.db, ppk) && g.db.data[ppk].v == Text(pp)
    requires StartsWith(pp, prefix) && !IsNullOrWhiteSpace(StripPrefix(prefix, Some(pp)))
    requires ParentCached(prefix, w.items, key, StripPrefix(prefix, Some(pp)))
    ensures var f := FetchStep(Sync, prefix, up, now, w, key, want);
            var pk := AddPrefix(prefix, Some(key));
            pk in f.world.items && f.world.items[pk].dependsOn == Some(pp)
  {
    var pk := AddPrefix(prefix, Some(key));
    assert AddPrefix(prefix, Some(key + ".parent")) == ParentKey(pk);
    var g := GetStep(Sync, prefix, up, w.db, key, want);
    var p := GetStep(Sync, prefix, up, g.db, key + ".parent", WantText);
    assert ParentName(p.reply.value) == Some(pp);
    FetchOnMiss(Sync, prefix, up, now, w, key, want);
    FillOnHit(Sync, prefix, up, now, w, key, want, x);
    RemoteValueHasType(Sync, prefix, up, w.db, key, want, x);
    var ttl := TtlAnswer(up, g.db, pk);
    var e := Backfill(now, ttl.value, x);
    ReadBackWritten(prefix, w.items, now, key, e, StripPrefix(prefix, Some(pp)), want);
    DependencyOnlyForParent(prefix, w.items, now, key, e, StripPrefix(prefix, Some(pp)));
  }

  /** For a parent name that carries the prefix, GetAsync's Substring and
      Get's StripPrefix agree; a shorter name makes GetAsync throw. */
  lemma ParentCutsAgree(prefix: string, p: string)
    ensures StartsWith(p, prefix) ==> LocalParent(Async, prefix, Some(p)) == LocalParent(Sync, prefix, Some(p))
    ensures |p| < |prefix| ==> LocalParent(Async, prefix, Some(p)) == Fault(ArgumentOutOfRange)
                               && LocalParent(Sync, prefix, Some(p)) == Ok(Some(p))
  {
  }

  /** Set answers true exactly when the remote write went through and the
      invalidation was published; the local tier is then not touched. */
  lemma WriteAnswersTrue(v: Variant, prefix: string, up: bool, w: World, key: string, value: Value,
                         expiresIn: Option<int>, parent: Option<string>)
    ensures var o := WriteStep(v, prefix, up, w, key, value, expiresIn, parent);
            var s := SetStep(v, prefix, up, w.db, key, value, expiresIn, parent);
            (o.reply == Ok(true) <==> up && s.reply.Ok?)
            && (o.reply == Ok(true) ==> o.world == World(s.db, w.log + [Invalidation(key)], w.items))
  {
  }

  /** When the remote write throws, the key ends up in neither tier, and
      nothing is published. */
  lemma WriteFailureClearsBoth(v: Variant, prefix: string, w: World, key: string, value: Value,
                               expiresIn: Option<int>, parent: Option<string>)
    requires SetStep(v, prefix, true, w.db, key, value, expiresIn, parent).reply.Fault?
    ensures var o := WriteStep(v, prefix, true, w, key, value, expiresIn, parent);
            var pk := AddPrefix(prefix, Some(key));
            o.reply != Ok(true) && pk !in o.world.db.data && pk !in o.world.items && o.world.log == w.log
  {
    var s := SetStep(v, prefix, true, w.db, key, value, expiresIn, parent);
    RemoveDeletesKey(Sync, prefix, s.db, key);
    RemoveEffect(prefix, w.items, key);
  }

  /** With the server down, Set throws rather than answering false: the
      catch block's remote Remove throws in turn.  The local copy is gone
      all the same. */
  lemma WriteWhileDownThrows(v: Variant, prefix: string, w: World, key: string, value: Value,
                             expiresIn: Option<int>, parent: Option<string>)
    ensures WriteStep(v, prefix, false, w, key, value, expiresIn, parent)
         == Outcome(World(w.db, w.log, Removed(prefix, w.items, key)), Fault(Unreachable))
  {
  }

  /** Remove answers true whenever the remote removal returns, whether or
      not the key was there, and then publishes the invalidation; it never
      throws, and it leaves the local tier to the subscription. */
  lemma DropAnswers(v: Variant, prefix: string, up: bool, w: World, key: string)
    ensures var o := DropStep(v, prefix, up, w, key);
            o.reply.Ok? && o.world.items == w.items
            && (o.reply.value <==> up && RemoveStep(v, prefix, up, w.db, key).reply.Ok?)
            && (o.reply.value ==> o.world.log == w.log + [Invalidation(key)])
            && (!o.reply.value ==> o.world.log == w.log)
  {
  }

  /** Remove of a key that is in neither tier still answers true and
      publishes, when the server is up. */
  lemma DropAbsentAnswersTrue(v: Variant, prefix: string, w: World, key: string)
    requires AddPrefix(prefix, Some(key)) !in w.db.data
    ensures DropStep(v, prefix, true, w, key) == Outcome(World(w.db, w.log + [Invalidation(key)], w.items), Ok(true))
  {
    RemoveAbsent(v, prefix, w.db, key);
  }

  /** FlushAll publishes the flush message exactly when the remote flush
      went through, and leaves the local tier to the subscription. */
  lemma ClearPublishesFlush(prefix: string, w: World, listed: seq<string>)
    ensures var o := ClearStep(prefix, w, listed);
            o.world.items == w.items
            && (o.reply.Ok? <==> FlushStep(Sync, prefix, w.db, listed).reply.Ok?)
            && (o.reply.Ok? ==> o.world.log == w.log + [Message(FlushChannel, "")])
  {
  }

  /** FlushAllAsync publishes the flush message exactly when its one
      remote delete returns; while the server is down it throws and changes
      nothing.  The local tier is never touched. */
  lemma ClearAsyncPublishesFlush(up: bool, w: World, listingName: string)
    ensures var o := ClearAsyncStep(up, w, listingName);
            o.world.items == w.items
            && (o.reply.Ok? <==> up)
            && (o.reply.Ok? ==> o.world.db == Del(w.db, listingName) && o.world.log == w.log + [Message(FlushChannel, "")])
            && (o.reply.Fault? ==> o.world == w)
  {
  }

  /** GetOrSetAsync with a miss in both tiers: the factory's value is
      answered, and it is written remotely when it is not null. */
  lemma FactoryValueAnswered(prefix: string, up: bool, now: int, w: World, key: string, want: Want,
                             x: Value, expiresAt: int, parent: Option<string>)
    requires AddPrefix(prefix, Some(key)) !in w.items
    requires GetStep(Async, prefix, up, w.db, key, want).reply == Ok(None)
    requires up
    ensures var o := FetchOrStoreStep(prefix, up, now, w, key, want, Some(x), expiresAt, parent);
            var s := SetStep(Async, prefix, up, w.db, key, x, Some(Span(expiresAt, now)), parent);
            (s.reply.Ok? ==> o == Outcome(World(s.db, w.log + [Invalidation(key)], w.items), Ok(Some(x))))
  {
  }

  /** GetOrSetAsync with a null factory value writes nothing. */
  lemma NullFactoryWritesNothing(prefix: string, up: bool, now: int, w: World, key: string, want: Want,
                                 expiresAt: int, parent: Option<string>)
    ensures var o := FetchOrStoreStep(prefix, up, now, w, key, want, None, expiresAt, parent);
            var f := FetchStep(Async, prefix, up, now, w, key, want);
            o.world == f.world && (f.reply.Ok? ==> o.reply == f.reply)
  {
  }

  /** In the merged listing a name the remote listing reports carries the
      remote entry; any other name carries a local entry. */
  lemma {:induction false} RemoteEntryWins(remote: seq<Key>, local: seq<Key>)
    ensures forall k :: k in FirstByName(remote + local) ==>
              (k.keyName in Names(remote) ==> k in remote)
              && (k.keyName !in Names(remote) ==> k in local)
  {
    var ks := remote + local;
    forall k | k in FirstByName(ks)
      ensures k.keyName in Names(remote) ==> k in remote
      ensures k.keyName !in Names(remote) ==> k in local
    {
      var i :| 0 <= i < |ks| && ks[i] == k && forall j :: 0 <= j < i ==> ks[j].keyName != k.keyName;
      if k.keyName in Names(remote) {
        var j0 :| 0 <= j0 < |remote| && Names(remote)[j0] == k.keyName;
        assert ks[j0].keyName == k.keyName;
        assert ks[i] == remote[i];
      } else {
        assert ks[i] == local[i - |remote|];
      }
    }
  }

  /** A listing of the local slots names exactly the slots that hold a
      CacheEntry. */
  lemma ListedNames(localKeys: seq<Key>, items: Items)
    requires forall k :: k in localKeys <==> Listed(items, k)
    ensures forall n :: n in Names(localKeys) <==> n in items && items[n].obj.Wrapped?
  {
    forall n | n in Names(localKeys)
      ensures n in items && items[n].obj.Wrapped?
    {
      var i :| 0 <= i < |localKeys| && Names(localKeys)[i] == n;
      assert Listed(items, localKeys[i]);
    }
    forall n | n in items && items[n].obj.Wrapped?
      ensures n in Names(localKeys)
    {
      var k := Key(n, items[n].obj.entry.expiresAt);
      assert Listed(items, k);
      var i :| 0 <= i < |localKeys| && localKeys[i] == k;
      assert Names(localKeys)[i] == n;
    }
  }

  /** The merged listing of GetAllKeysAsync: each name listed once, the
      names of either listing, and for a name the remote tier lists, the
      remote entry. */
  lemma {:induction false} MergedListing(remoteKeys: seq<Key>, localKeys: seq<Key>, db: Db, pattern: string,
                                         items: Items, now: int)
    requires forall n :: n in Names(remoteKeys) <==> n in db.data && Glob.Matches(pattern, n)
    requires forall i :: 0 <= i < |remoteKeys| ==>
               remoteKeys[i].expirationDate == Expiration(now, TtlOf(db, remoteKeys[i].keyName))
    requires forall k :: k in localKeys <==> Listed(items, k)
    ensures var merged := FirstByName(remoteKeys + localKeys);
            Distinct(Names(merged))
            && (forall n :: n in Names(merged) <==>
                  (n in db.data && Glob.Matches(pattern, n)) || (n in items && items[n].obj.Wrapped?))
            && forall k :: k in merged ==>
                 if k.keyName in db.data && Glob.Matches(pattern, k.keyName)
                 then k.expirationDate == Expiration(now, TtlOf(db, k.keyName))
                 else Listed(items, k)
  {
    var merged := FirstByName(remoteKeys + localKeys);
    RemoteEntryWins(remoteKeys, localKeys);
    ListedNames(localKeys, items);
    assert Names(remoteKeys + localKeys) == Names(remoteKeys) + Names(localKeys);
    forall k | k in merged
      ensures if k.keyName in db.data && Glob.Matches(pattern, k.keyName)
              then k.expirationDate == Expiration(now, TtlOf(db, k.keyName))
              else Listed(items, k)
    {
      if k.keyName in Names(remoteKeys) {
        var i :| 0 <= i < |remoteKeys| && remoteKeys[i] == k;
      }
    }
  }
}
