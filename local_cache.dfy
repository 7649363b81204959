/** The local tier: CacheSleeve/HttpContextCacher.cs over the ASP.NET
    in-process cache.  The ASP.NET cache is `AspNetCache`: a map from slot
    name to item, and the clock that drives absolute expiration.  The
    `CacheDependency` on a parent key is the `dependsOn` name of an item:
    when the slot of that name is removed, the item is removed with it, and
    an item whose dependency names a slot that is not cached is invalidated
    as soon as it is inserted. */
module LocalCache {
  import opened Wrappers
  import opened CacheTypes
  import opened KeyCodec

  /** HttpContextCacher's private wrapper: the value and the instant it
      expires at, if any. */
  datatype CacheEntry = CacheEntry(value: Value, expiresAt: Option<int>)

  /** What a slot of the process-wide cache holds: CacheSleeve's wrapper, or
      an object some other code stored there. */
  datatype Stored = Wrapped(entry: CacheEntry) | Foreign(obj: Value)

  /** A slot: what it holds, the slot its dependency watches, and its
      absolute expiration. */
  datatype Item = Item(obj: Stored, dependsOn: Option<string>, expiresAt: Option<int>)

  type Items = map<string, Item>

  /** An item whose expiration instant has not come yet at `now`. */
  predicate Live(it: Item, now: int) {
    it.expiresAt.None? || now < it.expiresAt.value
  }

  predicate AllLive(items: Items, now: int) {
    forall k :: k in items ==> Live(items[k], now)
  }

  // ---------------------------------------------------------------------
  // The ASP.NET cache.
  // ---------------------------------------------------------------------

  /** `Cache.Remove(k)`: the slot goes, and with it every item whose
      dependency watches `k`. */
  function Evict(items: Items, k: string): Items {
    map d | d in items && d != k && items[d].dependsOn != Some(k) :: items[d]
  }

  /** The item's dependency watches no slot, or a slot that is cached. */
  predicate Watchable(items: Items, it: Item) {
    it.dependsOn.None? || it.dependsOn.value in items
  }

  /** `Cache.Insert(k, ...)`: the old slot at `k` is removed first, which
      also invalidates the items that depend on it.  An item whose instant
      has already come is not kept, and neither is one whose dependency
      watches a slot that is not cached: ASP.NET invalidates it at once. */
  function Inserted(items: Items, now: int, k: string, it: Item): Items {
    var rest := Evict(items, k);
    if Live(it, now) && Watchable(rest, it) then rest[k := it] else rest
  }

  predicate Due(it: Item, t: int) {
    it.expiresAt.Some? && it.expiresAt.value <= t
  }

  /** The cache once the clock reaches `t`: items whose instant has come
      are gone, and so are the items that depend on one of them. */
  function ExpiredAt(items: Items, t: int): Items {
    map d | d in items && !Due(items[d], t)
            && !(items[d].dependsOn.Some? && items[d].dependsOn.value in items
                 && Due(items[items[d].dependsOn.value], t))
          :: items[d]
  }

  class AspNetCache {
    var items: Items
    var now: int

    /** Expired items are never visible. */
    ghost predicate Valid()
      reads this
    {
      AllLive(items, now)
    }

    constructor (now: int)
      ensures items == map[] && this.now == now && Valid()
    {
      items := map[];
      this.now := now;
    }

    /** `Cache.Get(k)`: null for an empty slot. */
    method Get(k: string) returns (r: Option<Stored>)
      ensures r.Some? <==> k in items
      ensures r.Some? ==> r.value == items[k].obj
    {
      r := if k in items then Some(items[k].obj) else None;
    }

    method Insert(k: string, obj: Stored, dependsOn: Option<string>, expiresAt: Option<int>)
      requires Valid()
      modifies this`items
      ensures Valid()
      ensures items == Inserted(old(items), now, k, Item(obj, dependsOn, expiresAt))
    {
      items := Inserted(items, now, k, Item(obj, dependsOn, expiresAt));
    }

    method Remove(k: string)
      requires Valid()
      modifies this`items
      ensures Valid()
      ensures items == Evict(old(items), k)
    {
      items := Evict(items, k);
    }

    /** The names the cache enumerator walks: a snapshot taken when the
        enumeration starts. */
    method Keys() returns (ks: set<string>)
      ensures ks == items.Keys
    {
      ks := items.Keys;
    }

    /** The clock moves on to `t`; expiration removes what is due. */
    method AdvanceTo(t: int)
      requires Valid() && now <= t
      modifies this
      ensures Valid()
      ensures now == t && items == ExpiredAt(old(items), t)
    {
      items := ExpiredAt(items, t);
      now := t;
    }
  }

  // ---------------------------------------------------------------------
  // What each HttpContextCacher operation does to the cache.
  // ---------------------------------------------------------------------

  /** The dependency InternalSet builds: none for a null or blank parent,
      otherwise one on the prefixed parent key. */
  function Dependency(prefix: string, parentKey: Option<string>): Option<string> {
    if IsNullOrWhiteSpace(parentKey) then None else Some(AddPrefix(prefix, parentKey))
  }

  /** The cache after InternalSet(key, entry, parentKey). */
  function Written(prefix: string, items: Items, now: int, key: string, entry: CacheEntry,
                   parentKey: Option<string>): Items {
    Inserted(items, now, AddPrefix(prefix, Some(key)),
             Item(Wrapped(entry), Dependency(prefix, parentKey), entry.expiresAt))
  }

  /** The parent slot InternalSet(key, _, parentKey) makes the entry depend
      on is still cached once the old entry under `key` is gone, or there is
      no parent. */
  predicate ParentCached(prefix: string, items: Items, key: string, parentKey: Option<string>) {
    var d := Dependency(prefix, parentKey);
    d.None? || d.value in Evict(items, AddPrefix(prefix, Some(key)))
  }

  /** The cache after Remove(key): untouched when nothing is cached under
      the key; otherwise the key and its `.parent` companion are removed. */
  function Removed(prefix: string, items: Items, key: string): Items {
    var pk := AddPrefix(prefix, Some(key));
    if pk !in items then items
    else Evict(Evict(items, pk), AddPrefix(prefix, Some(key + ".parent")))
  }

  /** The cache after an operation, and what the operation answers. */
  datatype Local<T> = Local(items: Items, reply: Reply<T>)

  /** Get<T>(key).  The cast to CacheEntry throws on a slot that holds
      something else; a missing entry, or one whose value is not exactly a
      `T`, is removed and reads as the default. */
  function Read(prefix: string, items: Items, key: string, want: Want): Local<Option<Value>> {
    var pk := AddPrefix(prefix, Some(key));
    if pk in items && items[pk].obj.Foreign? then Local(items, Fault(InvalidCast))
    else if pk in items && HasType(items[pk].obj.entry.value, want) then Local(items, Ok(Some(items[pk].obj.entry.value)))
    else Local(Removed(prefix, items, key), Ok(None))
  }

  /** TimeToLive(key): -1 for a missing entry or one without expiry,
      otherwise the seconds from `now` to its instant. */
  function TimeLeft(prefix: string, items: Items, now: int, key: string): Reply<int> {
    var pk := AddPrefix(prefix, Some(key));
    if pk !in items then Ok(-1)
    else match items[pk].obj
      case Foreign(_) => Fault(InvalidCast)
      case Wrapped(e) => if e.expiresAt.None? then Ok(-1) else Ok(e.expiresAt.value - now)
  }

  /** The entries GetAllKeys reports: the slot name, for slots holding a
      CacheEntry, with that entry's expiration. */
  predicate Listed(items: Items, k: Key) {
    k.keyName in items && items[k.keyName].obj.Wrapped?
    && k.expirationDate == items[k.keyName].obj.entry.expiresAt
  }

  /** Every CacheEntry carries the expiration its slot was inserted with,
      as InternalSet arranges. */
  predicate Stamped(items: Items) {
    forall k :: k in items && items[k].obj.Wrapped? ==> items[k].obj.entry.expiresAt == items[k].expiresAt
  }

  class HttpContextCacher {
    const store: AspNetCache
    const prefix: string

    constructor (store: AspNetCache, prefix: string)
      ensures this.store == store && this.prefix == prefix
    {
      this.store := store;
      this.prefix := prefix;
    }

    method Get(key: string, want: Want) returns (r: Reply<Option<Value>>)
      requires store.Valid()
      modifies store`items
      ensures store.Valid()
      ensures Local(store.items, r) == Read(prefix, old(store.items), key, want)
    {
      var slot := store.Get(AddPrefix(prefix, Some(key)));
      if slot.Some? && slot.value.Foreign? {
        return Fault(InvalidCast);
      }
      if slot.None? || !HasType(slot.value.entry.value, want) {
        var _ := Remove(key);
        return Ok(None);
      }
      r := Ok(Some(slot.value.entry.value));
    }

    method Set(key: string, value: Value, parentKey: Option<string>) returns (r: bool)
      requires store.Valid()
      modifies store`items
      ensures store.Valid()
      ensures r && store.items == Written(prefix, old(store.items), store.now, key, CacheEntry(value, None), parentKey)
    {
      r := InternalSet(key, CacheEntry(value, None), parentKey);
    }

    method SetUntil(key: string, value: Value, expiresAt: int, parentKey: Option<string>) returns (r: bool)
      requires store.Valid()
      modifies store`items
      ensures store.Valid()
      ensures r && store.items == Written(prefix, old(store.items), store.now, key, CacheEntry(value, Some(expiresAt)), parentKey)
    {
      r := InternalSet(key, CacheEntry(value, Some(expiresAt)), parentKey);
    }

    /** The TimeSpan overload: the entry expires `expiresIn` seconds from now. */
    method SetFor(key: string, value: Value, expiresIn: int, parentKey: Option<string>) returns (r: bool)
      requires store.Valid()
      modifies store`items
      ensures store.Valid()
      ensures r && store.items == Written(prefix, old(store.items), store.now, key, CacheEntry(value, Some(Deadline(store.now, expiresIn))), parentKey)
    {
      r := InternalSet(key, CacheEntry(value, Some(Deadline(store.now, expiresIn))), parentKey);
    }

    method Remove(key: string) returns (r: bool)
      requires store.Valid()
      modifies store`items
      ensures store.Valid()
      ensures r == (AddPrefix(prefix, Some(key)) in old(store.items))
      ensures store.items == Removed(prefix, old(store.items), key)
    {
      var slot := store.Get(AddPrefix(prefix, Some(key)));
      if slot.None? {
        return false;
      }
      store.Remove(AddPrefix(prefix, Some(key)));
      store.Remove(AddPrefix(prefix, Some(key + ".parent")));
      r := true;
    }

    /** Walks the enumerator and removes every slot it yields. */
    method FlushAll()
      requires store.Valid()
      modifies store`items
      ensures store.Valid()
      ensures store.items == map[]
    {
      var remaining := store.Keys();
      while remaining != {}
        invariant store.Valid()
        invariant store.items.Keys <= remaining
        decreases remaining
      {
        var k :| k in remaining;
        store.Remove(k);
        remaining := remaining - {k};
      }
      assert store.items.Keys == {};
    }

    /** Every slot holding a CacheEntry, once, with its expiration. */
    method GetAllKeys() returns (r: seq<Key>)
      ensures Distinct(Names(r))
      ensures forall k :: k in r <==> Listed(store.items, k)
    {
      var slots := store.Keys();
      var remaining := slots;
      r := [];
      while remaining != {}
        invariant remaining <= slots == store.items.Keys
        invariant Distinct(Names(r))
        invariant forall n :: n in Names(r) ==> n in slots && n !in remaining
        invariant forall k :: k in r <==> Listed(store.items, k) && k.keyName !in remaining
        decreases remaining
      {
        var n :| n in remaining;
        var slot := store.Get(n);
        if slot.value.Wrapped? {
          r := r + [Key(n, slot.value.entry.expiresAt)];
        }
        remaining := remaining - {n};
      }
    }

    method TimeToLive(key: string) returns (r: Reply<int>)
      requires store.Valid()
      ensures r == TimeLeft(prefix, store.items, store.now, key)
      ensures r.Ok? && Stamped(store.items) ==> r.value == -1 || r.value > 0
    {
      var slot := store.Get(AddPrefix(prefix, Some(key)));
      if slot.None? {
        return Ok(-1);
      }
      match slot.value
      case Foreign(_) =>
        r := Fault(InvalidCast);
      case Wrapped(e) =>
        r := if e.expiresAt.None? then Ok(-1) else Ok(e.expiresAt.value - store.now);
    }

    /** The dependency is attached only for a parent key that is not null
        or blank. */
    method InternalSet(key: string, entry: CacheEntry, parentKey: Option<string>) returns (r: bool)
      requires store.Valid()
      modifies store`items
      ensures store.Valid()
      ensures r && store.items == Written(prefix, old(store.items), store.now, key, entry, parentKey)
    {
      var dependency: Option<string> := None;
      if !IsNullOrWhiteSpace(parentKey) {
        dependency := Some(AddPrefix(prefix, parentKey));
      }
      store.Insert(AddPrefix(prefix, Some(key)), Wrapped(entry), dependency, entry.expiresAt);
      r := true;
    }
  }

  // ---------------------------------------------------------------------
  // Properties of the local tier.
  // ---------------------------------------------------------------------

  /** Get hands back a value exactly when an entry holding a value of the
      requested type is cached under the key. */
  lemma ReadHitExactly(prefix: string, items: Items, key: string, want: Want, x: Value)
    ensures Read(prefix, items, key, want).reply == Ok(Some(x))
        <==> var pk := AddPrefix(prefix, Some(key));
             pk in items && items[pk].obj.Wrapped? && items[pk].obj.entry.value == x && HasType(x, want)
  {
  }

  /** A cached entry of another type is removed, with its `.parent`
      companion, and reads as the default. */
  lemma MistypedEntryEvicted(prefix: string, items: Items, key: string, want: Want)
    requires var pk := AddPrefix(prefix, Some(key));
             pk in items && items[pk].obj.Wrapped? && !HasType(items[pk].obj.entry.value, want)
    ensures var l := Read(prefix, items, key, want);
            l.reply == Ok(None) && AddPrefix(prefix, Some(key)) !in l.items
            && AddPrefix(prefix, Some(key + ".parent")) !in l.items
  {
  }

  /** Reading a key that holds nothing changes nothing. */
  lemma ReadMissLeavesCache(prefix: string, items: Items, key: string, want: Want)
    requires AddPrefix(prefix, Some(key)) !in items
    ensures Read(prefix, items, key, want) == Local(items, Ok(None))
  {
  }

  /** What was just written under a cached parent (or none) reads back,
      whatever was cached before. */
  lemma ReadBackWritten(prefix: string, items: Items, now: int, key: string, entry: CacheEntry,
                        parentKey: Option<string>, want: Want)
    requires HasType(entry.value, want)
    requires entry.expiresAt.None? || now < entry.expiresAt.value
    requires ParentCached(prefix, items, key, parentKey)
    ensures var w := Written(prefix, items, now, key, entry, parentKey);
            Read(prefix, w, key, want) == Local(w, Ok(Some(entry.value)))
  {
  }

  /** An entry written under a parent that is not cached is invalidated at
      once: the old entry under the key is gone, nothing new is cached, and
      the key reads as absent. */
  lemma UncachedParentDropsEntry(prefix: string, items: Items, now: int, key: string, entry: CacheEntry,
                                 parentKey: Option<string>, want: Want)
    requires !ParentCached(prefix, items, key, parentKey)
    ensures var w := Written(prefix, items, now, key, entry, parentKey);
            AddPrefix(prefix, Some(key)) !in w
            && (forall d :: d in w ==> d in items && w[d] == items[d])
            && Read(prefix, w, key, want) == Local(w, Ok(None))
  {
  }

  /** A second Set of the same key overwrites the first. */
  lemma {:induction false} LaterSetWins(prefix: string, items: Items, now: int, key: string,
                                        first: CacheEntry, second: CacheEntry,
                                        p1: Option<string>, p2: Option<string>, want: Want)
    requires HasType(second.value, want)
    requires second.expiresAt.None? || now < second.expiresAt.value
    requires ParentCached(prefix, Written(prefix, items, now, key, first, p1), key, p2)
    ensures var w := Written(prefix, Written(prefix, items, now, key, first, p1), now, key, second, p2);
            Read(prefix, w, key, want).reply == Ok(Some(second.value))
  {
    ReadBackWritten(prefix, Written(prefix, items, now, key, first, p1), now, key, second, p2, want);
  }

  /** A live entry under a cached parent records a dependency exactly when
      the parent key is neither null nor blank, and then on the prefixed
      parent. */
  lemma DependencyOnlyForParent(prefix: string, items: Items, now: int, key: string, entry: CacheEntry,
                                parentKey: Option<string>)
    requires entry.expiresAt.None? || now < entry.expiresAt.value
    requires ParentCached(prefix, items, key, parentKey)
    ensures var w := Written(prefix, items, now, key, entry, parentKey);
            var pk := AddPrefix(prefix, Some(key));
            pk in w
            && (w[pk].dependsOn.Some? <==> !IsNullOrWhiteSpace(parentKey))
            && (w[pk].dependsOn.Some? ==> w[pk].dependsOn.value == AddPrefix(prefix, parentKey))
  {
  }

  /** Removing a cached parent evicts a child written with that parent. */
  lemma RemovingParentEvictsChild(prefix: string, items: Items, now: int, key: string, entry: CacheEntry,
                                  parent: string)
    requires !IsNullOrWhiteSpace(Some(parent))
    requires AddPrefix(prefix, Some(parent)) in Written(prefix, items, now, key, entry, Some(parent))
    ensures var w := Written(prefix, items, now, key, entry, Some(parent));
            AddPrefix(prefix, Some(key)) !in Removed(prefix, w, parent)
  {
  }

  /** Remove of a key with nothing cached answers false and changes
      nothing; otherwise it answers true, the key and its `.parent` entry
      are gone and every surviving slot is as it was. */
  lemma RemoveEffect(prefix: string, items: Items, key: string)
    ensures AddPrefix(prefix, Some(key)) !in items ==> Removed(prefix, items, key) == items
    ensures var r := Removed(prefix, items, key);
            AddPrefix(prefix, Some(key)) in items ==>
              AddPrefix(prefix, Some(key)) !in r && AddPrefix(prefix, Some(key + ".parent")) !in r
              && forall d :: d in r ==> d in items && r[d] == items[d]
  {
  }

  /** TimeToLive is -1 for a missing key and after an untimed Set. */
  lemma UntimedHasNoTtl(prefix: string, items: Items, now: int, key: string, value: Value,
                        parentKey: Option<string>)
    ensures AddPrefix(prefix, Some(key)) !in items ==> TimeLeft(prefix, items, now, key) == Ok(-1)
    ensures TimeLeft(prefix, Written(prefix, items, now, key, CacheEntry(value, None), parentKey), now, key) == Ok(-1)
  {
  }

  /** Set with a span of `span` seconds under a cached parent (or none):
      TimeToLive answers `span`, the entry reads back until its instant, and
      is gone from that instant on. */
  lemma TimedEntryExpires(prefix: string, items: Items, now: int, key: string, value: Value,
                          span: int, parentKey: Option<string>, want: Want, t: int)
    requires span > 0 && HasType(value, want) && ParentCached(prefix, items, key, parentKey)
    ensures var w := Written(prefix, items, now, key, CacheEntry(value, Some(Deadline(now, span))), parentKey);
            TimeLeft(prefix, w, now, key) == Ok(span)
            && Read(prefix, w, key, want).reply == Ok(Some(value))
            && (t >= now + span ==> Read(prefix, ExpiredAt(w, t), key, want).reply == Ok(None))
  {
    var w := Written(prefix, items, now, key, CacheEntry(value, Some(Deadline(now, span))), parentKey);
    ReadBackWritten(prefix, items, now, key, CacheEntry(value, Some(Deadline(now, span))), parentKey, want);
    assert AddPrefix(prefix, Some(key)) !in ExpiredAt(w, t) || t < now + span;
  }

  /** Writing through InternalSet keeps every entry stamped. */
  lemma WrittenStamped(prefix: string, items: Items, now: int, key: string, entry: CacheEntry,
                       parentKey: Option<string>)
    requires Stamped(items)
    ensures Stamped(Written(prefix, items, now, key, entry, parentKey))
  {
  }

  /** After FlushAll every key reads as absent. */
  lemma FlushedReadsAbsent(prefix: string, key: string, want: Want)
    ensures Read(prefix, map[], key, want) == Local(map[], Ok(None))
  {
  }

  /** Each live entry's time to live is positive: the clock never passes an
      instant without expiring the entry. */
  lemma LiveTtlPositive(prefix: string, items: Items, now: int, key: string)
    requires AllLive(items, now) && Stamped(items)
    ensures var r := TimeLeft(prefix, items, now, key);
            r.Ok? ==> r.value == -1 || r.value > 0
  {
  }
}
