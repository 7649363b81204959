/** The Redis cacher of CacheSleeve (CacheSleeve/RedisCacher.cs with its
    asynchronous half CacheSleeve/RedisCacherAsync.cs).  Every operation is
    proved to leave the store and answer exactly what the corresponding
    step function of RemoteSpec says. */
module RemoteCache {
  import opened Wrappers
  import opened CacheTypes
  import opened KeyCodec
  import opened RedisStore
  import opened RemoteSpec
  import Glob

  class RedisCacher {
    const server: Server
    const prefix: string

    constructor (server: Server, prefix: string)
      ensures this.server == server && this.prefix == prefix
    {
      this.server := server;
      this.prefix := prefix;
    }

    /** CacheManager.GetAllKeys, which the cacher calls on its settings: the
        server's keys matching `prefix*`. */
    method ListKeys() returns (r: Reply<seq<string>>)
      ensures r.Fault? <==> !server.reachable
      ensures r.Fault? ==> r.error == Unreachable
      ensures r.Ok? ==> Distinct(r.value)
      ensures r.Ok? ==> forall k :: k in r.value <==> k in server.db.data && Glob.Matches(AddPrefix(prefix, Some("*")), k)
      ensures r.Ok? && Glob.Literal(prefix) ==> forall k :: k in r.value ==> StartsWith(k, prefix)
    {
      r := server.Keys(AddPrefix(prefix, Some("*")));
      if r.Ok? && Glob.Literal(prefix) {
        forall k | k in r.value ensures StartsWith(k, prefix) {
          ListedKeysCarryPrefix(prefix, k);
        }
      }
    }

    // ---------------------------------------------------------------
    // CacheSleeve/RedisCacher.cs
    // ---------------------------------------------------------------

    method Get(key: string, want: Want) returns (r: Reply<Option<Value>>)
      modifies server`db
      ensures Step(server.db, r) == GetStep(Sync, prefix, server.reachable, old(server.db), key, want)
    {
      var pk := AddPrefix(prefix, Some(key));
      if want == WantBytes {
        var raw := server.StringGet(pk);
        return RawAs(raw, want);
      }
      var raw := server.StringGet(pk);
      if raw.Fault? || raw.value.None? {
        return Ok(None);
      }
      var x := raw.value.value;
      if want == WantText {
        return Ok(Some(Text(AsText(x))));
      }
      if HasType(x, want) {
        return Ok(Some(x));
      }
      if x.Object? {
        return Fault(DecodeFailure);
      }
      var removed :- Remove(key);
      r := Ok(None);
    }

    method Set(key: string, value: Value, parentKey: Option<string>) returns (r: Reply<bool>)
      modifies server`db
      ensures Step(server.db, r) == SetStep(Sync, prefix, server.reachable, old(server.db), key, value, None, parentKey)
    {
      var ok := InternalSet(key, value);
      if ok {
        var pk := AddPrefix(prefix, Some(key));
        var u :- RemoveDependencies(pk);
        var w :- SetDependencies(pk, AddPrefix(prefix, parentKey));
      }
      r := Ok(true);
    }

    /** The DateTime overload: the statements of SetFor, with the span from
        `now` to `expiresAt` computed once the write has gone through. */
    method SetUntil(key: string, value: Value, expiresAt: int, now: int, parentKey: Option<string>) returns (r: Reply<bool>)
      modifies server`db
      ensures Step(server.db, r) == SetStep(Sync, prefix, server.reachable, old(server.db), key, value, Some(Span(expiresAt, now)), parentKey)
    {
      var ok := InternalSet(key, value);
      if !ok {
        return Ok(false);
      }
      var pk := AddPrefix(prefix, Some(key));
      var timeSpan := Span(expiresAt, now);
      // The write just went through, so the server is known to be up.
      var expired := server.KeyExpire(pk, timeSpan);
      var u :- RemoveDependencies(pk);
      var w :- SetDependencies(pk, AddPrefix(prefix, parentKey));
      r := Ok(expired.value);
    }

    method SetFor(key: string, value: Value, expiresIn: int, parentKey: Option<string>) returns (r: Reply<bool>)
      modifies server`db
      ensures Step(server.db, r) == SetStep(Sync, prefix, server.reachable, old(server.db), key, value, Some(expiresIn), parentKey)
    {
      var ok := InternalSet(key, value);
      if !ok {
        return Ok(false);
      }
      var pk := AddPrefix(prefix, Some(key));
      // The write just went through, so the server is known to be up.
      var expired := server.KeyExpire(pk, expiresIn);
      var u :- RemoveDependencies(pk);
      var w :- SetDependencies(pk, AddPrefix(prefix, parentKey));
      r := Ok(expired.value);
    }

    method Remove(key: string) returns (r: Reply<bool>)
      modifies server`db
      ensures Step(server.db, r) == RemoveStep(Sync, prefix, server.reachable, old(server.db), key)
    {
      var pk := AddPrefix(prefix, Some(key));
      ghost var db0 := server.db;
      var existed :- server.KeyDelete(pk);
      if !existed {
        DelMissing(db0, pk);
        return Ok(false);
      }
      var u :- RemoveDependencies(pk);
      var gone := server.KeyDelete(AddPrefix(prefix, Some(key + ".parent")));
      r := Ok(true);
    }

    /** Removes every listed key in turn; `listed` is the listing, in the
        order the server produced it. */
    method FlushAll() returns (r: Reply<()>, ghost listed: seq<string>)
      modifies server`db
      ensures !server.reachable ==> r == Fault(Unreachable) && server.db == old(server.db)
      ensures server.reachable ==>
                (forall k :: k in listed <==> k in old(server.db).data && Glob.Matches(AddPrefix(prefix, Some("*")), k))
                && Step(server.db, r) == FlushStep(Sync, prefix, old(server.db), listed)
    {
      listed := [];
      var keys :- ListKeys();
      listed := keys;
      ghost var db0 := server.db;
      var i := 0;
      while i < |keys|
        invariant i <= |keys|
        invariant Step(server.db, Ok(())) == FlushStep(Sync, prefix, db0, keys[..i])
      {
        assert keys[..i + 1][..i] == keys[..i];
        var removed := Remove(StripPrefix(prefix, Some(keys[i])).value);
        if removed.Fault? {
          FlushStepStaysFaulted(Sync, prefix, db0, keys, i + 1);
          return Fault(removed.error), listed;
        }
        i := i + 1;
      }
      assert keys[..i] == keys;
      r := Ok(());
    }

    /** Lists the prefixed keys with their expiration instants, `now` being
        the caller's clock. */
    method GetAllKeys(now: int) returns (r: Reply<seq<Key>>)
      ensures r.Fault? <==> !server.reachable
      ensures r.Fault? ==> r.error == Unreachable
      ensures r.Ok? ==> Distinct(Names(r.value))
      ensures r.Ok? ==> forall k :: k in Names(r.value) <==> k in server.db.data && Glob.Matches(AddPrefix(prefix, Some("*")), k)
      ensures r.Ok? ==> forall i :: 0 <= i < |r.value| ==>
                r.value[i].expirationDate == Expiration(now, TtlOf(server.db, r.value[i].keyName))
    {
      var names :- ListKeys();
      var keys: seq<Key> := [];
      for i := 0 to |names|
        invariant |keys| == i
        invariant forall j :: 0 <= j < i ==> keys[j] == Key(names[j], Expiration(now, TtlOf(server.db, names[j])))
      {
        var ttl := server.KeyTimeToLive(names[i]);
        keys := keys + [Key(names[i], Expiration(now, ttl.value))];
      }
      assert Names(keys) == names;
      r := Ok(keys);
    }

    method TimeToLive(key: string) returns (r: Reply<int>)
      ensures r == TtlAnswer(server.reachable, server.db, AddPrefix(prefix, Some(key)))
      ensures r.Ok? ==> r.value == -1 || r.value > 0
    {
      var ttl :- server.KeyTimeToLive(AddPrefix(prefix, Some(key)));
      r := if ttl.None? then Ok(-1) else Ok(ttl.value as int);
    }

    method PublishToKey(channel: string, message: string) returns (r: Reply<()>)
      modifies server`log
      ensures r == if server.reachable then Ok(()) else Fault(Unreachable)
      ensures server.log == if server.reachable then old(server.log) + [Message(channel, message)] else old(server.log)
    {
      r := server.Publish(channel, message);
    }

    /** Writes the value under the prefixed key; a failure is caught and
        answered with false. */
    method InternalSet(key: string, value: Value) returns (ok: bool)
      modifies server`db
      ensures ok == server.reachable
      ensures server.db == if ok then Put(old(server.db), AddPrefix(prefix, Some(key)), value) else old(server.db)
    {
      var written := server.StringSet(AddPrefix(prefix, Some(key)), value);
      ok := written.Ok?;
    }

    method SetDependencies(childKey: string, parentKey: string) returns (r: Reply<()>)
      modifies server`db
      ensures Step(server.db, r) == LinkStep(Sync, prefix, server.reachable, old(server.db), childKey, parentKey)
    {
      if IsNullOrWhiteSpace(StripPrefix(prefix, Some(childKey))) || IsNullOrWhiteSpace(StripPrefix(prefix, Some(parentKey))) {
        return Ok(());
      }
      ghost var db0 := server.db;
      var pushed :- server.ListRightPush(ChildrenKey(parentKey), childKey);
      ChildrenKeyNotParentKey(parentKey, childKey);
      var written := server.StringSet(ParentKey(childKey), Text(parentKey));
      var ttl := server.KeyTimeToLive(parentKey);
      SpreadParentTtl(childKey, parentKey, ttl.value);
      r := Ok(());
    }

    /** The second half of SetDependencies, once the TTL of the parent has
        been read: with a TTL, expire the list, the back-reference and every
        listed child. */
    method SpreadParentTtl(childKey: string, parentKey: string, ttl: Option<Pos>)
      requires server.reachable && !HoldsScalar(server.db, ChildrenKey(parentKey))
      requires ttl == TtlOf(server.db, parentKey)
      modifies server`db
      ensures server.db == SpreadTtl(old(server.db), childKey, parentKey)
    {
      if ttl.None? {
        return;
      }
      var t := ttl.value;
      ghost var db0 := server.db;
      var listed := server.ListRange(ChildrenKey(parentKey));
      var children := listed.value;
      ghost var ks := TtlKeys(db0, childKey, parentKey);
      assert ks[..1][..0] == [] && ks[..2][..1] == ks[..1];
      assert ks[0] == ChildrenKey(parentKey) && ks[1] == ParentKey(childKey);
      var e1 := server.KeyExpire(ChildrenKey(parentKey), t);
      assert server.db == ExpireAll(db0, ks[..1], t);
      var e2 := server.KeyExpire(ParentKey(childKey), t);
      assert server.db == ExpireAll(db0, ks[..2], t);
      for i := 0 to |children|
        invariant server.db == ExpireAll(db0, ks[..i + 2], t)
      {
        assert ks[..i + 3][..i + 2] == ks[..i + 2];
        var e := server.KeyExpire(children[i], t);
      }
      assert ks[..|children| + 2] == ks;
    }

    method RemoveDependencies(key: string) returns (r: Reply<()>)
      modifies server`db
      ensures Step(server.db, r) == UnlinkStep(Sync, prefix, server.reachable, old(server.db), key)
    {
      if IsNullOrWhiteSpace(StripPrefix(prefix, Some(key))) {
        return Ok(());
      }
      ghost var db0 := server.db;
      var children :- server.ListRange(ChildrenKey(key));
      DeleteChildren(children);
      var d := server.KeyDelete(ChildrenKey(key));
      DelAllTwice(db0, Elements(ChildKeys(children)), {ChildrenKey(key)});
      r := Ok(());
    }

    /** The loop of RemoveDependencies: deletes each child and then its
        back-reference. */
    method DeleteChildren(children: seq<string>)
      requires server.reachable
      modifies server`db
      ensures server.db == DelAll(old(server.db), Elements(ChildKeys(children)))
    {
      ghost var db0 := server.db;
      for i := 0 to |children|
        invariant server.db == DelAll(db0, Elements(ChildKeys(children[..i])))
      {
        ghost var done := Elements(ChildKeys(children[..i]));
        ChildKeysStep(children, i);
        var d1 := server.KeyDelete(children[i]);
        DelAllTwice(db0, done, {children[i]});
        var d2 := server.KeyDelete(ParentKey(children[i]));
        DelAllTwice(db0, done + {children[i]}, {ParentKey(children[i])});
      }
      assert children[..|children|] == children;
    }

    /** The push, the back-reference write and the TTL read issued together
        and awaited together: all three run, then the first failure is
        rethrown. */
    method LinkPipelined(childKey: string, parentKey: string) returns (r: Reply<()>)
      modifies server`db
      ensures !server.reachable ==> r == Fault(Unreachable) && server.db == old(server.db)
      ensures server.reachable && HoldsScalar(old(server.db), ChildrenKey(parentKey)) ==>
                r == Fault(WrongType) && server.db == Put(old(server.db), ParentKey(childKey), Text(parentKey))
      ensures server.reachable && !HoldsScalar(old(server.db), ChildrenKey(parentKey)) ==>
                r == Ok(()) && server.db == Linked(old(server.db), childKey, parentKey)
    {
      var pushed := server.ListRightPush(ChildrenKey(parentKey), childKey);
      var written := server.StringSet(ParentKey(childKey), Text(parentKey));
      var ttl := server.KeyTimeToLive(parentKey);
      if pushed.Fault? {
        return Fault(pushed.error);
      }
      ChildrenKeyNotParentKey(parentKey, childKey);
      SpreadParentTtl(childKey, parentKey, ttl.value);
      r := Ok(());
    }

    // ---------------------------------------------------------------
    // CacheSleeve/RedisCacherAsync.cs
    // ---------------------------------------------------------------

    method GetAsync(key: string, want: Want) returns (r: Reply<Option<Value>>)
      ensures Step(server.db, r) == GetStep(Async, prefix, server.reachable, server.db, key, want)
    {
      var pk := AddPrefix(prefix, Some(key));
      if want == WantText || want == WantBytes {
        var raw := server.StringGet(pk);
        return RawAs(raw, want);
      }
      var raw := server.StringGet(pk);
      if raw.Fault? || raw.value.None? {
        return Ok(None);
      }
      var x := raw.value.value;
      r := if HasType(x, want) then Ok(Some(x)) else Fault(DecodeFailure);
    }

    method SetAsync(key: string, value: Value, parentKey: Option<string>) returns (r: Reply<bool>)
      modifies server`db
      ensures Step(server.db, r) == SetStep(Async, prefix, server.reachable, old(server.db), key, value, None, parentKey)
    {
      var pk := AddPrefix(prefix, Some(key));
      var ok := InternalSetAsync(pk, value);
      if ok {
        var u :- RemoveDependenciesAsync(pk);
        var w :- SetDependenciesAsync(pk, AddPrefix(prefix, parentKey));
      }
      r := Ok(true);
    }

    /** The DateTime overload forwards to the TimeSpan one. */
    method SetUntilAsync(key: string, value: Value, expiresAt: int, now: int, parentKey: Option<string>) returns (r: Reply<bool>)
      modifies server`db
      ensures Step(server.db, r) == SetStep(Async, prefix, server.reachable, old(server.db), key, value, Some(Span(expiresAt, now)), parentKey)
    {
      r := SetForAsync(key, value, Span(expiresAt, now), parentKey);
    }

    method SetForAsync(key: string, value: Value, expiresIn: int, parentKey: Option<string>) returns (r: Reply<bool>)
      modifies server`db
      ensures Step(server.db, r) == SetStep(Async, prefix, server.reachable, old(server.db), key, value, Some(expiresIn), parentKey)
    {
      var pk := AddPrefix(prefix, Some(key));
      var ok := InternalSetAsync(pk, value);
      if !ok {
        return Ok(false);
      }
      // The write just went through, so the server is known to be up.
      var expired := server.KeyExpire(pk, expiresIn);
      var u :- RemoveDependenciesAsync(pk);
      var w :- SetDependenciesAsync(pk, AddPrefix(prefix, parentKey));
      r := Ok(expired.value);
    }

    method RemoveAsync(key: string) returns (r: Reply<bool>)
      modifies server`db
      ensures Step(server.db, r) == RemoveStep(Async, prefix, server.reachable, old(server.db), key)
    {
      var pk := AddPrefix(prefix, Some(key));
      ghost var db0 := server.db;
      var existed :- server.KeyDelete(pk);
      if !existed {
        DelMissing(db0, pk);
        return Ok(false);
      }
      var u :- RemoveDependenciesAsync(pk);
      assert pk + ".parent" == AddPrefix(prefix, Some(key + ".parent"));
      var gone := server.KeyDelete(pk + ".parent");
      r := Ok(true);
    }

    /** Deletes the one key named by the text of the listing object itself
        (`keys.ToString()`), not the listed keys. */
    method FlushAllAsync(listingName: string) returns (r: Reply<()>)
      modifies server`db
      ensures !server.reachable ==> r == Fault(Unreachable) && server.db == old(server.db)
      ensures server.reachable ==> r == Ok(()) && server.db == Del(old(server.db), listingName)
    {
      var listed :- ListKeys();
      var gone := server.KeyDelete(listingName);
      r := Ok(());
    }

    /** The TTL reads are issued together; the listing is the same as
        GetAllKeys'. */
    method GetAllKeysAsync(now: int) returns (r: Reply<seq<Key>>)
      ensures r.Fault? <==> !server.reachable
      ensures r.Fault? ==> r.error == Unreachable
      ensures r.Ok? ==> Distinct(Names(r.value))
      ensures r.Ok? ==> forall k :: k in Names(r.value) <==> k in server.db.data && Glob.Matches(AddPrefix(prefix, Some("*")), k)
      ensures r.Ok? ==> forall i :: 0 <= i < |r.value| ==>
                r.value[i].expirationDate == Expiration(now, TtlOf(server.db, r.value[i].keyName))
    {
      r := GetAllKeys(now);
    }

    method TimeToLiveAsync(key: string) returns (r: Reply<int>)
      ensures r == TtlAnswer(server.reachable, server.db, AddPrefix(prefix, Some(key)))
    {
      r := TimeToLive(key);
    }

    method PublishToKeyAsync(channel: string, message: string) returns (r: Reply<()>)
      modifies server`log
      ensures r == if server.reachable then Ok(()) else Fault(Unreachable)
      ensures server.log == if server.reachable then old(server.log) + [Message(channel, message)] else old(server.log)
    {
      r := PublishToKey(channel, message);
    }

    /** Takes the key already prefixed. */
    method InternalSetAsync(redisKey: string, value: Value) returns (ok: bool)
      modifies server`db
      ensures ok == server.reachable
      ensures server.db == if ok then Put(old(server.db), redisKey, value) else old(server.db)
    {
      var written := server.StringSet(redisKey, value);
      ok := written.Ok?;
    }

    method SetDependenciesAsync(childKey: string, parentKey: string) returns (r: Reply<()>)
      modifies server`db
      ensures Step(server.db, r) == LinkStep(Async, prefix, server.reachable, old(server.db), childKey, parentKey)
    {
      if |childKey| <= |prefix| || |parentKey| <= |prefix| {
        return Ok(());
      }
      r := LinkPipelined(childKey, parentKey);
    }

    /** Reads the list, and when it is not empty deletes the list, every
        child and every back-reference in one command. */
    method RemoveDependenciesAsync(key: string) returns (r: Reply<()>)
      modifies server`db
      ensures Step(server.db, r) == UnlinkStep(Async, prefix, server.reachable, old(server.db), key)
    {
      if |key| <= |prefix| {
        return Ok(());
      }
      ghost var db0 := server.db;
      var children :- server.ListRange(ChildrenKey(key));
      if |children| > 0 {
        var keys := DependencyBatch(key, children);
        ElementsAppend([ChildrenKey(key)], ChildKeys(children));
        assert Elements([ChildrenKey(key)]) == {ChildrenKey(key)};
        assert Elements(keys) == DependencyKeys(db0, key);
        var deleted := server.KeyDeleteMany(keys);
        assert server.db == Unlinked(db0, key);
      }
      r := Ok(());
    }

    /** The key list of the batch delete: the list key, then each child
        followed by its back-reference. */
    method DependencyBatch(key: string, children: seq<string>) returns (keys: seq<string>)
      ensures keys == [ChildrenKey(key)] + ChildKeys(children)
    {
      keys := [ChildrenKey(key)];
      for i := 0 to |children|
        invariant keys == [ChildrenKey(key)] + ChildKeys(children[..i])
      {
        assert children[..i + 1][..i] == children[..i];
        keys := keys + [children[i], ParentKey(children[i])];
      }
      assert children[..|children|] == children;
    }
  }
}
