/** CacheSleeve/HybridCacher.cs and CacheSleeve/HybridCacherAsync.cs: the
    orchestrator over the remote cacher and the local cacher of the same
    settings.  Every operation is proved against its HybridSpec step. */
module Hybrid {
  import opened Wrappers
  import opened CacheTypes
  import opened KeyCodec
  import opened RedisStore
  import opened RemoteSpec
  import opened LocalCache
  import opened HybridSpec
  import Glob
  import RemoteCache

  class HybridCacher {
    const remote: RemoteCache.RedisCacher
    const local: HttpContextCacher
    const prefix: string

    /** Both cachers come from the same settings, so they share the key
        prefix; the local cache shows no expired item. */
    ghost predicate Valid()
      reads local.store
    {
      remote.prefix == prefix && local.prefix == prefix && local.store.Valid()
    }

    constructor (remote: RemoteCache.RedisCacher, local: HttpContextCacher)
      requires remote.prefix == local.prefix && local.store.Valid()
      ensures this.remote == remote && this.local == local && Valid()
    {
      this.remote := remote;
      this.local := local;
      this.prefix := remote.prefix;
    }

    /** The two tiers as a value. */
    ghost function Now(): World
      reads remote.server, local.store
    {
      World(remote.server.db, remote.server.log, local.store.items)
    }

    // -------------------------------------------------------------------
    // HybridCacher.cs
    // -------------------------------------------------------------------

    method Get(key: string, want: Want) returns (r: Reply<Option<Value>>)
      requires Valid()
      modifies remote.server`db, local.store`items
      ensures Valid()
      ensures Outcome(Now(), r) == FetchStep(Sync, prefix, remote.server.reachable, old(local.store.now), old(Now()), key, want)
    {
      var result :- local.Get(key, want);
      if result.Some? {
        return Ok(result);
      }
      r := ReadThrough(key, want);
    }

    /** Get after the local miss. */
    method ReadThrough(key: string, want: Want) returns (r: Reply<Option<Value>>)
      requires Valid()
      modifies remote.server`db, local.store`items
      ensures Valid()
      ensures Outcome(Now(), r) == FillStep(Sync, prefix, remote.server.reachable, old(local.store.now), old(Now()), key, want)
    {
      var result :- remote.Get(key, want);
      if result.None? {
        return Ok(None);
      }
      RemoteValueHasType(Sync, prefix, remote.server.reachable, old(remote.server.db), key, want, result.value);
      // The read just went through, so the server is known to be up.
      var ttl := remote.TimeToLive(key);
      var parentName := remote.Get(key + ".parent", WantText);
      var parentKey := StripPrefix(prefix, ParentName(parentName.value));
      if ttl.value > -1 {
        var _ := local.SetFor(key, result.value, ttl.value, parentKey);
      } else {
        var _ := local.Set(key, result.value, parentKey);
      }
      r := local.Get(key, want);
    }

    method Set(key: string, value: Value, parentKey: Option<string>) returns (r: Reply<bool>)
      requires Valid()
      modifies remote.server`db, remote.server`log, local.store`items
      ensures Valid()
      ensures Outcome(Now(), r) == WriteStep(Sync, prefix, remote.server.reachable, old(Now()), key, value, None, parentKey)
    {
      var written := remote.Set(key, value, parentKey);
      r := Announce(written, key);
    }

    /** The DateTime overload; the remote cacher turns the instant into a
        span on the local clock. */
    method SetUntil(key: string, value: Value, expiresAt: int, parentKey: Option<string>) returns (r: Reply<bool>)
      requires Valid()
      modifies remote.server`db, remote.server`log, local.store`items
      ensures Valid()
      ensures Outcome(Now(), r) == WriteStep(Sync, prefix, remote.server.reachable, old(Now()), key, value,
                                             Some(Span(expiresAt, old(local.store.now))), parentKey)
    {
      var now := local.store.now;
      var written := remote.SetUntil(key, value, expiresAt, now, parentKey);
      assert SetStep(Sync, prefix, remote.server.reachable, old(remote.server.db), key, value, Some(Span(expiresAt, now)), parentKey)
          == Step(remote.server.db, written);
      r := Announce(written, key);
    }

    method SetFor(key: string, value: Value, expiresIn: int, parentKey: Option<string>) returns (r: Reply<bool>)
      requires Valid()
      modifies remote.server`db, remote.server`log, local.store`items
      ensures Valid()
      ensures Outcome(Now(), r) == WriteStep(Sync, prefix, remote.server.reachable, old(Now()), key, value, Some(expiresIn), parentKey)
    {
      var written := remote.SetFor(key, value, expiresIn, parentKey);
      r := Announce(written, key);
    }

    /** The rest of every Set body once the remote write has answered:
        publish the invalidation, or run the catch block. */
    method Announce(written: Reply<bool>, key: string) returns (r: Reply<bool>)
      requires Valid()
      modifies remote.server`db, remote.server`log, local.store`items
      ensures Valid()
      ensures written.Ok? && remote.server.reachable ==>
                r == Ok(true) && Now() == old(World(remote.server.db, remote.server.log + [Invalidation(key)], local.store.items))
      ensures !(written.Ok? && remote.server.reachable) ==>
                Outcome(Now(), r) == RecoverStep(prefix, remote.server.reachable, old(Now()), key)
    {
      if written.Ok? {
        var published := remote.PublishToKey(RemoveChannel(key), key);
        if published.Ok? {
          return Ok(true);
        }
      }
      var _ := local.Remove(key);
      var removed :- remote.Remove(key);
      r := Ok(false);
    }

    method Remove(key: string) returns (r: bool)
      requires Valid()
      modifies remote.server`db, remote.server`log
      ensures Valid()
      ensures Outcome(Now(), Ok(r)) == DropStep(Sync, prefix, remote.server.reachable, old(Now()), key)
    {
      var removed := remote.Remove(key);
      if removed.Fault? {
        return false;
      }
      var published := remote.PublishToKey(RemoveChannel(key), key);
      r := published.Ok?;
    }

    method FlushAll() returns (r: Reply<()>, ghost listed: seq<string>)
      requires Valid()
      modifies remote.server`db, remote.server`log
      ensures Valid()
      ensures !remote.server.reachable ==> r == Fault(Unreachable) && Now() == old(Now())
      ensures remote.server.reachable ==>
                (forall k :: k in listed <==> k in old(remote.server.db).data && Glob.Matches(AddPrefix(prefix, Some("*")), k))
                && Outcome(Now(), r) == ClearStep(prefix, old(Now()), listed)
    {
      r, listed := remote.FlushAll();
      if r.Fault? {
        return;
      }
      r := remote.PublishToKey(FlushChannel, "");
    }

    // -------------------------------------------------------------------
    // HybridCacherAsync.cs
    // -------------------------------------------------------------------

    method GetAsync(key: string, want: Want) returns (r: Reply<Option<Value>>)
      requires Valid()
      modifies remote.server`db, local.store`items
      ensures Valid()
      ensures Outcome(Now(), r) == FetchStep(Async, prefix, remote.server.reachable, old(local.store.now), old(Now()), key, want)
    {
      var result :- local.Get(key, want);
      if result.Some? {
        return Ok(result);
      }
      r := ReadThroughAsync(key, want);
    }

    /** GetAsync after the local miss. */
    method ReadThroughAsync(key: string, want: Want) returns (r: Reply<Option<Value>>)
      requires Valid()
      modifies remote.server`db, local.store`items
      ensures Valid()
      ensures Outcome(Now(), r) == FillStep(Async, prefix, remote.server.reachable, old(local.store.now), old(Now()), key, want)
    {
      var result :- remote.GetAsync(key, want);
      if result.None? {
        return Ok(None);
      }
      RemoteValueHasType(Async, prefix, remote.server.reachable, old(remote.server.db), key, want, result.value);
      // The read just went through, so the server is known to be up.
      var ttl := remote.TimeToLiveAsync(key);
      var parentName := remote.Get(key + ".parent", WantText);
      var parentKey := ParentName(parentName.value);
      if parentKey.Some? {
        if |parentKey.value| < |prefix| {
          return Fault(ArgumentOutOfRange);
        }
        parentKey := Some(parentKey.value[|prefix|..]);
      }
      if ttl.value > -1 {
        var _ := local.SetFor(key, result.value, ttl.value, parentKey);
      } else {
        var _ := local.Set(key, result.value, parentKey);
      }
      r := local.Get(key, want);
    }

    /** `made` is what the value factory answers for the key. */
    method GetOrSetAsync(key: string, want: Want, made: Option<Value>, expiresAt: int, parentKey: Option<string>)
      returns (r: Reply<Option<Value>>)
      requires Valid()
      modifies remote.server`db, remote.server`log, local.store`items
      ensures Valid()
      ensures Outcome(Now(), r) == FetchOrStoreStep(prefix, remote.server.reachable, old(local.store.now), old(Now()), key, want,
                                                    made, expiresAt, parentKey)
    {
      ghost var now := local.store.now;
      ghost var up := remote.server.reachable;
      ghost var fetch := FetchStep(Async, prefix, up, now, Now(), key, want);
      var value :- GetAsync(key, want);
      assert fetch.world == Now() && fetch.reply == Ok(value);
      if value.None? {
        value := made;
        if value.Some? {
          assert now == local.store.now && up == remote.server.reachable;
          var stored := SetUntilAsync(key, value.value, expiresAt, parentKey);
          assert up == remote.server.reachable;
          ghost var written := WriteStep(Async, prefix, up, fetch.world, key, value.value, Some(Span(expiresAt, now)), parentKey);
          assert Outcome(Now(), stored) == written;
          StoreOnMiss(prefix, up, now, old(Now()), key, want, value.value, expiresAt, parentKey, fetch, written);
          if stored.Fault? {
            return Fault(stored.error);
          }
        }
      }
      r := Ok(value);
    }

    method SetAsync(key: string, value: Value, parentKey: Option<string>) returns (r: Reply<bool>)
      requires Valid()
      modifies remote.server`db, remote.server`log, local.store`items
      ensures Valid()
      ensures Outcome(Now(), r) == WriteStep(Async, prefix, remote.server.reachable, old(Now()), key, value, None, parentKey)
    {
      var written := remote.SetAsync(key, value, parentKey);
      r := Announce(written, key);
    }

    method SetUntilAsync(key: string, value: Value, expiresAt: int, parentKey: Option<string>) returns (r: Reply<bool>)
      requires Valid()
      modifies remote.server`db, remote.server`log, local.store`items
      ensures Valid()
      ensures Outcome(Now(), r) == WriteStep(Async, prefix, remote.server.reachable, old(Now()), key, value,
                                             Some(Span(expiresAt, old(local.store.now))), parentKey)
    {
      var now := local.store.now;
      var written := remote.SetUntilAsync(key, value, expiresAt, now, parentKey);
      assert SetStep(Async, prefix, remote.server.reachable, old(remote.server.db), key, value, Some(Span(expiresAt, now)), parentKey)
          == Step(remote.server.db, written);
      r := Announce(written, key);
    }

    method SetForAsync(key: string, value: Value, expiresIn: int, parentKey: Option<string>) returns (r: Reply<bool>)
      requires Valid()
      modifies remote.server`db, remote.server`log, local.store`items
      ensures Valid()
      ensures Outcome(Now(), r) == WriteStep(Async, prefix, remote.server.reachable, old(Now()), key, value, Some(expiresIn), parentKey)
    {
      var written := remote.SetForAsync(key, value, expiresIn, parentKey);
      r := Announce(written, key);
    }

    method RemoveAsync(key: string) returns (r: bool)
      requires Valid()
      modifies remote.server`db, remote.server`log
      ensures Valid()
      ensures Outcome(Now(), Ok(r)) == DropStep(Async, prefix, remote.server.reachable, old(Now()), key)
    {
      var removed := remote.RemoveAsync(key);
      if removed.Fault? {
        return false;
      }
      var published := remote.PublishToKeyAsync(RemoveChannel(key), key);
      r := published.Ok?;
    }

    /** `listingName` is the name the remote FlushAllAsync deletes. */
    method FlushAllAsync(listingName: string) returns (r: Reply<()>)
      requires Valid()
      modifies remote.server`db, remote.server`log
      ensures Valid()
      ensures Outcome(Now(), r) == ClearAsyncStep(remote.server.reachable, old(Now()), listingName)
    {
      var flushed :- remote.FlushAllAsync(listingName);
      // The delete just went through, so the server is known to be up.
      r := remote.PublishToKeyAsync(FlushChannel, "");
    }

    /** The remote listing, then the local one, one entry per name, the
        first one winning. */
    method GetAllKeysAsync(now: int) returns (r: Reply<seq<Key>>)
      ensures r.Fault? <==> !remote.server.reachable
      ensures r.Ok? ==> Distinct(Names(r.value))
      ensures r.Ok? ==> forall n :: n in Names(r.value) <==>
                (n in remote.server.db.data && Glob.Matches(AddPrefix(remote.prefix, Some("*")), n))
                || (n in local.store.items && local.store.items[n].obj.Wrapped?)
      ensures r.Ok? ==> forall k :: k in r.value ==>
                if k.keyName in remote.server.db.data && Glob.Matches(AddPrefix(remote.prefix, Some("*")), k.keyName)
                then k.expirationDate == Expiration(now, TtlOf(remote.server.db, k.keyName))
                else Listed(local.store.items, k)
    {
      var remoteKeys :- remote.GetAllKeysAsync(now);
      var localKeys := local.GetAllKeys();
      var merged := FirstByName(remoteKeys + localKeys);
      MergedListing(remoteKeys, localKeys, remote.server.db, AddPrefix(remote.prefix, Some("*")), local.store.items, now);
      r := Ok(merged);
    }
  }
}
