/** The asynchronous half of CacheSleeve.NET40/RedisCacher.cs.  Its
    synchronous half is reached through `core`, the model of
    CacheSleeve/RedisCacher.cs; it matches the .NET 4.0 code except that
    the .NET 4.0 key listing walks every primary endpoint, where `core`
    lists the keys of the one server it talks to.  Each operation is proved
    against the Net40Async step functions of RemoteSpec. */
module RemoteCacheNet40 {
  import opened Wrappers
  import opened CacheTypes
  import opened KeyCodec
  import opened RedisStore
  import opened RemoteSpec
  import Glob
  import RemoteCache

  class RedisCacher {
    const core: RemoteCache.RedisCacher

    constructor (core: RemoteCache.RedisCacher)
      ensures this.core == core
    {
      this.core := core;
    }

    method GetAsync(key: string, want: Want) returns (r: Reply<Option<Value>>)
      modifies core.server`db
      ensures Step(core.server.db, r) == GetStep(Net40Async, core.prefix, core.server.reachable, old(core.server.db), key, want)
    {
      var pk := AddPrefix(core.prefix, Some(key));
      if want == WantBytes {
        var raw := core.server.StringGet(pk);
        return RawAs(raw, want);
      }
      var raw := core.server.StringGet(pk);
      if raw.Fault? || raw.value.None? {
        return Ok(None);
      }
      var x := raw.value.value;
      if want == WantText {
        return Ok(Some(Text(AsText(x))));
      }
      if HasType(x, want) {
        return Ok(Some(x));
      }
      if x.Object? {
        return Fault(DecodeFailure);
      }
      // The removal is started and not awaited: how it ends is never seen.
      var removed := RemoveAsync(key);
      r := Ok(None);
    }

    method SetAsync(key: string, value: Value, parentKey: Option<string>) returns (r: Reply<bool>)
      modifies core.server`db
      ensures Step(core.server.db, r) == SetStep(Net40Async, core.prefix, core.server.reachable, old(core.server.db), key, value, None, parentKey)
    {
      var ok := core.InternalSet(key, value);
      if ok {
        var pk := AddPrefix(core.prefix, Some(key));
        var u :- RemoveDependenciesAsync(pk);
        var w :- SetDependenciesAsync(pk, AddPrefix(core.prefix, parentKey));
      }
      r := Ok(true);
    }

    /** The DateTime overload: the statements of SetForAsync, with the span
        from `now` to `expiresAt` computed once the write has gone through. */
    method SetUntilAsync(key: string, value: Value, expiresAt: int, now: int, parentKey: Option<string>) returns (r: Reply<bool>)
      modifies core.server`db
      ensures Step(core.server.db, r) == SetStep(Net40Async, core.prefix, core.server.reachable, old(core.server.db), key, value, Some(Span(expiresAt, now)), parentKey)
    {
      var ok := core.InternalSet(key, value);
      if !ok {
        return Ok(false);
      }
      var pk := AddPrefix(core.prefix, Some(key));
      var timeSpan := Span(expiresAt, now);
      // The write just went through, so the server is known to be up.
      var expired := core.server.KeyExpire(pk, timeSpan);
      var u :- RemoveDependenciesAsync(pk);
      var w :- SetDependenciesAsync(pk, AddPrefix(core.prefix, parentKey));
      r := Ok(expired.value);
    }

    method SetForAsync(key: string, value: Value, expiresIn: int, parentKey: Option<string>) returns (r: Reply<bool>)
      modifies core.server`db
      ensures Step(core.server.db, r) == SetStep(Net40Async, core.prefix, core.server.reachable, old(core.server.db), key, value, Some(expiresIn), parentKey)
    {
      var ok := core.InternalSet(key, value);
      if !ok {
        return Ok(false);
      }
      var pk := AddPrefix(core.prefix, Some(key));
      // The write just went through, so the server is known to be up.
      var expired := core.server.KeyExpire(pk, expiresIn);
      var u :- RemoveDependenciesAsync(pk);
      var w :- SetDependenciesAsync(pk, AddPrefix(core.prefix, parentKey));
      r := Ok(expired.value);
    }

    method RemoveAsync(key: string) returns (r: Reply<bool>)
      modifies core.server`db
      ensures Step(core.server.db, r) == RemoveStep(Net40Async, core.prefix, core.server.reachable, old(core.server.db), key)
    {
      var pk := AddPrefix(core.prefix, Some(key));
      ghost var db0 := core.server.db;
      var existed :- core.server.KeyDelete(pk);
      if !existed {
        DelMissing(db0, pk);
        return Ok(false);
      }
      var u :- RemoveDependenciesAsync(pk);
      var gone := core.server.KeyDelete(AddPrefix(core.prefix, Some(key + ".parent")));
      r := Ok(true);
    }

    /** Starts a removal for every listed key and waits for all of them; the
        wait throws afterwards if any removal threw.  The keys are listed
        from the one server of `core`. */
    method FlushAllAsync() returns (r: Reply<()>, ghost listed: seq<string>)
      modifies core.server`db
      ensures !core.server.reachable ==> r == Fault(Unreachable) && core.server.db == old(core.server.db)
      ensures core.server.reachable ==>
                (forall k :: k in listed <==> k in old(core.server.db).data && Glob.Matches(AddPrefix(core.prefix, Some("*")), k))
                && Step(core.server.db, r) == FlushAllStep(Net40Async, core.prefix, old(core.server.db), listed)
    {
      listed := [];
      var keys :- core.ListKeys();
      listed := keys;
      ghost var db0 := core.server.db;
      var outcome: Reply<()> := Ok(());
      for i := 0 to |keys|
        invariant Step(core.server.db, outcome) == FlushAllStep(Net40Async, core.prefix, db0, keys[..i])
      {
        FlushAllStepNext(Net40Async, core.prefix, db0, keys, i);
        var removed := RemoveAsync(StripPrefix(core.prefix, Some(keys[i])).value);
        if outcome.Ok? && removed.Fault? {
          outcome := Fault(removed.error);
        }
      }
      assert keys[..|keys|] == keys;
      r := outcome;
    }

    /** The keys of the one server of `core`, each with its expiration. */
    method GetAllKeysAsync(now: int) returns (r: Reply<seq<Key>>)
      ensures r.Fault? <==> !core.server.reachable
      ensures r.Ok? ==> Distinct(Names(r.value))
      ensures r.Ok? ==> forall k :: k in Names(r.value) <==> k in core.server.db.data && Glob.Matches(AddPrefix(core.prefix, Some("*")), k)
      ensures r.Ok? ==> forall i :: 0 <= i < |r.value| ==>
                r.value[i].expirationDate == Expiration(now, TtlOf(core.server.db, r.value[i].keyName))
    {
      r := core.GetAllKeys(now);
    }

    method TimeToLiveAsync(key: string) returns (r: Reply<int>)
      ensures r == TtlAnswer(core.server.reachable, core.server.db, AddPrefix(core.prefix, Some(key)))
    {
      r := core.TimeToLive(key);
    }

    method PublishToKeyAsync(channel: string, message: string) returns (r: Reply<()>)
      modifies core.server`log
      ensures r == if core.server.reachable then Ok(()) else Fault(Unreachable)
      ensures core.server.log == if core.server.reachable then old(core.server.log) + [Message(channel, message)] else old(core.server.log)
    {
      r := core.PublishToKey(channel, message);
    }

    method SetDependenciesAsync(childKey: string, parentKey: string) returns (r: Reply<()>)
      modifies core.server`db
      ensures Step(core.server.db, r) == LinkStep(Net40Async, core.prefix, core.server.reachable, old(core.server.db), childKey, parentKey)
    {
      if IsNullOrWhiteSpace(StripPrefix(core.prefix, Some(childKey))) || IsNullOrWhiteSpace(StripPrefix(core.prefix, Some(parentKey))) {
        return Ok(());
      }
      r := core.LinkPipelined(childKey, parentKey);
    }

    /** The deletes are started together and awaited together, then the list
        is deleted: the same keys go as in the synchronous loop. */
    method RemoveDependenciesAsync(key: string) returns (r: Reply<()>)
      modifies core.server`db
      ensures Step(core.server.db, r) == UnlinkStep(Net40Async, core.prefix, core.server.reachable, old(core.server.db), key)
    {
      r := core.RemoveDependencies(key);
    }
  }
}
