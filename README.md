# CacheSleeve in Dafny

CacheSleeve is a two-tier cache for ASP.NET:
- **remote tier:** a shared Redis server, reached through `RedisCacher`;
- **local tier:** the in-process ASP.NET cache, reached through `HttpContextCacher`;
- **`HybridCacher`:** reads local-first, fills the local tier from the remote one on a miss, and writes through to the remote tier;
- **invalidation bus:** every write or remove publishes an invalidation on a Redis pub/sub channel, and every process subscribes to those channels at initialisation, so each process evicts its own local copy.

On the remote tier, `parent.children` lists and `child.parent` back-references link a child entry to its parent:
- removing or overwriting a parent deletes its children;
- a finite parent TTL is copied onto the child entries.

This project models that core and proves properties of the model.

| module (file) | models |
|---|---|
| `Wrappers` (wrappers.dfy) | `Option`, and `Reply` (a value or a thrown exception, as an `Error`) |
| `Utf8` (utf8.dfy) | UTF-8, the encoding the Redis client uses for strings: encoding, and decoding with U+FFFD for ill-formed bytes |
| `CacheTypes` (cache_types.dfy) | cached values (text, bytes, object = type name + JSON), how a stored value reads back as text or bytes, the type a `Get<T>` asks for, the `Key` record |
| `KeyCodec` (key_codec.dfy) | `AddPrefix`; `StripPrefix` as written (unescaped regex) and as intended; `IsNullOrWhiteSpace` |
| `Glob` (glob.dfy) | Redis glob patterns (`*`, `?`) used by key listing and pattern subscriptions |
| `RedisStore` (redis_store.dfy) | the Redis server: a keyspace value (`Db`), its TTLs, its publish log, and one method per command the cachers issue |
| `RemoteSpec` (remote_spec.dfy) | what each remote operation does to the keyspace, as step functions for the three copies of the cacher, and the dependency-protocol lemmas |
| `RemoteCache` (remote_cache.dfy) | CacheSleeve/RedisCacher.cs and RedisCacherAsync.cs, each method proved equal to its step function |
| `RemoteCacheNet40` (remote_cache_net40.dfy) | the asynchronous half of CacheSleeve.NET40/RedisCacher.cs (its synchronous half is reached through the CacheSleeve/RedisCacher.cs model; the key listings differ, see Left out) |
| `LocalCache` (local_cache.dfy) | the ASP.NET cache (slots, absolute expiry, one-level `CacheDependency`, an item whose dependency is not cached invalidated at once) and HttpContextCacher.cs |
| `HybridSpec` (hybrid_spec.dfy) | what each hybrid operation does to both tiers and the publish log, and lemmas about read-through, write-through and the merged key listing |
| `Hybrid` (hybrid.dfy) | HybridCacher.cs and HybridCacherAsync.cs, each method proved equal to its step function |
| `Bus` (bus.dfy) | the two pattern subscriptions and their handlers, `GetString`, delivery of published messages to a process |
| `Managers` (managers.dfy) | the settings singletons CacheManager (both copies), Manager and CacheSleeve: their re-initialisation guard, their settings and cachers, their subscriptions, and key listing |

Modelling conventions:
- **Exceptions.** A thrown exception is a `Fault` reply. A `try`/`catch` is a branch on that reply.
- **Server reachability.** `Server.reachable` says whether the connection works. It does not change within one operation. While it is false, every command throws and changes nothing.
- **Time.** The remote tier keeps the seconds each key has left (`ttl`); `Elapse` and `Server.Tick` let time pass. The local tier keeps absolute instants and a clock `now`; `AspNetCache.AdvanceTo` moves the clock and drops what is due. `DateTime.Now` is a parameter `now` where it is read.
- **Values.** An object is stored as its type name and JSON text. Deserialising succeeds exactly when the names agree.
- **The three copies.** The copies of the remote cacher differ in small ways: a raw `string` read, the blank-name and length guards, pipelined commands, and how a failed decode is handled. So every remote step function takes a `Variant`: `Sync`, `Async` or `Net40Async`.
- **Shared key codec.** All four `AddPrefix` copies are `KeyCodec.AddPrefix`:
  - CacheSleeve/CacheManager.cs:166-169;
  - CacheSleeve.NET40/CacheManager.cs:152-155;
  - CacheSleeve/Manager.cs:95-98;
  - CacheSleeve/CacheSleeve.cs:73-76.

  Both `StripPrefix` copies with a null guard are `KeyCodec.StripPrefixAsWritten` / `KeyCodec.StripPrefix`.

Where the code does something other than what the XML doc comments of the cacher interfaces (CacheSleeve/ICacher.cs, CacheSleeve/IAsyncCacher.cs) promise, the model follows the code:
- **Hybrid `Set` with the server down** throws, where CacheSleeve/ICacher.cs:38 promises "a boolean indicating success or failure". The catch block's remote `Remove` throws in turn, so the method does not answer false (`HybridSpec.WriteWhileDownThrows`).
- **The untimed remote `Set`** answers true even when the write failed, against the same promise at CacheSleeve/ICacher.cs:38 (`RemoteSpec.UntimedSetAnswersTrue`).
- **Reading an object stored under another type** makes the serializer's type check throw, and nothing catches it, where CacheSleeve/ICacher.cs:16-18 promises "the requested item or null". In the async copy, text that is not JSON also throws (`RemoteSpec.MismatchedDecodeThrows`).
- **The local `Get`** throws `InvalidCastException` when the slot holds something other than CacheSleeve's entry wrapper, against the same promise at CacheSleeve/ICacher.cs:16-18.
- **The local `FlushAll`** takes "clear the whole cache" (CacheSleeve/ICacher.cs:92-95) literally: it removes every slot of the process-wide ASP.NET cache, including slots CacheSleeve did not write.
- **`RedisCacherAsync.FlushAllAsync`** deletes one key, named by the text of the listing object. It does not "clear the whole cache" as CacheSleeve/IAsyncCacher.cs:77-80 promises.

## Model

| member | source | states |
|---|---|---|
| CacheTypes.AsText | CacheSleeve/RedisCacher.cs:31-40 | a string reads back as itself and an object as its JSON text; bytes are decoded as UTF-8, into at most as many characters as bytes |
| CacheTypes.AsBytes | CacheSleeve/RedisCacher.cs:25-28 | bytes read back as themselves; a string or object reads back as the UTF-8 bytes of its text, at least one per character, which decode back to that text |
| CacheTypes.TextThroughBytes | CacheSleeve/RedisCacher.cs:25-40 | reading a stored value as bytes and decoding them gives the text it reads back as directly |
| CacheTypes.NonAsciiText | CacheSleeve/RedisCacher.cs:166-169 | "é" is stored as the two bytes C3 A9, and C3 A9 reads back as "é" |
| Utf8.DecodeCharThen | CacheSleeve/RedisCacher.cs:31-33 | the bytes of one character, followed by anything, decode to that character and then to what the rest decodes to |
| Utf8.DecodeEncode | CacheSleeve/RedisCacher.cs:166-169 | every string written as UTF-8 decodes back to itself |
| Utf8.EncodeAscii | CacheSleeve/RedisCacher.cs:166-169 | an ASCII string encodes to one byte per character, equal to its code |
| Utf8.EAcute | CacheSleeve/RedisCacher.cs:166-169 | U+00E9 is the two bytes C3 A9, which decode back to it |
| KeyCodec.AddPrefix | CacheSleeve/CacheManager.cs:166-169 | the stored name starts with the prefix and goes on with the key, a null key adding nothing |
| KeyCodec.IsNullOrWhiteSpace | CacheSleeve/RedisCacher.cs:193 | `string.IsNullOrWhiteSpace`: null and empty are blank; a string holding any non-white-space character is not |
| KeyCodec.StripPrefixAsWritten | CacheSleeve/CacheManager.cs:176-182 | the regex strip, for a prefix without regex metacharacters other than '.': null stays null; a key `^prefix` does not match comes back unchanged; a matching key loses exactly as many leading characters as the prefix has, keeping the rest as a suffix |
| KeyCodec.StripPrefix | CacheSleeve/CacheManager.cs:176-182 | the intended strip: null stays null; a key that starts with the prefix loses exactly the prefix; any other key is unchanged |
| KeyCodec.StripPrefixUnguarded | CacheSleeve/CacheSleeve.cs:83-87 | without the null guard, a null key throws `ArgumentNullException`; any other key is stripped as by StripPrefix |
| KeyCodec.StripAddPrefix | CacheSleeve/CacheManager.cs:166-182 | stripping undoes prefixing; a null key comes back as the empty name |
| KeyCodec.AddPrefixInjective | CacheSleeve.NET40/CacheManager.cs:152-155 | distinct keys never map to the same prefixed name |
| KeyCodec.StripAsWrittenAddPrefix | CacheSleeve/Manager.cs:95-111 | the regex strip also undoes prefixing, for any prefix without regex quantifiers |
| KeyCodec.StripAgreesOnPrefixedKeys | CacheSleeve/CacheManager.cs:176-182 | for a prefix without regex metacharacters other than '.', the regex strip and the literal strip agree on every key that starts with the prefix |
| KeyCodec.StripAsWrittenOverStrips | CacheSleeve/CacheManager.cs:180-181 | with the default prefix "cs.", the regex strip turns "csXkey" into "key", while the literal strip leaves it alone |
| KeyCodec.AddPrefixLength | CacheSleeve/RedisCacherAsync.cs:174 | a prefixed name is no longer than the prefix exactly when the key is null or empty |
| KeyCodec.BlankAfterStrip | CacheSleeve/RedisCacher.cs:193 | the blank-name guard on a prefixed name tests whether the caller's key is blank |
| Glob.StarMatchesEverything | CacheSleeve/CacheManager.cs:157 | the pattern `*` matches every name |
| Glob.LiteralThenStar | CacheSleeve/CacheManager.cs:55-56 | for a literal prefix p, the pattern `p*` matches exactly the names that start with p |
| RedisStore.DelMissing | CacheSleeve/RedisCacher.cs:92 | deleting a missing key changes nothing |
| RedisStore.Server.StringGet | CacheSleeve/RedisCacher.cs:33 | GET: throws while down, WRONGTYPE on a list, otherwise the value or null |
| RedisStore.Server.StringSet | CacheSleeve/RedisCacher.cs:167-173 | SET: throws while down; otherwise stores the value and clears the key's TTL |
| RedisStore.Server.KeyDelete | CacheSleeve/RedisCacher.cs:92 | DEL: answers whether the key existed, and deletes it |
| RedisStore.Server.KeyDeleteMany | CacheSleeve/RedisCacherAsync.cs:218 | multi-key DEL: answers how many of the keys existed, and deletes them all |
| RedisStore.Server.KeyExpire | CacheSleeve/RedisCacher.cs:69 | EXPIRE: answers whether the key existed; a positive timeout becomes the TTL, and any other timeout deletes the key |
| RedisStore.Server.KeyTimeToLive | CacheSleeve/RedisCacher.cs:134 | TTL: the remaining seconds, or null for a missing key or a key without expiry |
| RedisStore.Server.ListRightPush | CacheSleeve/RedisCacher.cs:197 | RPUSH: WRONGTYPE on a string; otherwise appends the item and answers the new length |
| RedisStore.Server.ListRange | CacheSleeve/RedisCacher.cs:220 | LRANGE 0 -1: the whole list, empty for a missing key, WRONGTYPE on a string |
| RedisStore.Server.Publish | CacheSleeve/RedisCacher.cs:149 | PUBLISH: appends the message to the log, or throws while down |
| RedisStore.Server.Keys | CacheSleeve/CacheManager.cs:157 | KEYS/SCAN: every key that matches the pattern, each exactly once, and no other key |
| RedisStore.Server.Tick | CacheSleeve/RedisCacher.cs:82 | as time passes, keys whose TTL runs out vanish, and the others' TTLs shrink |
| RemoteSpec.ExpireAllEffect | CacheSleeve/RedisCacher.cs:203-206 | expiring a list of keys gives each existing key of the list the TTL, and leaves the data and every other TTL alone |
| RemoteSpec.ChildKeysMembers | CacheSleeve/RedisCacher.cs:221-225 | the deletion loop deletes exactly the children and the children's back-references |
| RemoteSpec.FlushStepStaysFaulted | CacheSleeve/RedisCacher.cs:105-107 | once a removal in the FlushAll loop has thrown, nothing further happens |
| RemoteSpec.ChildrenKeyNotParentKey | CacheSleeve/RedisCacher.cs:197-198 | no `.children` key is ever a `.parent` key |
| RemoteSpec.SuffixedKeysDiffer | CacheSleeve/RedisCacher.cs:197-198 | `k.children` and `k.parent` are never `k` itself |
| RemoteSpec.SpreadTtlKeepsData | CacheSleeve/RedisCacher.cs:199-207 | spreading the parent's TTL changes no stored value |
| RemoteSpec.UntimedSetAnswersTrue | CacheSleeve/RedisCacher.cs:52-60 | the untimed Set never answers false; while the server is down it answers true and changes nothing |
| RemoteSpec.TimedSetAnswer | CacheSleeve/RedisCacher.cs:76-87 | the timed Set answers false exactly when the write failed, and then nothing changed; otherwise it answers true or throws |
| RemoteSpec.LinkedRecordsEdge | CacheSleeve/RedisCacher.cs:197-198 | linking appends the child to the parent's list and writes the parent's name into the child's back-reference |
| RemoteSpec.LinkedFrame | CacheSleeve/RedisCacher.cs:196-207 | linking changes no key other than the list and the back-reference |
| RemoteSpec.LinkedCopiesParentTtl | CacheSleeve/RedisCacher.cs:199-207 | with a finite parent TTL, the list, the back-reference and every listed child get exactly that TTL, and the parent keeps it |
| RemoteSpec.LinkedWithoutParentTtl | CacheSleeve/RedisCacher.cs:198-200 | without a parent TTL no key gets an expiry, and the rewritten back-reference loses any expiry it had |
| RemoteSpec.UnlinkedDeletesDependencies | CacheSleeve/RedisCacher.cs:214-228 | RemoveDependencies deletes the children, their back-references and the list, and every other key keeps its value and TTL |
| RemoteSpec.DependencyKeysMembers | CacheSleeve/RedisCacher.cs:220-227 | every listed child, and its back-reference, is among the keys RemoveDependencies deletes |
| RemoteSpec.ThreeGenerationsUnlinked | CacheSleeve/RedisCacher.cs:220-227 | concretely, with a→b→c, unlinking a deletes b and keeps c |
| RemoteSpec.GrandchildSurvivesRemove | CacheSleeve/RedisCacher.cs:89-101 | Remove("a") answers true and deletes the child b, but the grandchild c survives: the cascade is one level deep |
| RemoteSpec.RemoveAbsent | CacheSleeve/RedisCacher.cs:92-100 | Remove of a missing key answers false and changes nothing |
| RemoteSpec.RemovePresent | CacheSleeve/RedisCacher.cs:92-98 | in all three copies (for the Async copy, on a keyspace with no empty list, as Redis keeps it), Remove of a present key answers true, unless its list key holds a string, and deletes the key, its back-reference, its list, and each child with its back-reference |
| RemoteSpec.ReadBackOwnKind | CacheSleeve/RedisCacher.cs:22-50 | a stored value read as its own type comes back unchanged, in every copy |
| RemoteSpec.ReadMissing | CacheSleeve/RedisCacher.cs:39-40 | a missing key reads as null in every copy, for every type, and changes nothing |
| RemoteSpec.FailedDecodeRemoves | CacheSleeve/RedisCacher.cs:45-48 | in Sync and NET40, text that is not JSON, read as an object, answers null and the key is removed |
| RemoteSpec.MismatchedDecodeThrows | CacheSleeve/RedisCacher.cs:41-49 | an object stored under another type throws and changes nothing; in Async, so does text that is not JSON |
| RemoteSpec.SetThenGet | CacheSleeve/RedisCacher.cs:52-60 | after a successful Set, every copy's Get reads the value back (unless the key is among its own dependency keys) |
| RemoteSpec.SetRemovesOldChildren | CacheSleeve/RedisCacher.cs:54-57 | in all three copies, overwriting a key deletes every child it listed before |
| RemoteSpec.SetWithoutParentKeepsOldEdge | CacheSleeve/RedisCacher.cs:56-57 | in all three copies, a Set without a parent changes nothing beyond the key and its old children; an old back-reference stays as it was |
| RemoteSpec.DependentsExpireWithParent | CacheSleeve/RedisCacher.cs:199-207 | once the parent's time runs out, the list, the back-reference and every listed child are gone too |
| RemoteSpec.GuardsDifferOnWhitespaceParent | CacheSleeve/RedisCacherAsync.cs:174-175 | the Async length guard links a whitespace parent, which the blank-name guard of CacheSleeve/RedisCacher.cs:193 skips |
| RemoteSpec.GuardsSkipMissingNames | CacheSleeve/RedisCacher.cs:193-194 | every copy's guard skips a null or empty child or parent |
| RemoteSpec.BatchUnlinkMatchesLoop | CacheSleeve/RedisCacherAsync.cs:201-220 | the batch delete of a non-empty list deletes the same keys as the loop; for an empty list it changes nothing |
| RemoteSpec.PipelinedLinkWritesBackReference | CacheSleeve/RedisCacherAsync.cs:180-183 | when the parent's list key holds a string, the pipelined copies write the back-reference before they throw; Sync throws first |
| RemoteSpec.RemoveOnlyDeletes | CacheSleeve/RedisCacher.cs:89-101 | a removal creates no key |
| RemoteSpec.RemoveDeletesKey | CacheSleeve/RedisCacher.cs:92 | the removed key is gone, even when the removal throws later |
| RemoteSpec.FlushOnlyDeletes | CacheSleeve/RedisCacher.cs:103-108 | neither flush creates a key |
| RemoteSpec.FlushRemovesListedKeys | CacheSleeve/RedisCacher.cs:103-108 | a FlushAll that returns has removed every listed key that carries the prefix |
| RemoteSpec.FlushAllRemovesListedKeys | CacheSleeve.NET40/RedisCacher.cs:233-240 | the NET40 FlushAllAsync removes every listed key that carries the prefix, even when some removal throws |
| RemoteSpec.ListedKeysCarryPrefix | CacheSleeve/CacheManager.cs:157 | for a prefix without glob characters, every key the listing finds starts with the prefix |
| RemoteCache.RedisCacher.ListKeys | CacheSleeve/CacheManager.cs:154-159 | the keys matching `prefix*`, each once; throws exactly while the server is down |
| RemoteCache.RedisCacher.Get | CacheSleeve/RedisCacher.cs:22-50 | Get leaves the keyspace, and answers, exactly as GetStep(Sync) says |
| RemoteCache.RedisCacher.Set | CacheSleeve/RedisCacher.cs:52-60 | Set is SetStep(Sync) without expiry |
| RemoteCache.RedisCacher.SetUntil | CacheSleeve/RedisCacher.cs:62-74 | the DateTime overload is SetStep(Sync) with the span from now to the instant |
| RemoteCache.RedisCacher.SetFor | CacheSleeve/RedisCacher.cs:76-87 | the TimeSpan overload is SetStep(Sync) with that span |
| RemoteCache.RedisCacher.Remove | CacheSleeve/RedisCacher.cs:89-101 | Remove is RemoveStep(Sync) |
| RemoteCache.RedisCacher.FlushAll | CacheSleeve/RedisCacher.cs:103-108 | the listing holds exactly the matching keys, and the loop ends as FlushStep(Sync) over it; throws and changes nothing while the server is down |
| RemoteCache.RedisCacher.GetAllKeys | CacheSleeve/RedisCacher.cs:110-124 | each matching key once, and no other, with expiration now + TTL, or null without a TTL |
| RemoteCache.RedisCacher.TimeToLive | CacheSleeve/RedisCacher.cs:131-138 | the remaining seconds, or -1 without expiry; never another negative number |
| RemoteCache.RedisCacher.PublishToKey | CacheSleeve/RedisCacher.cs:146-150 | the message is appended to the server's log |
| RemoteCache.RedisCacher.InternalSet | CacheSleeve/RedisCacher.cs:160-183 | answers whether the server is up; the write happens exactly then |
| RemoteCache.RedisCacher.SetDependencies | CacheSleeve/RedisCacher.cs:191-208 | SetDependencies is LinkStep(Sync) |
| RemoteCache.RedisCacher.SpreadParentTtl | CacheSleeve/RedisCacher.cs:199-207 | the TTL branch leaves the keyspace as SpreadTtl says |
| RemoteCache.RedisCacher.RemoveDependencies | CacheSleeve/RedisCacher.cs:214-228 | RemoveDependencies is UnlinkStep(Sync) |
| RemoteCache.RedisCacher.DeleteChildren | CacheSleeve/RedisCacher.cs:221-225 | the loop deletes exactly each child and its back-reference |
| RemoteCache.RedisCacher.LinkPipelined | CacheSleeve/RedisCacherAsync.cs:177-194 | the commands issued together: throws while the server is down; WRONGTYPE after writing the back-reference; otherwise Linked |
| RemoteCache.RedisCacher.GetAsync | CacheSleeve/RedisCacherAsync.cs:14-33 | GetAsync is GetStep(Async), and never changes the keyspace |
| RemoteCache.RedisCacher.SetAsync | CacheSleeve/RedisCacherAsync.cs:35-44 | SetAsync is SetStep(Async) without expiry |
| RemoteCache.RedisCacher.SetUntilAsync | CacheSleeve/RedisCacherAsync.cs:46-49 | the DateTime overload is SetStep(Async) with the span from now |
| RemoteCache.RedisCacher.SetForAsync | CacheSleeve/RedisCacherAsync.cs:51-63 | the TimeSpan overload is SetStep(Async) with that span |
| RemoteCache.RedisCacher.RemoveAsync | CacheSleeve/RedisCacherAsync.cs:65-78 | RemoveAsync is RemoveStep(Async) |
| RemoteCache.RedisCacher.FlushAllAsync | CacheSleeve/RedisCacherAsync.cs:80-84 | deletes only the one key named by the listing's own text |
| RemoteCache.RedisCacher.GetAllKeysAsync | CacheSleeve/RedisCacherAsync.cs:86-102 | the same listing as GetAllKeys |
| RemoteCache.RedisCacher.TimeToLiveAsync | CacheSleeve/RedisCacherAsync.cs:109-116 | the same answer as TimeToLive |
| RemoteCache.RedisCacher.PublishToKeyAsync | CacheSleeve/RedisCacherAsync.cs:124-128 | the message is appended to the log |
| RemoteCache.RedisCacher.InternalSetAsync | CacheSleeve/RedisCacherAsync.cs:138-164 | writes the already-prefixed key exactly when the server is up, and answers whether it did |
| RemoteCache.RedisCacher.SetDependenciesAsync | CacheSleeve/RedisCacherAsync.cs:172-195 | SetDependenciesAsync is LinkStep(Async) |
| RemoteCache.RedisCacher.RemoveDependenciesAsync | CacheSleeve/RedisCacherAsync.cs:201-220 | RemoveDependenciesAsync is UnlinkStep(Async) |
| RemoteCache.RedisCacher.DependencyBatch | CacheSleeve/RedisCacherAsync.cs:211-217 | the batch: the list key, then each child and its back-reference |
| RemoteCacheNet40.RedisCacher.GetAsync | CacheSleeve.NET40/RedisCacher.cs:152-180 | GetAsync is GetStep(Net40Async) |
| RemoteCacheNet40.RedisCacher.SetAsync | CacheSleeve.NET40/RedisCacher.cs:182-190 | SetStep(Net40Async) without expiry |
| RemoteCacheNet40.RedisCacher.SetUntilAsync | CacheSleeve.NET40/RedisCacher.cs:192-204 | SetStep(Net40Async) with the span from now |
| RemoteCacheNet40.RedisCacher.SetForAsync | CacheSleeve.NET40/RedisCacher.cs:206-217 | SetStep(Net40Async) with that span |
| RemoteCacheNet40.RedisCacher.RemoveAsync | CacheSleeve.NET40/RedisCacher.cs:219-231 | RemoveStep(Net40Async) |
| RemoteCacheNet40.RedisCacher.FlushAllAsync | CacheSleeve.NET40/RedisCacher.cs:233-240 | the listing holds exactly the matching keys, and every removal runs, as FlushAllStep says |
| RemoteCacheNet40.RedisCacher.GetAllKeysAsync | CacheSleeve.NET40/RedisCacher.cs:242-260 | each matching key once, with expiration now + TTL |
| RemoteCacheNet40.RedisCacher.TimeToLiveAsync | CacheSleeve.NET40/RedisCacher.cs:267-274 | the remaining seconds, or -1 |
| RemoteCacheNet40.RedisCacher.PublishToKeyAsync | CacheSleeve.NET40/RedisCacher.cs:282-286 | the message is appended to the log |
| RemoteCacheNet40.RedisCacher.SetDependenciesAsync | CacheSleeve.NET40/RedisCacher.cs:386-408 | LinkStep(Net40Async) |
| RemoteCacheNet40.RedisCacher.RemoveDependenciesAsync | CacheSleeve.NET40/RedisCacher.cs:433-448 | UnlinkStep(Net40Async) |
| LocalCache.AspNetCache.Get | CacheSleeve/HttpContextCacher.cs:27 | the slot's content, or null exactly when the slot is empty |
| LocalCache.AspNetCache.Insert | CacheSleeve/HttpContextCacher.cs:113-116 | the old slot and its dependents go; the item is kept when it is live and its dependency names a slot still cached (or it has none); no expired item is ever visible |
| LocalCache.AspNetCache.Remove | CacheSleeve/HttpContextCacher.cs:60-61 | the slot goes, with every item that depends on it |
| LocalCache.AspNetCache.Keys | CacheSleeve/HttpContextCacher.cs:74-76 | the enumerator yields exactly the slot names |
| LocalCache.AspNetCache.AdvanceTo | CacheSleeve/HttpContextCacher.cs:116 | the clock moves on, and items whose instant has come are gone, with their dependents |
| LocalCache.HttpContextCacher.Get | CacheSleeve/HttpContextCacher.cs:25-34 | Get leaves the cache, and answers, as Read says |
| LocalCache.HttpContextCacher.Set | CacheSleeve/HttpContextCacher.cs:36-40 | answers true; the cache becomes Written without expiry |
| LocalCache.HttpContextCacher.SetUntil | CacheSleeve/HttpContextCacher.cs:42-46 | answers true; Written with the given instant |
| LocalCache.HttpContextCacher.SetFor | CacheSleeve/HttpContextCacher.cs:48-52 | answers true; Written with the instant now + span |
| LocalCache.HttpContextCacher.Remove | CacheSleeve/HttpContextCacher.cs:54-70 | answers whether the key was cached; the cache becomes Removed |
| LocalCache.HttpContextCacher.FlushAll | CacheSleeve/HttpContextCacher.cs:72-77 | the cache is empty afterwards |
| LocalCache.HttpContextCacher.GetAllKeys | CacheSleeve/HttpContextCacher.cs:79-85 | exactly the slots holding a CacheEntry, each once, with the entry's expiration |
| LocalCache.HttpContextCacher.TimeToLive | CacheSleeve/HttpContextCacher.cs:92-98 | TimeLeft: -1 when absent or without expiry, otherwise the seconds left; never another negative number |
| LocalCache.HttpContextCacher.InternalSet | CacheSleeve/HttpContextCacher.cs:106-125 | answers true; the entry is inserted with the dependency and expiry that Written says |
| LocalCache.ReadHitExactly | CacheSleeve/HttpContextCacher.cs:25-34 | Get answers x exactly when a CacheEntry holding x, of the requested type, is cached under the key |
| LocalCache.MistypedEntryEvicted | CacheSleeve/HttpContextCacher.cs:28-31 | an entry of another type reads as the default, and is evicted with its `.parent` companion |
| LocalCache.ReadMissLeavesCache | CacheSleeve/HttpContextCacher.cs:56-57 | reading a key with nothing cached changes nothing |
| LocalCache.ReadBackWritten | CacheSleeve/HttpContextCacher.cs:106-125 | a live entry just written under a cached parent (or none) reads back, whatever was cached before |
| LocalCache.UncachedParentDropsEntry | CacheSleeve/HttpContextCacher.cs:108-116 | an entry written under a parent that is not cached is invalidated at once: the key reads as absent, and no other slot is added or changed |
| LocalCache.LaterSetWins | CacheSleeve/HttpContextCacher.cs:113-116 | of two Sets of the same key, the second one's value is read, when its parent is cached (or it has none) |
| LocalCache.DependencyOnlyForParent | CacheSleeve/HttpContextCacher.cs:108-110 | under a cached parent (or none), a dependency is recorded exactly for a parent that is neither null nor blank, and it is on the prefixed parent |
| LocalCache.RemovingParentEvictsChild | CacheSleeve/HttpContextCacher.cs:108-110 | removing a cached parent evicts the child written under it |
| LocalCache.RemoveEffect | CacheSleeve/HttpContextCacher.cs:54-70 | Remove of an absent key changes nothing; otherwise the key and its `.parent` entry are gone, and every surviving slot is unchanged |
| LocalCache.UntimedHasNoTtl | CacheSleeve/HttpContextCacher.cs:92-98 | TimeToLive is -1 for a missing key and after an untimed Set |
| LocalCache.TimedEntryExpires | CacheSleeve/HttpContextCacher.cs:48-52 | after a Set for a span under a cached parent (or none), TimeToLive answers the span and the value reads back; from its instant on, it is gone |
| LocalCache.WrittenStamped | CacheSleeve/HttpContextCacher.cs:113-116 | a write keeps every entry's own expiration equal to the expiry its slot was inserted with |
| LocalCache.FlushedReadsAbsent | CacheSleeve/HttpContextCacher.cs:72-77 | after FlushAll, every key reads as absent |
| LocalCache.LiveTtlPositive | CacheSleeve/HttpContextCacher.cs:92-98 | the TimeToLive of a live entry is -1 or positive |
| HybridSpec.FirstByName | CacheSleeve/HybridCacherAsync.cs:116 | one entry per name, the same names as the input, and each one the first entry of its name |
| HybridSpec.LocalHitSkipsRemote | CacheSleeve/HybridCacher.cs:22-24 | a local hit answers from the local tier; the remote tier is not touched and nothing changes |
| HybridSpec.MissEverywhereLeavesLocal | CacheSleeve/HybridCacher.cs:22-26 | a miss in both tiers answers null and leaves the local tier and the log alone |
| HybridSpec.RemoteValueHasType | CacheSleeve/RedisCacher.cs:22-50 | a value the remote read returns has the requested type, and the server was up |
| HybridSpec.FillOnHit | CacheSleeve/HybridCacher.cs:25-35 | on a remote hit the TTL and `.parent` reads return, and the answer and local tier are those of reading the key back after the local Set with the remote TTL and parent |
| HybridSpec.BackfillFromRemote | CacheSleeve/HybridCacher.cs:25-35 | on a local miss and a remote hit under a locally cached parent (or none), Get answers the remote value and caches it locally, expiring when the remote copy does |
| HybridSpec.BackfillUnderUncachedParent | CacheSleeve/HybridCacher.cs:29-34 | on a local miss and a remote hit whose parent is not cached locally, the backfilled entry is invalidated at once: Get answers null, nothing is cached or published |
| HybridSpec.UncachedParentCallsFactory | CacheSleeve/HybridCacherAsync.cs:32-42 | GetOrSetAsync on a remote hit whose parent is not cached locally calls the factory, answers its value and writes it through with its invalidation |
| HybridSpec.BackfillKeepsParent | CacheSleeve/HybridCacher.cs:29-33 | under a locally cached parent, the backfilled local entry depends on the parent named by the remote `.parent` entry |
| HybridSpec.ParentCutsAgree | CacheSleeve/HybridCacherAsync.cs:20-22 | the Substring of GetAsync and the StripPrefix of Get agree on a prefixed parent; on a shorter name Substring throws |
| HybridSpec.WriteAnswersTrue | CacheSleeve/HybridCacher.cs:39-53 | Set answers true exactly when the remote write returned and the server is up; then the invalidation is published and the local tier is untouched |
| HybridSpec.WriteFailureClearsBoth | CacheSleeve/HybridCacher.cs:47-52 | when the remote write throws, the key is in neither tier, nothing is published, and the answer is not true |
| HybridSpec.WriteWhileDownThrows | CacheSleeve/HybridCacher.cs:47-52 | with the server down, Set throws and leaves the key removed locally |
| HybridSpec.DropAnswers | CacheSleeve/HybridCacher.cs:87-99 | Remove never throws; it answers true exactly when the remote removal returned, and then publishes the invalidation; the local tier is untouched |
| HybridSpec.DropAbsentAnswersTrue | CacheSleeve/HybridCacher.cs:89-93 | removing an absent key answers true and still publishes |
| HybridSpec.ClearPublishesFlush | CacheSleeve/HybridCacher.cs:101-105 | FlushAll publishes the flush message exactly when the remote flush returned; the local tier is untouched |
| HybridSpec.ClearAsyncPublishesFlush | CacheSleeve/HybridCacherAsync.cs:106-110 | FlushAllAsync publishes the flush message exactly when its one remote delete returns, which deletes that key; while down it throws and changes nothing; the local tier is untouched |
| HybridSpec.FactoryValueAnswered | CacheSleeve/HybridCacherAsync.cs:32-42 | on a miss in both tiers, the factory's value is answered and written through, with its invalidation |
| HybridSpec.NullFactoryWritesNothing | CacheSleeve/HybridCacherAsync.cs:35-41 | a null factory value writes nothing |
| HybridSpec.RemoteEntryWins | CacheSleeve/HybridCacherAsync.cs:114-116 | in the merged listing, a name the remote tier reports carries the remote entry; any other name carries a local one |
| HybridSpec.MergedListing | CacheSleeve/HybridCacherAsync.cs:112-117 | the merged listing names each key once; its names are the remote names and the local CacheEntry slots; a remote name carries the remote expiration, any other a local entry |
| Hybrid.HybridCacher.Get | CacheSleeve/HybridCacher.cs:18-35 | a local hit or a local InvalidCast is the answer; otherwise the answer and both tiers are as FetchStep(Sync) says |
| Hybrid.HybridCacher.ReadThrough | CacheSleeve/HybridCacher.cs:23-34 | after a local miss, the remote value is stored locally with the remote TTL and the stripped parent (invalidated at once when that parent is not cached), and read back, as FillStep(Sync) says |
| Hybrid.HybridCacher.Set | CacheSleeve/HybridCacher.cs:39-53 | Set is WriteStep(Sync) without expiry |
| Hybrid.HybridCacher.SetUntil | CacheSleeve/HybridCacher.cs:55-69 | the DateTime overload is WriteStep(Sync) with the span from now |
| Hybrid.HybridCacher.SetFor | CacheSleeve/HybridCacher.cs:71-85 | the TimeSpan overload is WriteStep(Sync) with that span |
| Hybrid.HybridCacher.Announce | CacheSleeve/HybridCacher.cs:44-51 | after the remote write: publish and answer true, or run the catch block |
| Hybrid.HybridCacher.Remove | CacheSleeve/HybridCacher.cs:87-99 | Remove is DropStep(Sync) |
| Hybrid.HybridCacher.FlushAll | CacheSleeve/HybridCacher.cs:101-105 | throws and changes nothing while down; otherwise ClearStep over exactly the listed keys |
| Hybrid.HybridCacher.GetAsync | CacheSleeve/HybridCacherAsync.cs:11-30 | a local hit or a local InvalidCast is the answer; otherwise as FetchStep(Async) says |
| Hybrid.HybridCacher.ReadThroughAsync | CacheSleeve/HybridCacherAsync.cs:16-28 | after a local miss, FillStep(Async): the parent name is cut with Substring, which throws on a name shorter than the prefix; the entry is invalidated at once when that parent is not cached |
| Hybrid.HybridCacher.GetOrSetAsync | CacheSleeve/HybridCacherAsync.cs:32-42 | FetchOrStoreStep: the factory runs exactly when GetAsync answers null, which includes a remote hit under an uncached parent |
| Hybrid.HybridCacher.SetAsync | CacheSleeve/HybridCacherAsync.cs:44-58 | WriteStep(Async) without expiry |
| Hybrid.HybridCacher.SetUntilAsync | CacheSleeve/HybridCacherAsync.cs:60-74 | WriteStep(Async) with the span from now |
| Hybrid.HybridCacher.SetForAsync | CacheSleeve/HybridCacherAsync.cs:76-90 | WriteStep(Async) with that span |
| Hybrid.HybridCacher.RemoveAsync | CacheSleeve/HybridCacherAsync.cs:92-104 | DropStep(Async) |
| Hybrid.HybridCacher.FlushAllAsync | CacheSleeve/HybridCacherAsync.cs:106-110 | ClearAsyncStep: the one remote delete, then the flush message |
| Hybrid.HybridCacher.GetAllKeysAsync | CacheSleeve/HybridCacherAsync.cs:112-117 | names once each: the remote names and the local CacheEntry slots; a remote name carries its remote entry |
| Bus.Dispatch | CacheSleeve/CacheManager.cs:55-56 | the handler a message reaches; the remove handler gets back exactly the published key (UTF-8 encoded, then decoded) |
| Bus.Handle | CacheSleeve/Manager.cs:56-57 | a handler never adds or changes a local slot, it only drops slots; the flush handler drops them all |
| Bus.GetString | CacheSleeve/Manager.cs:118-122 | the handlers' conversion as written: never more characters than the message had bytes (see AsciiKeyRecovered and NonAsciiKeyMissed) |
| Bus.Deliver | CacheSleeve/CacheManager.cs:55-56 | the local cache becomes Handle: the remove handler removes the key the payload's UTF-8 bytes decode to, the flush handler empties the tier, other channels change nothing |
| Bus.DispatchExactly | CacheSleeve/CacheManager.cs:55-56 | the remove handler runs exactly for channels starting with "cacheSleeve.remove.", the flush handler exactly for those starting with "cacheSleeve.flush", and never both |
| Bus.PublishedMessagesDispatch | CacheSleeve/HybridCacher.cs:44 | the message a write publishes reaches the remove handler with the key; the flush message reaches the flush handler |
| Bus.InvalidationEvictsEverywhere | CacheSleeve.NET40/CacheManager.cs:63 | every process that handles the invalidation of a key holds no local copy of it afterwards |
| Bus.FlushEmptiesEverywhere | CacheSleeve/Manager.cs:57 | every process that handles the flush message has an empty local tier |
| Bus.WriteThenDeliverInvalidates | CacheSleeve/HybridCacher.cs:39-53 | after a Set that answers true, the last message is its invalidation, and a process that handles it reads the key as absent locally |
| Bus.LastInvalidationWins | CacheSleeve/Manager.cs:56 | a log that ends with the invalidation of a key leaves no local copy of it, whatever came before |
| Bus.OtherChannelsIgnored | CacheSleeve/CacheManager.cs:55-56 | a message on any other channel changes nothing |
| Bus.AsciiKeyRecovered | CacheSleeve/Manager.cs:118-122 | `GetString` as written gives back an ASCII key unchanged |
| Bus.NonAsciiKeyMissed | CacheSleeve/Manager.cs:118-122 | `GetString` as written turns "é" into "Ã", so the remove handler as written leaves a local "é" in place, while the UTF-8 reading of Dispatch drops it |
| Managers.AttemptsAfterSetup | CacheSleeve/CacheManager.cs:77-79 | once set up, a further initialisation goes through exactly under xunit with the tolerant policy; otherwise it throws InvalidOperationException |
| Managers.OnlyFirstInitSucceeds | CacheSleeve/CacheSleeve.cs:38-40 | on a fresh singleton, the first initialisation succeeds; outside tests (for CacheSleeve, always) no later one does |
| Managers.ScanPattern | CacheSleeve.NET40/CacheManager.cs:142 | the scan pattern starts with the prefix, and is the prefix followed by `*` when no pattern is given |
| Managers.DefaultScanFindsPrefixed | CacheSleeve.NET40/CacheManager.cs:142 | with a literal prefix, the default scan finds exactly the keys that carry the prefix |
| Managers.CacheManager.PopulateSettings | CacheSleeve/CacheManager.cs:75-89 | the guard's answer; on success, the settings as given and fresh cachers on the prefix; on failure, no field of the singleton changes |
| Managers.CacheManager.Init | CacheSleeve/CacheManager.cs:44-57 | the guard's answer; a refused call changes no field (so a ready singleton stays ready); on success, ready, with the connection and both subscriptions in place |
| Managers.CacheManager.Receive | CacheSleeve/CacheManager.cs:55-56 | a delivered message acts on the local cacher as Bus.Handle says |
| Managers.CacheManager.GetAllKeys | CacheSleeve/CacheManager.cs:154-159 | the keys matching the prefix followed by `*`, each once; throws while down |
| Managers.CacheManager40.PopulateSettings | CacheSleeve.NET40/CacheManager.cs:68-80 | the guard's answer; on failure no field changes; on success, the configuration, database and prefix, with fresh cachers |
| Managers.CacheManager40.InitWith | CacheSleeve.NET40/CacheManager.cs:55-65 | the guard's answer; a refused call changes no field; on success, ready, with both subscriptions |
| Managers.CacheManager40.Init | CacheSleeve.NET40/CacheManager.cs:43-53 | builds the options (admin allowed, no abort on connect failure, the timeout), then as InitWith: a refused re-initialisation changes no field; on success Ready, with fresh cachers on the given store |
| Managers.CacheManager40.Receive | CacheSleeve.NET40/CacheManager.cs:63-64 | a delivered message acts on the local cacher as Bus.Handle says |
| Managers.CacheManager40.GetAllKeys | CacheSleeve.NET40/CacheManager.cs:135-145 | a key is listed exactly when a primary endpoint holds it and it matches the prefixed pattern (`*` by default); throws exactly when a primary is down |
| Managers.Manager.Init | CacheSleeve/Manager.cs:39-58 | the guard's answer; a refused call changes no field; on success, host, port, password and prefix as given, both subscriptions on the connection to its own host, and fresh cachers bound to the CacheManager settings: its prefix, and its connection (no remote cacher before CacheManager has one) |
| Managers.Manager.Receive | CacheSleeve/Manager.cs:56-57 | a delivered message acts on the local cacher as Bus.Handle says, under the CacheManager prefix the cacher uses |
| Managers.CacheSleeve.Init | CacheSleeve/CacheSleeve.cs:36-46 | a second Init always throws and keeps the old settings; the first one stores the settings as given |

## Left out

- JSON serialisation is not modelled. An object is its type name and JSON text, and deserialising succeeds exactly when the names agree. Text that happens to be valid JSON of the wanted type is not modelled.
- Connecting to Redis and connection options beyond what Init records are not modelled, and neither is a connect failure. The connection is a `Server` given to Init.
- The Redis database index (`RedisDb`, `GetDatebase`) is recorded but not used: a server holds one keyspace.
- Pub/sub delivery is not concurrent. A published message is appended to the server's log, and a process handles it when `Bus.Deliver` (or a manager's `Receive`) runs.
- Lone surrogates are not modelled: a Dafny `char` is a Unicode scalar value, so a .NET string holding an unpaired surrogate has no counterpart. The number of U+FFFD characters older .NET runtimes emit for an ill-formed sequence may differ from the maximal-subpart rule of `Utf8.Decode`.
- Concurrency (`Task.WhenAll`, `Task.WaitAll`, un-awaited tasks) is modelled as the same commands run in sequence. Where running them together changes the outcome, that is modelled explicitly: the pipelined link writes the back-reference even when the push fails.
- `KEYS`/`SCAN` is a snapshot of the matching keys. Its order is left open.
- Reporting is not modelled: `GenerateOverview`, the Razor view, the `Overview` model, the `Debug` flag and `Trace` output.
- `UnitTestDetector` is the boolean `underTest`.
- `CacheManager.InitAsync` (CacheSleeve/CacheManager.cs:59-73, and CacheSleeve/CacheManagerAsync.cs) runs the same guard and subscriptions as `Init`, so `Managers.CacheManager.Init` stands for both.
- The `.NET` cache's own machinery is not modelled (`CacheDependency` file watches, sliding expiration, memory-pressure eviction).
- `LocalCache.AspNetCache.Remove`: the cascade is one level. An item that depends on an evicted dependent is not evicted in turn.
- `DateTime` kinds are not modelled. Local time and UTC are one clock, so the DateTime overloads do not suffer the local/UTC offset.
- The `(int)` and `(long)` casts of TTL seconds are not modelled. TTLs are whole seconds.
- Value types are not modelled: `T` ranges over reference types (`string`, `byte[]`, classes), a cached value is never null, and `Get` answers `None` for `default(T)`, the null reference. For a non-nullable value type the source behaves otherwise, and the model does not say so: `result != null` at CacheSleeve/HybridCacher.cs:23 and CacheSleeve/HybridCacherAsync.cs:14 always holds, so a local miss answers `default(T)` without reading the remote tier; and `value == null` at CacheSleeve/HybridCacherAsync.cs:35 never holds, so GetOrSetAsync never calls the factory. In GetOrSetAsync, `!value.Equals(default(T))` is read as "not null".
- `KeyCodec.StripPrefix`: prefixes holding regex metacharacters other than '.' (`\ * + ? | { [ ( ) ^ $`) are not modelled, because the source's unescaped `new Regex("^" + KeyPrefix)` then strips differently or throws. With prefix "a+" it strips only the "a" of "a+x", so FlushAll removes "+x" (the name "a++x") and keeps "a+x", which `RemoteSpec.FlushRemovesListedKeys` does not show. With prefix "cs(" the constructor throws `ArgumentException` on every non-null strip, so every synchronous Set and Remove, FlushAll and a Hybrid Get backfill with a parent throw, where the model answers normally.
- Redis glob classes (`[...]`) and escapes (`\`) are not modelled: only `*` and `?` are. A prefix is called literal when it holds none of these characters.
- The bulk `GetAll`/`SetAll` operations, declared in CacheSleeve/ICacher.cs, are not part of this model because no implementation is shown.
- The value factory of GetOrSetAsync is caller code: its answer is the input `made`.
- `Managers.CacheManager40.GetAllKeys`: states which keys are listed, not how often. A key held by two primaries appears once per primary.
- `RemoteCacheNet40.RedisCacher.FlushAllAsync`, `RemoteCacheNet40.RedisCacher.GetAllKeysAsync`, and the .NET 4.0 synchronous FlushAll and GetAllKeys reached through `core`: they list the keys of the one server the cacher talks to. The source asks `CacheManager.GetAllKeys` (CacheSleeve.NET40/CacheManager.cs:135-145), which walks every primary endpoint; the two agree for a single primary. With a key held by two primaries, GetAllKeysAsync's `Dictionary.Add` throws `ArgumentException`, and this is not modelled.
- `Managers.Manager.Init`: the cachers get CacheManager's prefix and connection as they are at this Init. In the source they keep reading the settings object, so a later CacheManager Init changes what they use.
- `LocalCache.HttpContextCacher.GetAllKeys`: states which entries are listed, not their order; the ASP.NET enumerator's order is left open.
- `RemoteCache.RedisCacher.FlushAllAsync`: modelled as the single delete of the key that the listing object's text names. That name is a parameter, since it is the runtime's `ToString` of a collection.
- `Hybrid.HybridCacher.FlushAll`: the keys the flush removes are ghost (the server's listing). Its contract speaks of them through ClearStep.

## Findings

| source | as written | input that shows it | evidently intended | confidence | as-written member | corrected member |
|---|---|---|---|---|---|---|
| CacheSleeve/CacheManager.cs:180-181 | `StripPrefix` turns `"^" + KeyPrefix` into a regex without escaping it, so each `.` of the prefix matches any character | prefix "cs.", key "csXkey": the regex strip answers "key" | remove the prefix only when the key starts with it literally | not executed | KeyCodec.StripAsWrittenOverStrips | KeyCodec.StripPrefix |
| CacheSleeve/Manager.cs:118-122 | `GetString` reads the message bytes as ISO-8859-1, converts them to UTF-8 and decodes only the first `bytes.Count()` bytes of the converted buffer; a key that is not ASCII comes out changed, and its invalidation removes another key | key "é": the message bytes C3 A9 become "Ã©", then C3 83 C2 A9, cut to C3 83, which decodes to "Ã" | decode the message bytes as UTF-8, giving back the published key | not executed | Bus.NonAsciiKeyMissed | Utf8.DecodeEncode |

The same unescaped regex is in CacheSleeve/Manager.cs:109-110 and CacheSleeve/CacheSleeve.cs:85-86. `KeyCodec.StripAgreesOnPrefixedKeys` proves that, for a prefix without regex metacharacters other than '.', the two strips agree on every key that starts with the prefix. Those are the keys the cachers pass to StripPrefix: they were built with AddPrefix, or listed by the pattern `prefix*` (for a literal prefix). So, for such a prefix, the rest of the model uses the corrected strip with no loss; other prefixes are listed under "## Left out".

The same `GetString` is in CacheSleeve/CacheManager.cs:189-193 and CacheSleeve.NET40/CacheManager.cs:162-166, used by every remove subscription. `Bus.Dispatch` decodes the payload's bytes as UTF-8, so `Bus.InvalidationEvictsEverywhere`, `Bus.WriteThenDeliverInvalidates` and `Bus.LastInvalidationWins` hold for every key through `Utf8.DecodeEncode`. For the code as written they hold for ASCII keys (`Bus.AsciiKeyRecovered`) and fail for "é" (`Bus.NonAsciiKeyMissed`).
