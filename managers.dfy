/** The settings singletons: CacheManager (CacheSleeve/CacheManager.cs),
    its .NET 4.0 twin (CacheSleeve.NET40/CacheManager.cs), the older
    Manager (CacheSleeve/Manager.cs) and the oldest CacheSleeve
    (CacheSleeve/CacheSleeve.cs).  Each one holds the configuration and,
    once initialised, the two cachers and the two subscriptions of the bus.
    The Redis connection is the `Server` handed to Init, and the ASP.NET
    cache of the process is the `AspNetCache` handed to it. */
module Managers {
  import opened Wrappers
  import opened CacheTypes
  import opened KeyCodec
  import opened RedisStore
  import opened LocalCache
  import Glob
  import Bus
  import RemoteCache
  import RemoteCacheNet40

  // ---------------------------------------------------------------------
  // The re-initialisation guard.
  // ---------------------------------------------------------------------

  /** CacheManager and Manager refuse a second initialisation unless an
      xunit assembly is loaded; CacheSleeve refuses it always. */
  datatype ReinitPolicy = RefuseOutsideTests | RefuseAlways

  /** What the guard at the top of an initialisation answers, given whether
      the singleton was set up before and whether it runs under xunit. */
  function InitGuard(policy: ReinitPolicy, setup: bool, underTest: bool): Reply<()> {
    if setup && (policy == RefuseAlways || !underTest) then Fault(InvalidOperation) else Ok(())
  }

  /** The answers to `n` successive initialisations starting from `setup`;
      the flag is set whenever the guard lets a call through. */
  function Attempts(policy: ReinitPolicy, underTest: bool, setup: bool, n: nat): (rs: seq<Reply<()>>)
    ensures |rs| == n
    decreases n
  {
    if n == 0 then []
    else
      var r := InitGuard(policy, setup, underTest);
      [r] + Attempts(policy, underTest, setup || r.Ok?, n - 1)
  }

  /** Once set up, every further initialisation is let through exactly when
      the policy tolerates re-initialisation under xunit and xunit is loaded;
      otherwise it throws `InvalidOperationException`. */
  lemma {:induction false} AttemptsAfterSetup(policy: ReinitPolicy, underTest: bool, n: nat)
    ensures forall i :: 0 <= i < n ==>
              (Attempts(policy, underTest, true, n)[i].Ok? <==> policy == RefuseOutsideTests && underTest)
              && (Attempts(policy, underTest, true, n)[i].Fault? ==> Attempts(policy, underTest, true, n)[i].error == InvalidOperation)
  {
    if n > 0 {
      AttemptsAfterSetup(policy, underTest, n - 1);
    }
  }

  /** On a fresh singleton the first initialisation always succeeds; outside
      tests (or always, for CacheSleeve) it is the only one that does. */
  lemma OnlyFirstInitSucceeds(policy: ReinitPolicy, underTest: bool, n: nat)
    ensures forall i :: 0 <= i < n ==>
              (Attempts(policy, underTest, false, n)[i].Ok? <==> i == 0 || (policy == RefuseOutsideTests && underTest))
  {
    if n > 0 {
      AttemptsAfterSetup(policy, underTest, n - 1);
      assert Attempts(policy, underTest, false, n)[1..] == Attempts(policy, underTest, true, n - 1);
    }
  }

  // ---------------------------------------------------------------------
  // CacheSleeve/CacheManager.cs
  // ---------------------------------------------------------------------

  class CacheManager {
    /** Whether an xunit assembly is loaded in the process. */
    const underTest: bool
    var setup: bool
    var redisHost: string
    var redisPort: int
    var redisPassword: Option<string>
    var redisDb: int
    var keyPrefix: string
    var remoteCacher: RemoteCache.RedisCacher?
    var localCacher: HttpContextCacher?
    var connection: Server?
    /** The channel patterns subscribed on `connection`. */
    var subscriptions: seq<string>

    constructor (underTest: bool)
      ensures this.underTest == underTest && !setup
      ensures remoteCacher == null && localCacher == null && connection == null && subscriptions == []
    {
      this.underTest := underTest;
      setup := false;
      redisHost := "";
      redisPort := 0;
      redisPassword := None;
      redisDb := 0;
      keyPrefix := "";
      remoteCacher := null;
      localCacher := null;
      connection := null;
      subscriptions := [];
    }

    /** Initialised: both cachers use the current prefix, the remote one
        talks over the connection, and both subscriptions are in place. */
    ghost predicate Ready()
      reads this
    {
      setup && remoteCacher != null && localCacher != null && connection != null
      && remoteCacher.server == connection && remoteCacher.prefix == keyPrefix
      && localCacher.prefix == keyPrefix
      && subscriptions == [Bus.RemovePattern, Bus.FlushPattern]
    }

    method PopulateSettings(host: string, port: int, password: Option<string>, db: int, prefix: string,
                            server: Server, store: AspNetCache) returns (r: Reply<()>)
      modifies this
      ensures r == InitGuard(RefuseOutsideTests, old(setup), underTest)
      ensures r.Fault? ==> unchanged(this)
      ensures r.Ok? ==> setup && redisHost == host && redisPort == port && redisPassword == password
                        && redisDb == db && keyPrefix == prefix
                        && remoteCacher != null && fresh(remoteCacher)
                        && remoteCacher.server == server && remoteCacher.prefix == prefix
                        && localCacher != null && fresh(localCacher)
                        && localCacher.store == store && localCacher.prefix == prefix
                        && connection == old(connection) && subscriptions == old(subscriptions)
    {
      if setup && !underTest {
        return Fault(InvalidOperation);
      }
      setup := true;
      redisHost := host;
      redisPort := port;
      redisPassword := password;
      keyPrefix := prefix;
      redisDb := db;
      remoteCacher := new RemoteCache.RedisCacher(server, prefix);
      localCacher := new HttpContextCacher(store, prefix);
      r := Ok(());
    }

    /** Init (and InitAsync, which differs only in awaiting the connection):
        the settings, then the connection, then the two subscriptions. */
    method Init(host: string, port: int, password: Option<string>, db: int, prefix: string,
                server: Server, store: AspNetCache) returns (r: Reply<()>)
      modifies this
      ensures r == InitGuard(RefuseOutsideTests, old(setup), underTest)
      ensures r.Fault? ==> unchanged(this)
      ensures r.Ok? ==> Ready() && keyPrefix == prefix && redisHost == host && redisPort == port
                        && redisPassword == password && redisDb == db
                        && connection == server && localCacher.store == store
                        && fresh(remoteCacher) && fresh(localCacher)
    {
      r := PopulateSettings(host, port, password, db, prefix, server, store);
      if r.Fault? {
        return;
      }
      connection := server;
      subscriptions := [Bus.RemovePattern, Bus.FlushPattern];
    }

    /** A message published on the server reaches the subscriptions, whose
        handlers act on the local cacher. */
    method Receive(m: Message)
      requires Ready() && localCacher.store.Valid()
      modifies localCacher.store`items
      ensures localCacher.store.Valid()
      ensures localCacher.store.items == Bus.Handle(keyPrefix, old(localCacher.store.items), m)
    {
      Bus.Deliver(localCacher, m);
    }

    /** The keys of the server matching the prefix followed by `*`. */
    method GetAllKeys() returns (r: Reply<seq<string>>)
      requires Ready()
      ensures r.Fault? <==> !connection.reachable
      ensures r.Ok? ==> Distinct(r.value)
      ensures r.Ok? ==> forall k :: k in r.value <==> k in connection.db.data && Glob.Matches(AddPrefix(keyPrefix, Some("*")), k)
    {
      r := connection.Keys(AddPrefix(keyPrefix, Some("*")));
    }
  }

  // ---------------------------------------------------------------------
  // CacheSleeve.NET40/CacheManager.cs
  // ---------------------------------------------------------------------

  /** The connection options the host/port overload of Init builds. */
  datatype Configuration = Configuration(host: string, port: int, password: Option<string>,
                                         allowAdmin: bool, abortOnConnectFail: bool, connectTimeout: int)

  /** One endpoint of the connection: whether it is a replica, and its
      server. */
  datatype Endpoint = Endpoint(isSlave: bool, server: Server)

  /** The pattern the key listing scans for: the given pattern, or `*`,
      behind the prefix. */
  function ScanPattern(prefix: string, pattern: Option<string>): (r: string)
    ensures StartsWith(r, prefix)
    ensures pattern.None? ==> r == prefix + "*"
  {
    AddPrefix(prefix, if pattern.Some? then pattern else Some("*"))
  }

  /** `k` is held by a primary endpoint and matches the scan pattern. */
  ghost predicate OnPrimary(endpoints: seq<Endpoint>, glob: string, k: string)
    reads set i | 0 <= i < |endpoints| :: endpoints[i].server
  {
    exists i :: 0 <= i < |endpoints| && !endpoints[i].isSlave
                && k in endpoints[i].server.db.data && Glob.Matches(glob, k)
  }

  /** Some primary endpoint cannot be reached. */
  ghost predicate PrimaryDown(endpoints: seq<Endpoint>)
    reads set i | 0 <= i < |endpoints| :: endpoints[i].server
  {
    exists i :: 0 <= i < |endpoints| && !endpoints[i].isSlave && !endpoints[i].server.reachable
  }

  /** With a prefix free of glob characters, a scan with the default pattern
      finds exactly the keys that carry the prefix. */
  lemma DefaultScanFindsPrefixed(prefix: string, k: string)
    requires Glob.Literal(prefix)
    ensures Glob.Matches(ScanPattern(prefix, None), k) <==> StartsWith(k, prefix)
  {
    Glob.LiteralThenStar(prefix, k);
  }

  class CacheManager40 {
    const underTest: bool
    var setup: bool
    var configuration: Option<Configuration>
    var redisDb: int
    var keyPrefix: string
    var remoteCacher: RemoteCacheNet40.RedisCacher?
    var localCacher: HttpContextCacher?
    var connection: Server?
    var subscriptions: seq<string>

    constructor (underTest: bool)
      ensures this.underTest == underTest && !setup
      ensures remoteCacher == null && localCacher == null && connection == null && subscriptions == []
    {
      this.underTest := underTest;
      setup := false;
      configuration := None;
      redisDb := 0;
      keyPrefix := "";
      remoteCacher := null;
      localCacher := null;
      connection := null;
      subscriptions := [];
    }

    ghost predicate Ready()
      reads this
    {
      setup && remoteCacher != null && localCacher != null && connection != null
      && remoteCacher.core.server == connection && remoteCacher.core.prefix == keyPrefix
      && localCacher.prefix == keyPrefix
      && subscriptions == [Bus.RemovePattern, Bus.FlushPattern]
    }

    method PopulateSettings(config: Configuration, db: int, prefix: string, server: Server, store: AspNetCache)
      returns (r: Reply<()>)
      modifies this
      ensures r == InitGuard(RefuseOutsideTests, old(setup), underTest)
      ensures r.Fault? ==> unchanged(this)
      ensures r.Ok? ==> setup && configuration == Some(config) && redisDb == db && keyPrefix == prefix
                        && remoteCacher != null && fresh(remoteCacher) && fresh(remoteCacher.core)
                        && remoteCacher.core.server == server && remoteCacher.core.prefix == prefix
                        && localCacher != null && fresh(localCacher)
                        && localCacher.store == store && localCacher.prefix == prefix
                        && connection == old(connection) && subscriptions == old(subscriptions)
    {
      if setup && !underTest {
        return Fault(InvalidOperation);
      }
      setup := true;
      configuration := Some(config);
      keyPrefix := prefix;
      redisDb := db;
      var core := new RemoteCache.RedisCacher(server, prefix);
      remoteCacher := new RemoteCacheNet40.RedisCacher(core);
      localCacher := new HttpContextCacher(store, prefix);
      r := Ok(());
    }

    /** Init from connection options. */
    method InitWith(config: Configuration, db: int, prefix: string, server: Server, store: AspNetCache)
      returns (r: Reply<()>)
      modifies this
      ensures r == InitGuard(RefuseOutsideTests, old(setup), underTest)
      ensures r.Fault? ==> unchanged(this)
      ensures r.Ok? ==> Ready() && configuration == Some(config) && redisDb == db && keyPrefix == prefix
                        && connection == server && localCacher.store == store
                        && fresh(remoteCacher) && fresh(localCacher)
    {
      r := PopulateSettings(config, db, prefix, server, store);
      if r.Fault? {
        return;
      }
      connection := server;
      subscriptions := [Bus.RemovePattern, Bus.FlushPattern];
    }

    /** Init from host and port: admin commands allowed, no abort when the
        first connection attempt fails, the given connect timeout. */
    method Init(host: string, port: int, password: Option<string>, db: int, prefix: string, timeoutMilli: int,
                server: Server, store: AspNetCache) returns (r: Reply<()>)
      modifies this
      ensures r == InitGuard(RefuseOutsideTests, old(setup), underTest)
      ensures r.Fault? ==> unchanged(this)
      ensures r.Ok? ==> Ready() && configuration == Some(Configuration(host, port, password, true, false, timeoutMilli))
                        && redisDb == db && keyPrefix == prefix && connection == server && localCacher.store == store
                        && fresh(remoteCacher) && fresh(localCacher)
    {
      var config := Configuration(host, port, password, true, false, timeoutMilli);
      r := InitWith(config, db, prefix, server, store);
    }

    method Receive(m: Message)
      requires Ready() && localCacher.store.Valid()
      modifies localCacher.store`items
      ensures localCacher.store.Valid()
      ensures localCacher.store.items == Bus.Handle(keyPrefix, old(localCacher.store.items), m)
    {
      Bus.Deliver(localCacher, m);
    }

    /** The keys of every primary endpoint matching the prefixed pattern,
        endpoint after endpoint; replicas are skipped.  A primary that cannot
        be reached makes the listing throw. */
    method GetAllKeys(endpoints: seq<Endpoint>, pattern: Option<string>) returns (r: Reply<seq<string>>)
      ensures r.Fault? <==> PrimaryDown(endpoints)
      ensures r.Ok? ==> forall k :: k in r.value <==> OnPrimary(endpoints, ScanPattern(keyPrefix, pattern), k)
    {
      var glob := ScanPattern(keyPrefix, pattern);
      var keys: seq<string> := [];
      for i := 0 to |endpoints|
        invariant forall j :: 0 <= j < i && !endpoints[j].isSlave ==> endpoints[j].server.reachable
        invariant forall k :: k in keys <==>
                    exists j :: 0 <= j < i && !endpoints[j].isSlave
                                && k in endpoints[j].server.db.data && Glob.Matches(glob, k)
      {
        if !endpoints[i].isSlave {
          var found :- endpoints[i].server.Keys(glob);
          keys := keys + found;
        }
      }
      r := Ok(keys);
    }
  }

  // ---------------------------------------------------------------------
  // CacheSleeve/Manager.cs
  // ---------------------------------------------------------------------

  class Manager {
    const underTest: bool
    var setup: bool
    var redisHost: string
    var redisPort: int
    var redisPassword: Option<string>
    var keyPrefix: string
    var remoteCacher: RemoteCache.RedisCacher?
    var localCacher: HttpContextCacher?
    var connection: Server?
    var subscriptions: seq<string>

    constructor (underTest: bool)
      ensures this.underTest == underTest && !setup
      ensures remoteCacher == null && localCacher == null && connection == null && subscriptions == []
    {
      this.underTest := underTest;
      setup := false;
      redisHost := "";
      redisPort := 0;
      redisPassword := None;
      keyPrefix := "";
      remoteCacher := null;
      localCacher := null;
      connection := null;
      subscriptions := [];
    }

    /** Initialised: a local cacher and both subscriptions on the
        subscriber connection.  The cachers belong to the CacheManager
        settings, not to this singleton (see Init). */
    ghost predicate Ready()
      reads this
    {
      setup && localCacher != null && connection != null
      && subscriptions == [Bus.RemovePattern, Bus.FlushPattern]
    }

    /** The guard, the settings as given, then cachers built by their
        parameterless constructors, which bind the CacheManager settings
        singleton: they use its key prefix and its Redis connection (none
        before CacheManager is initialised, so the remote cacher cannot
        reach Redis).  The subscriber connection is the one this Init opens
        to its own host, and holds the two pattern subscriptions. */
    method Init(host: string, port: int, password: Option<string>, prefix: string,
                server: Server, store: AspNetCache, settings: CacheManager) returns (r: Reply<()>)
      modifies this
      ensures r == InitGuard(RefuseOutsideTests, old(setup), underTest)
      ensures r.Fault? ==> unchanged(this)
      ensures r.Ok? ==> Ready() && redisHost == host && redisPort == port && redisPassword == password
                        && keyPrefix == prefix && connection == server
                        && fresh(localCacher) && localCacher.store == store && localCacher.prefix == settings.keyPrefix
                        && (remoteCacher == null <==> settings.connection == null)
                        && (remoteCacher != null ==> fresh(remoteCacher) && remoteCacher.server == settings.connection
                                                     && remoteCacher.prefix == settings.keyPrefix)
    {
      if setup && !underTest {
        return Fault(InvalidOperation);
      }
      setup := true;
      redisHost := host;
      redisPort := port;
      redisPassword := password;
      keyPrefix := prefix;
      if settings.connection != null {
        remoteCacher := new RemoteCache.RedisCacher(settings.connection, settings.keyPrefix);
      } else {
        remoteCacher := null;
      }
      localCacher := new HttpContextCacher(store, settings.keyPrefix);
      connection := server;
      subscriptions := [Bus.RemovePattern, Bus.FlushPattern];
      r := Ok(());
    }

    /** The handlers act on the local cacher, under the CacheManager
        prefix it was built with. */
    method Receive(m: Message)
      requires Ready() && localCacher.store.Valid()
      modifies localCacher.store`items
      ensures localCacher.store.Valid()
      ensures localCacher.store.items == Bus.Handle(localCacher.prefix, old(localCacher.store.items), m)
    {
      Bus.Deliver(localCacher, m);
    }
  }

  // ---------------------------------------------------------------------
  // CacheSleeve/CacheSleeve.cs
  // ---------------------------------------------------------------------

  /** The oldest settings singleton: configuration only, and no second
      initialisation, test harness or not. */
  class CacheSleeve {
    var setup: bool
    var redisHost: string
    var redisPort: int
    var redisPassword: Option<string>
    var keyPrefix: string

    constructor ()
      ensures !setup
    {
      setup := false;
      redisHost := "";
      redisPort := 0;
      redisPassword := None;
      keyPrefix := "";
    }

    method Init(host: string, port: int, password: Option<string>, prefix: string) returns (r: Reply<()>)
      modifies this
      ensures r == InitGuard(RefuseAlways, old(setup), false)
      ensures r.Fault? ==> setup && redisHost == old(redisHost) && redisPort == old(redisPort)
                           && redisPassword == old(redisPassword) && keyPrefix == old(keyPrefix)
      ensures r.Ok? ==> setup && redisHost == host && redisPort == port && redisPassword == password
                        && keyPrefix == prefix
    {
      if setup {
        return Fault(InvalidOperation);
      }
      setup := true;
      redisHost := host;
      redisPort := port;
      redisPassword := password;
      keyPrefix := prefix;
      r := Ok(());
    }
  }
}
