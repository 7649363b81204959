/** The Redis server the remote cacher talks to, reduced to the commands
    CacheSleeve issues.  Its state is a `Db` value: a map from key to a
    string value or a list of strings, and a map from key to the seconds it
    has left to live.  `reachable` says whether the connection works; while
    it is down every command throws and changes nothing.  Published messages
    are appended to `log`. */
module RedisStore {
  import opened Wrappers
  import opened CacheTypes
  import Glob

  datatype Entry = Scalar(v: Value) | List(items: seq<string>)

  /** A remaining time to live: Redis reports no expiry rather than zero. */
  type Pos = n: int | n > 0 witness 1

  datatype Store = Store(data: map<string, Entry>, ttl: map<string, Pos>)

  /** Only a key that exists has a time to live. */
  type Db = s: Store | s.ttl.Keys <= s.data.Keys witness Store(map[], map[])

  datatype Message = Message(channel: string, payload: string)

  /** Redis deletes a list when its last element goes, so a stored list is
      never empty. */
  predicate NoEmptyLists(db: Db) {
    forall k :: k in db.data && db.data[k].List? ==> db.data[k].items != []
  }

  predicate HoldsScalar(db: Db, k: string) {
    k in db.data && db.data[k].Scalar?
  }

  predicate HoldsList(db: Db, k: string) {
    k in db.data && db.data[k].List?
  }

  /** `LRANGE k 0 -1`: the list at `k`, or nothing when `k` is absent. */
  function Items(db: Db, k: string): seq<string> {
    if HoldsList(db, k) then db.data[k].items else []
  }

  /** `TTL k` as the client reports it: null for a missing key or a key with
      no expiry. */
  function TtlOf(db: Db, k: string): Option<Pos> {
    if k in db.data && k in db.ttl then Some(db.ttl[k]) else None
  }

  /** `SET k v`: a plain SET also discards any expiry the key had. */
  function Put(db: Db, k: string, v: Value): Db {
    Store(db.data[k := Scalar(v)], db.ttl - {k})
  }

  /** `DEL k1 k2 ...` */
  function DelAll(db: Db, ks: set<string>): Db {
    Store(db.data - ks, db.ttl - ks)
  }

  /** The keys of a sequence, as a set. */
  function Elements(ks: seq<string>): set<string> {
    set k | k in ks
  }

  lemma ElementsAppend(a: seq<string>, b: seq<string>)
    ensures Elements(a + b) == Elements(a) + Elements(b)
  {
  }

  lemma DelAllTwice(db: Db, a: set<string>, b: set<string>)
    ensures DelAll(DelAll(db, a), b) == DelAll(db, a + b)
  {
  }

  function Del(db: Db, k: string): Db {
    DelAll(db, {k})
  }

  /** `DEL` of a missing key changes nothing. */
  lemma DelMissing(db: Db, k: string)
    requires k !in db.data
    ensures Del(db, k) == db
  {
  }

  /** `EXPIRE k secs`: no effect on a missing key; a timeout that is not
      positive deletes the key. */
  function Expire(db: Db, k: string, secs: int): Db {
    if k !in db.data then db
    else if secs <= 0 then Del(db, k)
    else Store(db.data, db.ttl[k := secs])
  }

  /** `RPUSH k item` on a key that is not a string. */
  function Push(db: Db, k: string, item: string): Db
    requires !HoldsScalar(db, k)
  {
    Store(db.data[k := List(Items(db, k) + [item])], db.ttl)
  }

  /** What is left after `dt` seconds: keys whose time ran out are gone, the
      others have `dt` seconds less to live. */
  function Elapse(db: Db, dt: nat): Db {
    Store(map k | k in db.data && !(k in db.ttl && db.ttl[k] <= dt) :: db.data[k],
       map k | k in db.ttl && db.ttl[k] > dt :: db.ttl[k] - dt)
  }

  class Server {
    var db: Db
    var reachable: bool
    var log: seq<Message>

    constructor (reachable: bool)
      ensures this.db == Store(map[], map[]) && this.reachable == reachable && log == []
    {
      db := Store(map[], map[]);
      this.reachable := reachable;
      log := [];
    }

    /** `GET k` */
    method StringGet(k: string) returns (r: Reply<Option<Value>>)
      ensures !reachable ==> r == Fault(Unreachable)
      ensures reachable ==> r == if HoldsList(db, k) then Fault(WrongType)
                                 else if k in db.data then Ok(Some(db.data[k].v))
                                 else Ok(None)
    {
      if !reachable {
        return Fault(Unreachable);
      }
      if HoldsList(db, k) {
        return Fault(WrongType);
      }
      r := if k in db.data then Ok(Some(db.data[k].v)) else Ok(None);
    }

    /** `SET k v` */
    method StringSet(k: string, v: Value) returns (r: Reply<bool>)
      modifies this`db
      ensures r == if reachable then Ok(true) else Fault(Unreachable)
      ensures db == if reachable then Put(old(db), k, v) else old(db)
    {
      if !reachable {
        return Fault(Unreachable);
      }
      db := Put(db, k, v);
      r := Ok(true);
    }

    /** `DEL k`: answers whether the key existed. */
    method KeyDelete(k: string) returns (r: Reply<bool>)
      modifies this`db
      ensures r == if reachable then Ok(k in old(db).data) else Fault(Unreachable)
      ensures db == if reachable then Del(old(db), k) else old(db)
    {
      if !reachable {
        return Fault(Unreachable);
      }
      r := Ok(k in db.data);
      db := Del(db, k);
    }

    /** `DEL k1 k2 ...` in one command: answers how many keys existed. */
    method KeyDeleteMany(ks: seq<string>) returns (r: Reply<nat>)
      modifies this`db
      ensures r == if reachable then Ok(|Elements(ks) * old(db).data.Keys|) else Fault(Unreachable)
      ensures db == if reachable then DelAll(old(db), Elements(ks)) else old(db)
    {
      if !reachable {
        return Fault(Unreachable);
      }
      var gone := Elements(ks);
      r := Ok(|gone * db.data.Keys|);
      db := DelAll(db, gone);
    }

    /** `EXPIRE k secs`: answers whether the key existed. */
    method KeyExpire(k: string, secs: int) returns (r: Reply<bool>)
      modifies this`db
      ensures r == if reachable then Ok(k in old(db).data) else Fault(Unreachable)
      ensures db == if reachable then Expire(old(db), k, secs) else old(db)
    {
      if !reachable {
        return Fault(Unreachable);
      }
      r := Ok(k in db.data);
      db := Expire(db, k, secs);
    }

    /** `TTL k` */
    method KeyTimeToLive(k: string) returns (r: Reply<Option<Pos>>)
      ensures r == if reachable then Ok(TtlOf(db, k)) else Fault(Unreachable)
    {
      if !reachable {
        return Fault(Unreachable);
      }
      r := Ok(TtlOf(db, k));
    }

    /** `RPUSH k item`: answers the new length of the list. */
    method ListRightPush(k: string, item: string) returns (r: Reply<nat>)
      modifies this`db
      ensures !reachable ==> r == Fault(Unreachable) && db == old(db)
      ensures reachable && HoldsScalar(old(db), k) ==> r == Fault(WrongType) && db == old(db)
      ensures reachable && !HoldsScalar(old(db), k) ==>
                r == Ok(|Items(old(db), k)| + 1) && db == Push(old(db), k, item)
    {
      if !reachable {
        return Fault(Unreachable);
      }
      if HoldsScalar(db, k) {
        return Fault(WrongType);
      }
      r := Ok(|Items(db, k)| + 1);
      db := Push(db, k, item);
    }

    /** `LLEN k` followed by `LRANGE k 0 len`, or `LRANGE k 0 -1`: the whole
        list. */
    method ListRange(k: string) returns (r: Reply<seq<string>>)
      ensures r == if !reachable then Fault(Unreachable)
                   else if HoldsScalar(db, k) then Fault(WrongType)
                   else Ok(Items(db, k))
    {
      if !reachable {
        return Fault(Unreachable);
      }
      if HoldsScalar(db, k) {
        return Fault(WrongType);
      }
      r := Ok(Items(db, k));
    }

    /** `PUBLISH channel message` */
    method Publish(channel: string, message: string) returns (r: Reply<()>)
      modifies this`log
      ensures r == if reachable then Ok(()) else Fault(Unreachable)
      ensures log == if reachable then old(log) + [Message(channel, message)] else old(log)
    {
      if !reachable {
        return Fault(Unreachable);
      }
      log := log + [Message(channel, message)];
      r := Ok(());
    }

    /** `KEYS pattern` (or the `SCAN` cursor walk): every matching key once,
        in an order the server chooses. */
    method Keys(pattern: string) returns (r: Reply<seq<string>>)
      ensures !reachable ==> r == Fault(Unreachable)
      ensures reachable ==> r.Ok? && Distinct(r.value)
      ensures reachable ==> forall k :: k in r.value <==> k in db.data && Glob.Matches(pattern, k)
    {
      if !reachable {
        return Fault(Unreachable);
      }
      var matching := set k | k in db.data && Glob.Matches(pattern, k);
      var remaining := matching;
      var found: seq<string> := [];
      while remaining != {}
        invariant remaining <= matching
        invariant Distinct(found)
        invariant forall k :: k in found <==> k in matching && k !in remaining
        decreases remaining
      {
        var k :| k in remaining;
        found := found + [k];
        remaining := remaining - {k};
      }
      r := Ok(found);
    }

    /** Time passes on the server: keys whose time to live runs out vanish. */
    method Tick(dt: nat)
      modifies this`db
      ensures db == Elapse(old(db), dt)
    {
      db := Elapse(db, dt);
    }
  }
}
