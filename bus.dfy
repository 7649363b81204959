/** The invalidation bus: the two pattern subscriptions that Init makes in
    CacheSleeve/CacheManager.cs, CacheSleeve.NET40/CacheManager.cs and
    CacheSleeve/Manager.cs, and their handlers, which act on the local
    cacher of the process that receives the message.  Delivery is an
    explicit step: a message in the server's log reaches a process when
    `Deliver` runs. */
module Bus {
  import opened Wrappers
  import opened CacheTypes
  import opened KeyCodec
  import opened RedisStore
  import opened LocalCache
  import opened HybridSpec
  import Glob
  import Utf8

  const RemovePrefix: string := "cacheSleeve.remove."
  const FlushPrefix: string := "cacheSleeve.flush"

  /** The two subscription patterns, in the order Init makes them. */
  const RemovePattern: string := RemovePrefix + "*"
  const FlushPattern: string := FlushPrefix + "*"

  /** What a handler does to the local cacher. */
  datatype Action = RemoveLocal(key: string) | FlushLocal

  /** The bytes a subscriber receives: the publisher sends the UTF-8
      encoding of the payload. */
  function Wire(payload: string): seq<byte> {
    Utf8.Encode(payload)
  }

  /** The handler a message reaches, if any: the remove handler removes
      the key the payload's bytes decode to, the flush handler empties the
      local tier.  The bytes are decoded as UTF-8, which is what the
      handlers' `GetString` is meant to do (see `GetString` below for what
      it does as written). */
  function Dispatch(m: Message): (r: Option<Action>)
    ensures r.Some? && r.value.RemoveLocal? ==> r.value.key == m.payload
  {
    Utf8.DecodeEncode(m.payload);
    if Glob.Matches(RemovePattern, m.channel) then Some(RemoveLocal(Utf8.Decode(Wire(m.payload))))
    else if Glob.Matches(FlushPattern, m.channel) then Some(FlushLocal)
    else None
  }

  /** Each byte read as the ISO-8859-1 character of the same code. */
  function Latin1(bytes: seq<byte>): (s: string)
    ensures |s| == |bytes| && forall i :: 0 <= i < |bytes| ==> s[i] as int == bytes[i] as int
  {
    seq(|bytes|, i requires 0 <= i < |bytes| => bytes[i] as int as char)
  }

  /** The handlers' `GetString` as written: it converts the bytes from
      ISO-8859-1 to UTF-8, then decodes as many bytes of the converted
      buffer as the message had. */
  function GetString(bytes: seq<byte>): (r: string)
    ensures |r| <= |bytes|
  {
    var buffer := Utf8.Encode(Latin1(bytes));
    Utf8.Decode(buffer[..|bytes|])
  }

  /** The local cache of a process once it has handled `m`: a handler only
      drops slots, and the flush handler drops them all. */
  function Handle(prefix: string, items: Items, m: Message): (r: Items)
    ensures forall d :: d in r ==> d in items && r[d] == items[d]
    ensures Dispatch(m) == Some(FlushLocal) ==> r == map[]
  {
    match Dispatch(m)
    case None => items
    case Some(RemoveLocal(k)) => Removed(prefix, items, k)
    case Some(FlushLocal) => map[]
  }

  /** Handling several messages in the order they were published. */
  function HandleAll(prefix: string, items: Items, log: seq<Message>): Items
    decreases |log|
  {
    if log == [] then items
    else Handle(prefix, HandleAll(prefix, items, log[..|log| - 1]), log[|log| - 1])
  }

  /** Runs the handler `m` reaches on the local cacher of one process. */
  method Deliver(local: HttpContextCacher, m: Message)
    requires local.store.Valid()
    modifies local.store`items
    ensures local.store.Valid()
    ensures local.store.items == Handle(local.prefix, old(local.store.items), m)
  {
    match Dispatch(m)
    case None =>
    case Some(RemoveLocal(k)) =>
      var _ := local.Remove(k);
    case Some(FlushLocal) =>
      local.FlushAll();
  }

  // ---------------------------------------------------------------------
  // Properties.
  // ---------------------------------------------------------------------

  lemma PrefixesLiteral()
    ensures Glob.Literal(RemovePrefix) && Glob.Literal(FlushPrefix)
  {
    forall i | 0 <= i < |RemovePrefix| ensures RemovePrefix[i] !in "*?[\\" {
    }
    forall i | 0 <= i < |FlushPrefix| ensures FlushPrefix[i] !in "*?[\\" {
    }
  }

  /** The remove handler runs exactly for channels starting with
      "cacheSleeve.remove.", the flush handler exactly for channels starting
      with "cacheSleeve.flush", and no channel reaches both. */
  lemma DispatchExactly(m: Message)
    ensures Dispatch(m) == Some(RemoveLocal(m.payload)) <==> StartsWith(m.channel, RemovePrefix)
    ensures Dispatch(m) == Some(FlushLocal) <==> StartsWith(m.channel, FlushPrefix)
    ensures !(StartsWith(m.channel, RemovePrefix) && StartsWith(m.channel, FlushPrefix))
  {
    Utf8.DecodeEncode(m.payload);
    PrefixesLiteral();
    Glob.LiteralThenStar(RemovePrefix, m.channel);
    Glob.LiteralThenStar(FlushPrefix, m.channel);
    // The two prefixes part at their thirteenth character.
    assert RemovePrefix[12] == 'r' && FlushPrefix[12] == 'f';
  }

  /** The message a write or remove of `key` publishes reaches the remove
      handler with `key`; the flush message reaches the flush handler. */
  lemma PublishedMessagesDispatch(key: string)
    ensures Dispatch(Invalidation(key)) == Some(RemoveLocal(key))
    ensures Dispatch(Message(FlushChannel, "")) == Some(FlushLocal)
  {
    DispatchExactly(Invalidation(key));
    DispatchExactly(Message(FlushChannel, ""));
    assert RemoveChannel(key)[..|RemovePrefix|] == RemovePrefix;
    assert FlushChannel[..|FlushPrefix|] == FlushPrefix;
  }

  /** Every process that handles the invalidation of `key` drops its local
      copy of it, whatever it held. */
  lemma InvalidationEvictsEverywhere(prefix: string, items: Items, key: string)
    ensures AddPrefix(prefix, Some(key)) !in Handle(prefix, items, Invalidation(key))
  {
    PublishedMessagesDispatch(key);
  }

  /** Every process that handles the flush message ends with an empty
      local tier. */
  lemma FlushEmptiesEverywhere(prefix: string, items: Items)
    ensures Handle(prefix, items, Message(FlushChannel, "")) == map[]
  {
    PublishedMessagesDispatch("");
  }

  /** Write through the hybrid cacher, then deliver what it published:
      every process then reads the key from the remote tier, since no local
      copy of it survives. */
  lemma WriteThenDeliverInvalidates(v: RemoteSpec.Variant, prefix: string, up: bool, w: World, key: string,
                                    value: Value, expiresIn: Option<int>, parent: Option<string>,
                                    other: Items, want: Want)
    requires WriteStep(v, prefix, up, w, key, value, expiresIn, parent).reply == Ok(true)
    ensures var o := WriteStep(v, prefix, up, w, key, value, expiresIn, parent);
            var delivered := o.world.log[|o.world.log| - 1];
            delivered == Invalidation(key)
            && Read(prefix, Handle(prefix, other, delivered), key, want).reply == Ok(None)
  {
    WriteAnswersTrue(v, prefix, up, w, key, value, expiresIn, parent);
    InvalidationEvictsEverywhere(prefix, other, key);
  }

  /** Handling a log whose last message invalidates `key` leaves no local
      copy of `key`, whatever came before. */
  lemma LastInvalidationWins(prefix: string, items: Items, log: seq<Message>, key: string)
    requires log != [] && log[|log| - 1] == Invalidation(key)
    ensures AddPrefix(prefix, Some(key)) !in HandleAll(prefix, items, log)
  {
    InvalidationEvictsEverywhere(prefix, HandleAll(prefix, items, log[..|log| - 1]), key);
  }

  /** A message nobody subscribed to changes nothing. */
  lemma OtherChannelsIgnored(prefix: string, items: Items, m: Message)
    requires !StartsWith(m.channel, RemovePrefix) && !StartsWith(m.channel, FlushPrefix)
    ensures Handle(prefix, items, m) == items
  {
    Utf8.DecodeEncode(m.payload);
    DispatchExactly(m);
  }

  /** `GetString` as written gives back an ASCII key unchanged. */
  lemma AsciiKeyRecovered(key: string)
    requires Utf8.Ascii(key)
    ensures GetString(Wire(key)) == key
  {
    Utf8.EncodeAscii(key);
    assert Latin1(Wire(key)) == key;
    Utf8.DecodeEncode(key);
    assert Utf8.Encode(key)[..|key|] == Utf8.Encode(key);
  }

  /** `GetString` as written turns the key "é" (bytes C3 A9) into "Ã": the
      two bytes become the characters U+00C3 U+00A9, their UTF-8 encoding
      C3 83 C2 A9 is cut back to two bytes, C3 83.  A process holding "é"
      locally keeps it after handling the invalidation of "é", whereas the
      UTF-8 reading in `Dispatch` drops it. */
  lemma NonAsciiKeyMissed(prefix: string, it: Item)
    requires it.dependsOn.None?
    ensures GetString(Wire("é")) == "Ã"
    ensures var items := map[AddPrefix(prefix, Some("é")) := it];
            AddPrefix(prefix, Some("é")) in Removed(prefix, items, GetString(Wire("é")))
            && AddPrefix(prefix, Some("é")) !in Handle(prefix, items, Invalidation("é"))
  {
    Utf8.EAcute();
    assert Latin1([0xC3, 0xA9]) == "Ã©";
    Utf8.DecodeCharThen('Ã', Utf8.Encode("©"));
    assert Utf8.Encode("Ã©") == [0xC3, 0x83, 0xC2, 0xA9];
    assert [0xC3, 0x83] == Utf8.Encode("Ã");
    Utf8.DecodeEncode("Ã");
    var pk := AddPrefix(prefix, Some("é"));
    assert AddPrefix(prefix, Some("Ã")) != pk by {
      assert AddPrefix(prefix, Some("Ã"))[|prefix|] == 'Ã';
      assert pk[|prefix|] == 'é';
    }
    InvalidationEvictsEverywhere(prefix, map[pk := it], "é");
  }
}
