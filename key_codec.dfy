/** The key codec shared by every settings singleton (CacheManager, Manager,
    CacheSleeve): prefixing a caller's key with `KeyPrefix`, stripping it
    off again, and `string.IsNullOrWhiteSpace`, which the dependency code
    uses as its guard. */
module KeyCodec {
  import opened Wrappers

  predicate StartsWith(s: string, p: string) {
    |p| <= |s| && s[..|p|] == p
  }

  /** `string.Format("{0}{1}", KeyPrefix, key)`: a null key formats as "".
      The name starts with the prefix and goes on with the key. */
  function AddPrefix(prefix: string, key: Option<string>): (r: string)
    ensures StartsWith(r, prefix)
    ensures r[|prefix|..] == if key.Some? then key.value else ""
  {
    match key
    case None => prefix
    case Some(k) => prefix + k
  }

  /** The characters of .NET's `char.IsWhiteSpace`. */
  predicate IsWhiteSpace(c: char) {
    ('\U{9}' <= c <= '\U{D}') || c == ' ' || c == '\U{85}' || c == '\U{A0}' || c == '\U{1680}'
    || ('\U{2000}' <= c <= '\U{200A}') || c == '\U{2028}' || c == '\U{2029}' || c == '\U{202F}'
    || c == '\U{205F}' || c == '\U{3000}'
  }

  /** `string.IsNullOrWhiteSpace`: null, empty and all-blank strings are
      blank; a string with any other character is not. */
  predicate IsNullOrWhiteSpace(s: Option<string>)
    ensures s.None? || s.value == "" ==> IsNullOrWhiteSpace(s)
    ensures s.Some? && (exists i :: 0 <= i < |s.value| && !IsWhiteSpace(s.value[i])) ==> !IsNullOrWhiteSpace(s)
  {
    s.None? || forall i :: 0 <= i < |s.value| ==> IsWhiteSpace(s.value[i])
  }

  // ---------------------------------------------------------------------
  // StripPrefix as written: `new Regex("^" + KeyPrefix).Replace(key, "")`.
  // The prefix is not escaped, so each '.' in it is the regex wildcard,
  // which matches any character except '\n'.
  // ---------------------------------------------------------------------

  /** The prefix holds no regex metacharacter other than '.', so the pattern
      `^prefix` matches a fixed number of characters, one per prefix char. */
  predicate RegexPlain(prefix: string) {
    forall i :: 0 <= i < |prefix| ==> prefix[i] !in "\\*+?|{[()^$"
  }

  /** `^prefix` matches at the start of `s`. */
  predicate RegexMatchesAtStart(prefix: string, s: string) {
    |prefix| <= |s|
    && forall i :: 0 <= i < |prefix| ==>
         if prefix[i] == '.' then s[i] != '\n' else s[i] == prefix[i]
  }

  /** StripPrefix as the source writes it (with the null guard of
      CacheManager.cs and Manager.cs). */
  function StripPrefixAsWritten(prefix: string, key: Option<string>): (r: Option<string>)
    requires RegexPlain(prefix)
    ensures key.None? <==> r.None?
    ensures r.Some? ==> |r.value| <= |key.value| && r.value == key.value[|key.value| - |r.value|..]
    ensures key.Some? && !RegexMatchesAtStart(prefix, key.value) ==> r == key
    ensures key.Some? && RegexMatchesAtStart(prefix, key.value) ==> |r.value| + |prefix| == |key.value|
  {
    match key
    case None => None
    case Some(k) => if RegexMatchesAtStart(prefix, k) then Some(k[|prefix|..]) else Some(k)
  }

  /** The intended StripPrefix: remove the prefix taken literally.  This is
      the one the rest of the model uses. */
  function StripPrefix(prefix: string, key: Option<string>): (r: Option<string>)
    ensures key.None? <==> r.None?
    ensures key.Some? && StartsWith(key.value, prefix) ==> AddPrefix(prefix, r) == key.value
    ensures key.Some? && !StartsWith(key.value, prefix) ==> r == key
  {
    match key
    case None => None
    case Some(k) => if StartsWith(k, prefix) then Some(k[|prefix|..]) else Some(k)
  }

  /** StripPrefix of CacheSleeve.cs: no null guard, so `Regex.Replace`
      throws on a null key. */
  function StripPrefixUnguarded(prefix: string, key: Option<string>): (r: Reply<string>)
    ensures key.None? <==> r == Fault(ArgumentNull)
    ensures r.Ok? ==> Some(r.value) == StripPrefix(prefix, key)
  {
    match key
    case None => Fault(ArgumentNull)
    case Some(k) => Ok(StripPrefix(prefix, key).value)
  }

  // ---------------------------------------------------------------------
  // Properties of the codec.
  // ---------------------------------------------------------------------

  /** Stripping undoes prefixing; a null key comes back as the empty name. */
  lemma StripAddPrefix(prefix: string, key: Option<string>)
    ensures StripPrefix(prefix, Some(AddPrefix(prefix, key))) == Some(if key.Some? then key.value else "")
  {
    var s := AddPrefix(prefix, key);
    assert s[..|prefix|] == prefix;
  }

  /** Prefixing is injective, so distinct keys never share a stored name. */
  lemma AddPrefixInjective(prefix: string, a: string, b: string)
    requires AddPrefix(prefix, Some(a)) == AddPrefix(prefix, Some(b))
    ensures a == b
  {
    assert a == (prefix + a)[|prefix|..];
    assert b == (prefix + b)[|prefix|..];
  }

  /** The as-written StripPrefix undoes AddPrefix too, for a prefix without
      regex quantifiers. */
  lemma StripAsWrittenAddPrefix(prefix: string, key: string)
    requires RegexPlain(prefix)
    ensures StripPrefixAsWritten(prefix, Some(AddPrefix(prefix, Some(key)))) == Some(key)
  {
    var s := prefix + key;
    forall i | 0 <= i < |prefix|
      ensures if prefix[i] == '.' then s[i] != '\n' else s[i] == prefix[i]
    {
      assert s[i] == prefix[i];
    }
    assert RegexMatchesAtStart(prefix, s);
    assert s[|prefix|..] == key;
  }

  /** The two agree on every key that starts with the prefix literally, which
      is every key the cachers hand to StripPrefix (they built it with
      AddPrefix, or listed it by the pattern `prefix*`). */
  lemma StripAgreesOnPrefixedKeys(prefix: string, key: string)
    requires RegexPlain(prefix) && StartsWith(key, prefix)
    ensures StripPrefixAsWritten(prefix, Some(key)) == StripPrefix(prefix, Some(key))
  {
    assert key == prefix + key[|prefix|..];
    StripAsWrittenAddPrefix(prefix, key[|prefix|..]);
  }

  /** With the default prefix "cs.", the as-written StripPrefix also strips
      "csX" off a key that does not carry the prefix at all. */
  lemma StripAsWrittenOverStrips()
    ensures StripPrefixAsWritten("cs.", Some("csXkey")) == Some("key")
    ensures StripPrefix("cs.", Some("csXkey")) == Some("csXkey")
  {
    assert RegexMatchesAtStart("cs.", "csXkey");
    assert "csXkey"[..3][2] == 'X' != "cs."[2];
  }

  /** A null or empty key prefixes to a name no longer than the prefix, which
      is what the length guards of the asynchronous dependency code test. */
  lemma AddPrefixLength(prefix: string, key: Option<string>)
    ensures |AddPrefix(prefix, key)| <= |prefix| <==> (key.None? || key.value == "")
  {
  }

  /** The blank-name guard applied to a prefixed name tests the caller's key. */
  lemma BlankAfterStrip(prefix: string, key: Option<string>)
    ensures IsNullOrWhiteSpace(StripPrefix(prefix, Some(AddPrefix(prefix, key))))
       <==> IsNullOrWhiteSpace(key)
  {
    StripAddPrefix(prefix, key);
  }
}
