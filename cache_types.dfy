/** The values a cacher stores, the type a caller asks for, and the `Key`
    record that the key listings return. */
module CacheTypes {
  import opened Wrappers
  import Utf8

  type byte = Utf8.byte

  /** A cached value as the tagged variant of its runtime type.  An object is
      kept as its type name and the JSON text its serializer produces. */
  datatype Value =
    | Text(s: string)
    | Binary(bytes: seq<byte>)
    | Object(typeName: string, json: string)

  /** The type argument `T` of a `Get<T>` call. */
  datatype Want =
    | WantText                      // T is string
    | WantBytes                     // T is byte[]
    | WantObject(typeName: string)  // T is any other class

  /** `v.GetType() == typeof(T)`: the runtime type is exactly the requested one. */
  predicate HasType(v: Value, want: Want) {
    match want
    case WantText => v.Text?
    case WantBytes => v.Binary?
    case WantObject(t) => v.Object? && v.typeName == t
  }

  /** The record of CacheSleeve.Models.Key: a key name and an optional
      expiration instant (seconds on the model's clock). */
  datatype Key = Key(keyName: string, expirationDate: Option<int>)

  /** The instant `span` seconds after `now`. */
  function Deadline(now: int, span: int): int {
    now + span
  }

  /** The span from `now` until the instant `expiresAt`. */
  function Span(expiresAt: int, now: int): int {
    expiresAt - now
  }

  /** No name occurs twice. */
  predicate Distinct(s: seq<string>) {
    forall i, j :: 0 <= i < j < |s| ==> s[i] != s[j]
  }

  function Names(keys: seq<Key>): (r: seq<string>)
    ensures |r| == |keys| && forall i :: 0 <= i < |keys| ==> r[i] == keys[i].keyName
  {
    seq(|keys|, i requires 0 <= i < |keys| => keys[i].keyName)
  }

  /** The text a client reads back from a stored value: the string itself,
      the JSON text of an object, or the bytes decoded as UTF-8. */
  function AsText(v: Value): (r: string)
    ensures v.Text? ==> r == v.s
    ensures v.Object? ==> r == v.json
    ensures v.Binary? ==> |r| <= |v.bytes|
  {
    match v
    case Text(s) => s
    case Object(_, json) => json
    case Binary(b) => Utf8.Decode(b)
  }

  /** The bytes a client reads back from a stored value: the bytes
      themselves, or the UTF-8 encoding of its text, which decodes back to
      that text. */
  function AsBytes(v: Value): (r: seq<byte>)
    ensures v.Binary? ==> r == v.bytes
    ensures !v.Binary? ==> |r| >= |AsText(v)| && Utf8.Decode(r) == AsText(v)
  {
    match v
    case Binary(b) => b
    case _ =>
      Utf8.DecodeEncode(AsText(v));
      Utf8.Encode(AsText(v))
  }

  /** Reading any stored value as bytes and then as text gives the text it
      reads back as directly. */
  lemma TextThroughBytes(v: Value)
    ensures AsText(Binary(AsBytes(v))) == AsText(v)
  {
  }

  /** The string "é" is stored as the two bytes C3 A9, and those bytes read
      back as "é". */
  lemma NonAsciiText()
    ensures AsBytes(Text("é")) == [0xC3, 0xA9]
    ensures AsText(Binary([0xC3, 0xA9])) == "é"
  {
    Utf8.EAcute();
  }
}
