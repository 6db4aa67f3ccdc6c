/**
 * The browser side of payload encryption (`frontend/src/lib/encryption.js`):
 * the base64url encoder that writes the derived key into a JWK, the
 * sanitiser that drops a payload's `blob` before it is encrypted, and the
 * cache that keeps one key derivation per passphrase.
 *
 * SHA-256, the JWK import and the JWE encryption and decryption belong to
 * WebCrypto and `jose` and are outside the model: a key derivation is a
 * token naming the passphrase it was started for, and the operations
 * return what they would hand to `jose`.
 */
module EncryptionClient {
  import opened Wrappers
  import opened Numbers
  import opened JsValues
  import opened CipherStore

  /** The alphabet of section 4 of RFC 4648: A-Z, a-z, 0-9, '+', '/'. */
  function StdChar(k: int): (c: char)
    requires 0 <= k < 64
  {
    if k < 26 then ('A' as int + k) as char
    else if k < 52 then ('a' as int + k - 26) as char
    else if k < 62 then ('0' as int + k - 52) as char
    else if k == 62 then '+'
    else '/'
  }

  /** The URL- and filename-safe alphabet of section 5 of RFC 4648: '-' and '_' in place of '+' and '/'. */
  function UrlChar(k: int): (c: char)
    requires 0 <= k < 64
    ensures c != '+' && c != '/' && c != '='
  {
    if k < 26 then ('A' as int + k) as char
    else if k < 52 then ('a' as int + k - 26) as char
    else if k < 62 then ('0' as int + k - 52) as char
    else if k == 62 then '-'
    else '_'
  }

  /** The six-bit values of one group of three bytes, or of the one or two bytes that end the input. */
  function Sextets(b: seq<Byte>): (r: seq<int>)
    requires 1 <= |b| <= 3
    ensures |r| == |b| + 1 && forall i :: 0 <= i < |r| ==> 0 <= r[i] < 64
  {
    if |b| == 1 then [b[0] / 4, (b[0] % 4) * 16]
    else if |b| == 2 then [b[0] / 4, (b[0] % 4) * 16 + b[1] / 16, (b[1] % 16) * 4]
    else [b[0] / 4, (b[0] % 4) * 16 + b[1] / 16, (b[1] % 16) * 4 + b[2] / 64, b[2] % 64]
  }

  function MapStd(ks: seq<int>): (r: string)
    requires forall i :: 0 <= i < |ks| ==> 0 <= ks[i] < 64
    ensures |r| == |ks| && forall i :: 0 <= i < |ks| ==> r[i] == StdChar(ks[i])
  {
    seq(|ks|, i requires 0 <= i < |ks| => StdChar(ks[i]))
  }

  function MapUrl(ks: seq<int>): (r: string)
    requires forall i :: 0 <= i < |ks| ==> 0 <= ks[i] < 64
    ensures |r| == |ks| && forall i :: 0 <= i < |ks| ==> r[i] == UrlChar(ks[i])
  {
    seq(|ks|, i requires 0 <= i < |ks| => UrlChar(ks[i]))
  }

  /** `btoa` on a string of byte-sized characters: base64 as in section 4 of RFC 4648, with `=` padding. */
  function Btoa(b: seq<Byte>): (r: string)
    decreases |b|
  {
    if |b| == 0 then ""
    else if |b| == 1 then MapStd(Sextets(b)) + "=="
    else if |b| == 2 then MapStd(Sextets(b)) + "="
    else MapStd(Sextets(b[..3])) + Btoa(b[3..])
  }

  /** Base64url without padding: the encoding section 5 of RFC 4648 defines, with the `=` left off. */
  function Base64Url(b: seq<Byte>): (r: string)
    ensures |r| == (4 * |b| + 2) / 3
    ensures forall i :: 0 <= i < |r| ==> r[i] != '+' && r[i] != '/' && r[i] != '='
    decreases |b|
  {
    if |b| <= 3 then (if |b| == 0 then "" else MapUrl(Sextets(b)))
    else
      var head := MapUrl(Sextets(b[..3]));
      var rest := Base64Url(b[3..]);
      assert forall i :: 4 <= i < |head + rest| ==> (head + rest)[i] == rest[i - 4];
      head + rest
  }

  /** `s.replace(/<from>/g, <to>)` for a single character. */
  function ReplaceAll(s: string, from: char, to: char): (r: string)
    ensures |r| == |s| && forall i :: 0 <= i < |s| ==> r[i] == if s[i] == from then to else s[i]
  {
    seq(|s|, i requires 0 <= i < |s| => if s[i] == from then to else s[i])
  }

  /** `s.replace(/=+$/u, '')`: the run of `=` that ends the string removed. */
  function TrimPadding(s: string): (r: string)
    ensures |r| <= |s| && r == s[..|r|]
    ensures r == [] || r[|r| - 1] != '='
    decreases |s|
  {
    if s != [] && s[|s| - 1] == '=' then TrimPadding(s[..|s| - 1]) else s
  }

  /** The two replacements `base64UrlEncode` makes: '+' to '-' and '/' to '_'. */
  function Swap(s: string): (r: string)
    ensures |r| == |s|
  {
    ReplaceAll(ReplaceAll(s, '+', '-'), '/', '_')
  }

  /** The three replacements `base64UrlEncode` makes on the output of `btoa`. */
  function ToUrlSafe(s: string): string {
    TrimPadding(Swap(s))
  }

  lemma SwapAppend(x: string, y: string)
    ensures Swap(x + y) == Swap(x) + Swap(y)
  {
    assert ReplaceAll(x + y, '+', '-') == ReplaceAll(x, '+', '-') + ReplaceAll(y, '+', '-');
  }

  lemma {:induction false} TrimPaddingAfter(x: string, y: string)
    requires x == [] || x[|x| - 1] != '='
    ensures TrimPadding(x + y) == x + TrimPadding(y)
    decreases |y|
  {
    if y != [] && y[|y| - 1] == '=' {
      assert (x + y)[..|x + y| - 1] == x + y[..|y| - 1];
      TrimPaddingAfter(x, y[..|y| - 1]);
    } else if y == [] {
      assert x + y == x;
    }
  }

  /** One group of the standard encoding becomes the same group in the URL-safe alphabet. */
  lemma GroupToUrlSafe(ks: seq<int>, tail: string)
    requires 0 < |ks| && forall i :: 0 <= i < |ks| ==> 0 <= ks[i] < 64
    ensures ToUrlSafe(MapStd(ks) + tail) == MapUrl(ks) + ToUrlSafe(tail)
  {
    SwapAppend(MapStd(ks), tail);
    assert Swap(MapStd(ks)) == MapUrl(ks);
    TrimPaddingAfter(MapUrl(ks), Swap(tail));
  }

  lemma PaddingToUrlSafe(pad: string)
    requires pad == "=" || pad == "=="
    ensures ToUrlSafe(pad) == []
  {
    assert Swap(pad) == pad;
    if pad == "==" {
      assert pad[..1] == "=";
    }
  }

  /**
   * What `base64UrlEncode` does to the output of `btoa` (the two
   * replacements and the trimmed padding) turns the standard encoding into
   * unpadded base64url.
   */
  lemma {:induction false} BtoaToUrlSafe(b: seq<Byte>)
    ensures ToUrlSafe(Btoa(b)) == Base64Url(b)
    decreases |b|
  {
    if |b| == 0 {
    } else if |b| <= 2 {
      var pad := if |b| == 1 then "==" else "=";
      GroupToUrlSafe(Sextets(b), pad);
      PaddingToUrlSafe(pad);
      assert MapUrl(Sextets(b)) + [] == MapUrl(Sextets(b));
    } else if |b| == 3 {
      GroupToUrlSafe(Sextets(b), "");
      assert b[..3] == b;
      assert MapStd(Sextets(b)) + "" == MapStd(Sextets(b));
      assert MapUrl(Sextets(b)) + [] == MapUrl(Sextets(b));
    } else {
      GroupToUrlSafe(Sextets(b[..3]), Btoa(b[3..]));
      BtoaToUrlSafe(b[3..]);
    }
  }

  /** The value of a base64url character. */
  function UrlValue(c: char): (r: Option<int>)
    ensures r.Some? ==> 0 <= r.value < 64 && UrlChar(r.value) == c
  {
    if 'A' <= c <= 'Z' then Some(c as int - 'A' as int)
    else if 'a' <= c <= 'z' then Some(c as int - 'a' as int + 26)
    else if '0' <= c <= '9' then Some(c as int - '0' as int + 52)
    else if c == '-' then Some(62)
    else if c == '_' then Some(63)
    else None
  }

  /** The values of the characters of a base64url string, or null when one is outside the alphabet. */
  function Values(s: string): (r: Option<seq<int>>)
    ensures r.Some? ==> |r.value| == |s| && forall i :: 0 <= i < |s| ==> 0 <= r.value[i] < 64
  {
    if |s| == 0 then Some([])
    else
      var v := UrlValue(s[0]);
      var vs := Values(s[1..]);
      if v.Some? && vs.Some? then Some([v.value] + vs.value) else None
  }

  lemma {:induction false} ValuesOfUrl(ks: seq<int>)
    requires forall i :: 0 <= i < |ks| ==> 0 <= ks[i] < 64
    ensures Values(MapUrl(ks)) == Some(ks)
  {
    if |ks| > 0 {
      assert MapUrl(ks)[1..] == MapUrl(ks[1..]);
      ValuesOfUrl(ks[1..]);
      assert UrlValue(UrlChar(ks[0])) == Some(ks[0]);
      assert [ks[0]] + ks[1..] == ks;
    }
  }

  /** The bytes two to four base64 digits stand for. */
  function GroupBytes(v: seq<int>): (r: seq<Byte>)
    requires 2 <= |v| <= 4 && forall i :: 0 <= i < |v| ==> 0 <= v[i] < 64
    ensures |r| == |v| - 1
  {
    var b0 := (v[0] * 4 + v[1] / 16) % 256;
    if |v| == 2 then [b0]
    else
      var b1 := ((v[1] % 16) * 16 + v[2] / 4) % 256;
      if |v| == 3 then [b0, b1] else [b0, b1, ((v[2] % 4) * 64 + v[3]) % 256]
  }

  lemma DivMod16(q: int, r: int)
    requires 0 <= q && 0 <= r < 16
    ensures (q * 16 + r) / 16 == q && (q * 16 + r) % 16 == r
  {
  }

  lemma DivMod4(q: int, r: int)
    requires 0 <= q && 0 <= r < 4
    ensures (q * 4 + r) / 4 == q && (q * 4 + r) % 4 == r
  {
  }

  lemma GroupBytesOfSextets(g: seq<Byte>)
    requires 1 <= |g| <= 3
    ensures GroupBytes(Sextets(g)) == g
  {
    if |g| == 1 {
      GroupOfOne(g[0]);
      assert g == [g[0]];
    } else if |g| == 2 {
      GroupOfTwo(g[0], g[1]);
      assert g == [g[0], g[1]];
    } else {
      GroupOfThree(g[0], g[1], g[2]);
      assert g == [g[0], g[1], g[2]];
    }
  }

  lemma GroupOfOne(x: Byte)
    ensures GroupBytes(Sextets([x])) == [x]
  {
    FirstByteBack(x, 0);
  }

  lemma GroupOfTwo(x: Byte, y: Byte)
    ensures GroupBytes(Sextets([x, y])) == [x, y]
  {
    FirstByteBack(x, y);
    SecondByteBack(y, 0);
  }

  lemma GroupOfThree(x: Byte, y: Byte, z: Byte)
    ensures GroupBytes(Sextets([x, y, z])) == [x, y, z]
  {
    FirstByteBack(x, y);
    SecondByteBack(y, z);
    ThirdByteBack(z);
  }

  /** The first byte comes back from the first digit and the top of the second. */
  lemma FirstByteBack(x: Byte, y: Byte)
    ensures var v1 := (x % 4) * 16 + y / 16;
      ((x / 4) * 4 + v1 / 16) % 256 == x && v1 % 16 == y / 16
  {
    DivMod16(x % 4, y / 16);
  }

  /** The second byte comes back from the bottom of the second digit and the top of the third. */
  lemma SecondByteBack(x: Byte, y: Byte)
    ensures var v2 := (x % 16) * 4 + y / 64;
      ((x / 16) * 16 + v2 / 4) % 256 == x && v2 % 4 == y / 64
  {
    DivMod4(x % 16, y / 64);
  }

  /** The third byte comes back from the bottom of the third digit and the fourth. */
  lemma ThirdByteBack(x: Byte)
    ensures ((x / 64) * 64 + x % 64) % 256 == x
  {
  }

  /** Decoding of unpadded base64url, the inverse the JWK's reader applies. */
  function Base64UrlDecode(s: string): (r: Option<seq<Byte>>)
    decreases |s|
  {
    if |s| == 0 then Some([])
    else if |s| == 1 then None
    else
      var n := if |s| >= 4 then 4 else |s|;
      var v := Values(s[..n]);
      var rest := Base64UrlDecode(s[n..]);
      if v.Some? && rest.Some? then Some(GroupBytes(v.value) + rest.value) else None
  }

  lemma DecodeGroup(g: seq<Byte>, tail: string)
    requires 1 <= |g| <= 3 && (|g| < 3 ==> tail == [])
    requires Base64UrlDecode(tail).Some?
    ensures Base64UrlDecode(MapUrl(Sextets(g)) + tail) == Some(g + Base64UrlDecode(tail).value)
  {
    var ks := Sextets(g);
    var s := MapUrl(ks) + tail;
    assert s[..|ks|] == MapUrl(ks);
    assert s[|ks|..] == tail;
    ValuesOfUrl(ks);
    GroupBytesOfSextets(g);
  }

  /** Base64url decoding gives the bytes back. */
  lemma {:induction false} Base64UrlRoundTrip(b: seq<Byte>)
    ensures Base64UrlDecode(Base64Url(b)) == Some(b)
    decreases |b|
  {
    if 0 < |b| <= 3 {
      DecodeGroup(b, "");
      assert MapUrl(Sextets(b)) + "" == MapUrl(Sextets(b));
      assert b + [] == b;
    } else if |b| > 3 {
      Base64UrlRoundTrip(b[3..]);
      DecodeGroup(b[..3], Base64Url(b[3..]));
      assert b[..3] + b[3..] == b;
    }
  }

  /**
   * `base64UrlEncode`: each byte becomes the character with that code, the
   * string goes through `btoa`, and the result is made URL-safe.
   */
  method Base64UrlEncode(bytes: seq<Byte>) returns (r: string)
    ensures r == Base64Url(bytes)
    ensures |r| == (4 * |bytes| + 2) / 3
  {
    var binary: string := "";
    var i := 0;
    while i < |bytes|
      invariant 0 <= i <= |bytes|
      invariant |binary| == i && forall k :: 0 <= k < i ==> binary[k] as int == bytes[k]
    {
      binary := binary + [bytes[i] as char];
      i := i + 1;
    }
    var octets: seq<Byte> := seq(|binary|, k requires 0 <= k < |binary| => binary[k] as int);
    assert octets == bytes;
    BtoaToUrlSafe(octets);
    r := ToUrlSafe(Btoa(octets));
  }

  /**
   * `sanitizePayload`: a falsy value or one that is not an object comes
   * back as it is; otherwise a copy without a top-level `blob`. The copy
   * `JSON.parse(JSON.stringify(...))` makes is the value itself here.
   */
  function SanitizePayload(payload: Js): (r: Js)
    ensures !Truthy(payload) || !IsObjectType(payload) ==> r == payload
    ensures payload.JsObject? ==> r.JsObject? && r.fields == payload.fields - {"blob"}
    ensures payload.JsArray? ==> r == payload
  {
    if !Truthy(payload) || !IsObjectType(payload) then payload
    else if payload.JsObject? && "blob" in payload.fields then JsObject(payload.fields - {"blob"})
    else payload
  }

  /** Sanitising twice is sanitising once: no `blob` is left to remove. */
  lemma SanitizeIdempotent(payload: Js)
    ensures SanitizePayload(SanitizePayload(payload)) == SanitizePayload(payload)
  {
    if payload.JsObject? {
      assert payload.fields - {"blob"} - {"blob"} == payload.fields - {"blob"};
    }
  }

  /** A derivation of the key for a passphrase: `deriveKey(cipher)`, the `serial`-th one started. */
  datatype KeyPromise = KeyPromise(cipher: string, serial: nat)

  /** What `encryptPayload` gives `jose` to encrypt: the sanitised payload, `{}` when it is null or undefined. */
  function Plaintext(payload: Js): (r: Js)
    ensures r != JsNull && r != JsUndefined
    ensures payload.JsObject? ==> r.JsObject? && "blob" !in r.fields
  {
    var sanitized := SanitizePayload(payload);
    if sanitized == JsNull || sanitized == JsUndefined then JsObject(map[]) else sanitized
  }

  /** The key cache of `encryption.js`. */
  class KeyCache {
    /** `cachedCipher`. */
    var cachedCipher: Option<string>
    /** `cachedKeyPromise`. */
    var cachedKey: Option<KeyPromise>
    /** How many derivations `getCryptoKey` has started. */
    var derivations: nat

    /** A cached derivation is the one started for the cached passphrase. */
    predicate Valid()
      reads this
    {
      cachedKey.Some? ==> cachedCipher == Some(cachedKey.value.cipher) && cachedKey.value.serial < derivations
    }

    constructor ()
      ensures Valid() && cachedCipher == None && cachedKey == None && derivations == 0
    {
      cachedCipher := None;
      cachedKey := None;
      derivations := 0;
    }

    /**
     * `getCryptoKey`: null without a passphrase; the cached derivation when
     * the passphrase is the cached one; otherwise a new derivation, which
     * replaces the cache.
     */
    method GetCryptoKey(store: CipherCache) returns (r: Option<KeyPromise>)
      requires Valid() && store.Coherent()
      modifies this, store
      ensures Valid() && store.Coherent() && store.storage == old(store.storage)
      ensures r.None? <==> store.cached.None?
      ensures r.None? ==> cachedCipher == old(cachedCipher) && cachedKey == old(cachedKey)
      ensures r.Some? ==> r.value.cipher == store.cached.value && r == cachedKey
      ensures r.Some? && old(cachedCipher) == store.cached && old(cachedKey).Some? ==>
                r == old(cachedKey) && derivations == old(derivations)
      ensures r.Some? && !(old(cachedCipher) == store.cached && old(cachedKey).Some?) ==>
                r.value.serial == old(derivations) && derivations == old(derivations) + 1
    {
      var cipher := store.GetCipher();
      if cipher.None? {
        return None;
      }
      var key := KeyFor(cipher.value);
      r := Some(key);
    }

    /** The derivation `getCryptoKey` settles on for a passphrase it has read. */
    method KeyFor(cipher: string) returns (key: KeyPromise)
      requires Valid()
      modifies this
      ensures Valid() && key.cipher == cipher && Some(key) == cachedKey
      ensures old(cachedCipher) == Some(cipher) && old(cachedKey).Some? ==>
                Some(key) == old(cachedKey) && derivations == old(derivations)
      ensures !(old(cachedCipher) == Some(cipher) && old(cachedKey).Some?) ==>
                key.serial == old(derivations) && derivations == old(derivations) + 1
    {
      if cachedCipher == Some(cipher) && cachedKey.Some? {
        return cachedKey.value;
      }
      key := KeyPromise(cipher, derivations);
      cachedCipher := Some(cipher);
      cachedKey := Some(key);
      derivations := derivations + 1;
    }

    /** `resetEncryptionCache`: forgets the passphrase and its derivation. */
    method ResetEncryptionCache()
      modifies this
      ensures Valid() && cachedCipher == None && cachedKey == None && derivations == old(derivations)
    {
      cachedCipher := None;
      cachedKey := None;
    }

    /** `encryptPayload`: null without a key; otherwise the key and the plaintext handed to `jose`. */
    method EncryptPayload(store: CipherCache, payload: Js) returns (r: Option<(KeyPromise, Js)>)
      requires Valid() && store.Coherent()
      modifies this, store
      ensures Valid() && store.Coherent()
      ensures r.None? <==> store.cached.None?
      ensures r.Some? ==> Some(r.value.0) == cachedKey && r.value.1 == Plaintext(payload)
    {
      var key := GetCryptoKey(store);
      if key.None? {
        return None;
      }
      r := Some((key.value, Plaintext(payload)));
    }

    /** `decryptPayload`: null without a key or with a falsy blob; otherwise the key and blob handed to `jose`. */
    method DecryptPayload(store: CipherCache, blob: Js) returns (r: Option<(KeyPromise, Js)>)
      requires Valid() && store.Coherent()
      modifies this, store
      ensures Valid() && store.Coherent()
      ensures r.Some? <==> store.cached.Some? && Truthy(blob)
      ensures r.Some? ==> Some(r.value.0) == cachedKey && r.value.1 == blob
    {
      var key := GetCryptoKey(store);
      if key.None? || !Truthy(blob) {
        return None;
      }
      r := Some((key.value, blob));
    }
  }
}
