/**
 * A model of bcryptjs `hash(plain, genSalt(10))` and `compare(plain, hash)`.
 * The random salt is a parameter. A hash is "$2a$10$" followed by the salt
 * and the hashed text in hex, so it always starts with '$'.
 *
 * bcrypt keys its cipher with 72 bytes: bcryptjs appends a zero byte to the
 * UTF-8 bytes of the text and reads the result cyclically. Two texts with
 * the same 72 key bytes are indistinguishable to `compare`.
 */
module Bcrypt {
  import opened Wrappers
  import opened Text
  import opened Hex

  const Prefix: string := "$2a$10$"

  /** The number of key bytes bcrypt's key schedule reads. */
  const KeyLength: nat := 72

  /** The first `n` elements of the endless repetition of `bytes`. */
  function Cycle(bytes: seq<int>, n: nat): (k: seq<int>)
    requires |bytes| > 0
    ensures |k| == n
    decreases n
  {
    if n <= |bytes| then bytes[..n] else bytes + Cycle(bytes, n - |bytes|)
  }

  /** The key bytes bcrypt derives from `plain`. */
  function Key(plain: string): (k: seq<int>)
    ensures |k| == KeyLength
  {
    Cycle(Utf8Encode(plain) + [0], KeyLength)
  }

  /** Below the length of the text's bytes and the zero byte, the key is those bytes themselves. */
  lemma KeyAt(plain: string, i: nat)
    requires i < KeyLength && i <= |Utf8Encode(plain)|
    ensures Key(plain)[i] == (Utf8Encode(plain) + [0])[i]
  {
  }

  function Hash(plain: string, salt: nat): string {
    Prefix + EncodeNat(salt) + "." + EncodeString(plain)
  }

  /** Whether `plain` has the key of the text `hash` was made from; false for anything that is not a hash. */
  predicate Compare(plain: string, hash: string) {
    StartsWith(hash, Prefix) &&
    var parts := Split(hash[|Prefix|..], '.');
    |parts| == 2 && DecodeNat(parts[0]).Some? &&
    var original := DecodeString(parts[1]);
    original.Some? && Key(plain) == Key(original.value)
  }

  /** A hash matches exactly the texts whose key is that of the text it was made from, whatever the salt. */
  lemma CompareHash(plain: string, original: string, salt: nat)
    ensures Compare(plain, Hash(original, salt)) <==> Key(plain) == Key(original)
  {
    var h := Hash(original, salt);
    var salted, body := EncodeNat(salt), EncodeString(original);
    assert h[|Prefix|..] == Join([salted, body], '.');
    assert '.' !in salted by { NoDotInHex(salted); }
    assert '.' !in body by { NoDotInHex(body); }
    SplitJoin([salted, body], '.');
    DecodeEncodeNat(salt);
    DecodeEncodeString(original);
  }

  lemma NoDotInHex(h: string)
    requires AllHex(h)
    ensures '.' !in h
  {
  }

  /** Only the first 72 bytes count: texts that agree on them match each other's hashes. */
  lemma LongTextsShareKey(s: string, a: string, b: string)
    requires |Utf8Encode(s)| >= KeyLength
    ensures Key(s + a) == Key(s + b)
  {
    Utf8EncodeAppend(s, a);
    Utf8EncodeAppend(s, b);
    var ka, kb := Key(s + a), Key(s + b);
    forall i | 0 <= i < KeyLength ensures ka[i] == kb[i] {
      KeyAt(s + a, i);
      KeyAt(s + b, i);
    }
  }

  /** A text of at least 72 bytes has the key of any longer text it begins. */
  lemma LongTextKey(s: string, a: string)
    requires |Utf8Encode(s)| >= KeyLength
    ensures Key(s + a) == Key(s)
  {
    LongTextsShareKey(s, a, "");
    assert s + "" == s;
  }

  /**
   * For ASCII texts shorter than 72 characters and free of zero characters
   * the key is exact: two such texts have the same key only if they are equal.
   */
  lemma ShortAsciiKeysDistinct(p: string, q: string)
    requires Ascii(p) && Ascii(q) && |p| < KeyLength && |q| < KeyLength
    requires '\0' !in p && '\0' !in q
    ensures Key(p) == Key(q) <==> p == q
  {
    if Key(p) == Key(q) {
      AsciiUtf8(p);
      AsciiUtf8(q);
      KeyOfShortAscii(p, q);
      KeyOfShortAscii(q, p);
      forall i | 0 <= i < |p| ensures p[i] == q[i] {
        KeyAt(p, i);
        KeyAt(q, i);
      }
    }
  }

  /** The byte after a short text is the zero byte, where a longer text has one of its characters. */
  lemma KeyOfShortAscii(p: string, q: string)
    requires Ascii(p) && Ascii(q) && |p| < KeyLength && |q| < KeyLength
    requires '\0' !in q
    requires Key(p) == Key(q)
    ensures |q| <= |p|
  {
    AsciiUtf8(p);
    AsciiUtf8(q);
    if |p| < |q| {
      assert q[|p|] in q;
      KeyAt(p, |p|);
      KeyAt(q, |p|);
    }
  }

  /** A hash is always longer than the text it was made from, so it never is that text. */
  lemma HashIsNotPlain(plain: string, salt: nat)
    ensures Hash(plain, salt) != plain
  {
    assert |Hash(plain, salt)| > |plain|;
  }

  /** Every hash starts with '$'. */
  lemma HashStart(plain: string, salt: nat)
    ensures |Hash(plain, salt)| >= 1 && Hash(plain, salt)[0] == '$'
  {
  }
}

/** libs/utils.ts `isValidObjectId`. */
module ObjectId {
  import opened Text

  /**
   * `Types.ObjectId.isValid(id) && new Types.ObjectId(id).toString() === id`
   * holds exactly for the 24-character lower-case hex strings: `toString`
   * always yields that form, so any other accepted input differs from it.
   */
  predicate IsValid(id: string) {
    |id| == 24 && forall i :: 0 <= i < |id| ==> IsAsciiDigit(id[i]) || ('a' <= id[i] <= 'f')
  }
}
