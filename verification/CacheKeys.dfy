/** The cache key of a request: a prefix and the digest of the request's payload. The digest,
    SHA-256 cut to 16 bytes and written in hexadecimal, is a parameter. */
module CacheKeys {
  import opened GoText
  import opened ChatRequest

  const KEY_PREFIX := "inferflow:prefix:"

  function KeyOf(digest: string -> string, r: Request): string
  {
    var payload := Payload(r);
    if payload == "" then "" else KEY_PREFIX + digest(payload)
  }

  /** The key as it is built: the digest of the text that is written, after the prefix. */
  method BuildCacheKey(digest: string -> string, r: Request) returns (key: string)
    ensures key == KeyOf(digest, r)
    ensures Validate(r).Ok? ==> key == "inferflow:prefix:" + digest(Joined(Normal(r).model, Normal(r).messages))
  {
    if Validate(r) == Ok {
      ValidPayloadIsJoined(r);
    }
    var payload := BuildPayload(r);
    if payload == "" {
      return "";
    }
    key := KEY_PREFIX + digest(payload);
  }

  /** 32 hexadecimal digits. */
  ghost predicate Hex(s: string)
  {
    |s| == 32 && forall i :: 0 <= i < |s| ==> '0' <= s[i] <= '9' || 'a' <= s[i] <= 'f'
  }

  ghost predicate HexDigest(digest: string -> string)
  {
    forall text: string {:trigger digest(text)} :: Hex(digest(text))
  }

  ghost predicate Injective(digest: string -> string)
  {
    forall x: string, y: string {:trigger digest(x), digest(y)} :: digest(x) == digest(y) ==> x == y
  }

  /** A validated request has a key, whatever the digest. */
  lemma ValidKeyNotEmpty(digest: string -> string, r: Request)
    requires Validate(r).Ok?
    ensures KeyOf(digest, r) != ""
  {
    ValidPayloadIsJoined(r);
  }

  lemma PrefixCancels(x: string, y: string)
    ensures KEY_PREFIX + x == KEY_PREFIX + y <==> x == y
  {
    assert (KEY_PREFIX + x)[|KEY_PREFIX|..] == x && (KEY_PREFIX + y)[|KEY_PREFIX|..] == y;
  }

  /** Validated requests share a key exactly when the digests of their trimmed parts, joined line
      by line, agree; so requests that are the same up to surrounding white space always do. */
  lemma KeysEqualIff(digest: string -> string, r: Request, q: Request)
    requires Validate(r).Ok? && Validate(q).Ok?
    ensures KeyOf(digest, r) == KeyOf(digest, q) <==>
            digest(Joined(Normal(r).model, Normal(r).messages)) == digest(Joined(Normal(q).model, Normal(q).messages))
    ensures Normal(r) == Normal(q) ==> KeyOf(digest, r) == KeyOf(digest, q)
  {
    ValidPayloadIsJoined(r);
    ValidPayloadIsJoined(q);
    PrefixCancels(digest(Payload(r)), digest(Payload(q)));
  }

  /** Where the digest has no collisions, clean requests share a key exactly when they are the same
      request up to surrounding white space. */
  lemma CleanKeysEqualIff(digest: string -> string, r: Request, q: Request)
    requires Injective(digest)
    requires Validate(r).Ok? && Validate(q).Ok? && Clean(Normal(r)) && Clean(Normal(q))
    ensures KeyOf(digest, r) == KeyOf(digest, q) <==> Normal(r) == Normal(q)
  {
    KeysEqualIff(digest, r, q);
    ValidPayloadIsJoined(r);
    ValidPayloadIsJoined(q);
    PayloadInjective(r, q);
  }

  /** A key with a hexadecimal digest is its own trimmed form. */
  lemma KeyIsTrimmed(digest: string -> string, r: Request)
    requires HexDigest(digest) && Validate(r).Ok?
    ensures TrimSpace(KeyOf(digest, r)) == KeyOf(digest, r) != ""
  {
    ValidPayloadIsJoined(r);
    var d := digest(Payload(r));
    assert Hex(d);
    var key := KeyOf(digest, r);
    assert key[|key| - 1] == d[|d| - 1] && key[0] == 'i';
    TrimmedIsFixed(key);
  }
}
