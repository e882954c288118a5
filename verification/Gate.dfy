/** What stands in front of the storage: `ServerConfig::validate`, `auth_middleware` and `validate_hash`. */
module Gate {
  import opened Common

  datatype Config = Config(serviceToken: string, readOnlyToken: Option<string>, port: nat)

  /** `ServerConfig::validate` returns Ok. */
  predicate Validated(c: Config) {
    && c.serviceToken != ""
    && (c.readOnlyToken.Some? ==> c.readOnlyToken.value != "" && c.readOnlyToken.value != c.serviceToken)
    && c.port != 0
  }

  datatype Method = GET | HEAD | PUT | OTHER

  datatype Verdict = Unauthorized | Forbidden | Pass

  const BEARER := "Bearer "

  /** `strip_prefix`; `None` also stands for a missing header and one that is not visible ASCII. */
  function Token(authorization: Option<string>): Option<string> {
    if authorization.Some? && BEARER <= authorization.value then Some(authorization.value[|BEARER|..]) else None
  }

  function Authorize(c: Config, authorization: Option<string>, verb: Method): Verdict {
    match Token(authorization)
    case None => Unauthorized
    case Some(token) =>
      var isReadWrite := token == c.serviceToken;
      var isReadOnly := c.readOnlyToken.Some? && token == c.readOnlyToken.value;
      if !isReadWrite && !isReadOnly then Unauthorized
      else if !isReadWrite && !(verb == GET || verb == HEAD) then Forbidden
      else Pass
  }

  predicate CarriesServiceToken(c: Config, authorization: Option<string>) {
    authorization == Some(BEARER + c.serviceToken)
  }

  predicate CarriesReadOnlyToken(c: Config, authorization: Option<string>) {
    c.readOnlyToken.Some? && authorization == Some(BEARER + c.readOnlyToken.value)
  }

  /** A header carries a token exactly if it is the scheme followed by the token. */
  lemma TokenExact(authorization: Option<string>, token: string)
    ensures Token(authorization) == Some(token) <==> authorization == Some("Bearer " + token)
  {
    if authorization.Some? && BEARER <= authorization.value {
      assert authorization.value == BEARER + authorization.value[|BEARER|..];
    }
    assert (BEARER + token)[|BEARER|..] == token;
  }

  /**
   Who passes, for every method and every configuration: 401 is for those who carry neither token, the service token
   passes with any method, the read-only one with reads, and with anything else it is told 403.
   */
  lemma VerdictExact(c: Config, authorization: Option<string>, verb: Method)
    ensures var service := authorization == Some("Bearer " + c.serviceToken);
            var readOnly := c.readOnlyToken.Some? && authorization == Some("Bearer " + c.readOnlyToken.value);
            var verdict := Authorize(c, authorization, verb);
            && (verdict == Unauthorized <==> !service && !readOnly)
            && (verdict == Pass <==> service || (readOnly && verb in {GET, HEAD}))
            && (verdict == Forbidden <==> !service && readOnly && verb !in {GET, HEAD})
  {
    TokenExact(authorization, c.serviceToken);
    if c.readOnlyToken.Some? {
      TokenExact(authorization, c.readOnlyToken.value);
    }
  }

  /** With a validated configuration an empty token is nobody's, whatever the method. */
  lemma EmptyTokenRejected(c: Config, verb: Method)
    requires Validated(c)
    ensures Authorize(c, Some("Bearer "), verb) == Unauthorized
  {
    VerdictExact(c, Some("Bearer "), verb);
    assert |"Bearer " + c.serviceToken| > |"Bearer "|;
    assert c.readOnlyToken.Some? ==> |"Bearer " + c.readOnlyToken.value| > |"Bearer "|;
  }

  /** Anything but a read passes only with the service token, and a read-only caller that tries is told 403. */
  lemma OnlyServiceTokenWrites(c: Config, authorization: Option<string>, verb: Method)
    requires Validated(c) && verb != GET && verb != HEAD
    ensures Authorize(c, authorization, verb) == Pass <==> CarriesServiceToken(c, authorization)
    ensures Authorize(c, authorization, verb) == Forbidden <==> CarriesReadOnlyToken(c, authorization)
  {
    VerdictExact(c, authorization, verb);
    if CarriesServiceToken(c, authorization) && CarriesReadOnlyToken(c, authorization) {
      TokenExact(authorization, c.serviceToken);
      TokenExact(authorization, c.readOnlyToken.value);
    }
  }

  // ---------- keys ----------

  predicate IsAscii(c: char) {
    c as int < 128
  }

  predicate IsAsciiAlphanumeric(c: char) {
    'a' <= c <= 'z' || 'A' <= c <= 'Z' || '0' <= c <= '9'
  }

  /** The characters beyond ASCII that `char::is_alphanumeric` accepts, as Unicode has them. */
  predicate BeyondAscii(letters: set<char>) {
    forall c :: c in letters ==> !IsAscii(c)
  }

  /** The length of one character in UTF-8. */
  function Utf8Width(c: char): nat {
    if c as int < 0x80 then 1 else if c as int < 0x800 then 2 else if c as int < 0x1_0000 then 3 else 4
  }

  function Utf8Length(s: string): nat {
    if s == "" then 0 else Utf8Length(s[..|s| - 1]) + Utf8Width(s[|s| - 1])
  }

  const MAX_HASH_BYTES: nat := 128

  /** `validate_hash` */
  predicate ValidHash(hash: Key, letters: set<char>) {
    && hash != ""
    && (forall i :: 0 <= i < |hash| ==>
          IsAsciiAlphanumeric(hash[i]) || hash[i] in letters || hash[i] == '-' || hash[i] == '_')
    && Utf8Length(hash) <= MAX_HASH_BYTES
  }

  /** README.md:133: the documented form `[A-Za-z0-9_-]{1,128}`. */
  predicate DocumentedHash(hash: Key) {
    && 1 <= |hash| <= 128
    && forall i :: 0 <= i < |hash| ==> IsAsciiAlphanumeric(hash[i]) || hash[i] == '-' || hash[i] == '_'
  }

  lemma {:induction false} AsciiLength(s: string)
    requires forall i :: 0 <= i < |s| ==> IsAscii(s[i])
    ensures Utf8Length(s) == |s|
  {
    if s != "" {
      AsciiLength(s[..|s| - 1]);
    }
  }

  /** The octets of one character, by the table in section 3 of RFC 3629. */
  function Octets(c: char): seq<nat> {
    var n := c as int;
    if n < 0x80 then [n]
    else if n < 0x800 then [0xC0 + n / 0x40, 0x80 + n % 0x40]
    else if n < 0x1_0000 then [0xE0 + n / 0x1000, 0x80 + n / 0x40 % 0x40, 0x80 + n % 0x40]
    else [0xF0 + n / 0x4_0000, 0x80 + n / 0x1000 % 0x40, 0x80 + n / 0x40 % 0x40, 0x80 + n % 0x40]
  }

  /** `str::as_bytes` */
  function Encoded(s: string): seq<nat> {
    if s == "" then [] else Encoded(s[..|s| - 1]) + Octets(s[|s| - 1])
  }

  lemma {:induction false} EncodedLength(s: string)
    ensures |Encoded(s)| == Utf8Length(s)
  {
    if s != "" {
      EncodedLength(s[..|s| - 1]);
    }
  }

  /** What is accepted: not empty, letters, digits, hyphens and underscores only, and no more than 128 octets of UTF-8. */
  lemma ValidHashExact(hash: Key, letters: set<char>)
    ensures ValidHash(hash, letters) <==>
              && 1 <= |Encoded(hash)| <= 128
              && forall c :: c in hash ==> 'a' <= c <= 'z' || 'A' <= c <= 'Z' || '0' <= c <= '9' || c in "-_" || c in letters
  {
    EncodedLength(hash);
    if hash != "" {
      assert |Encoded(hash)| >= |Octets(hash[|hash| - 1])| >= 1;
    }
    assert forall i :: 0 <= i < |hash| ==> hash[i] in hash;
    assert forall c :: c in "-_" <==> c == '-' || c == '_';
  }

  lemma {:induction false} PairsLength(s: string)
    requires forall i :: 0 <= i < |s| ==> |Octets(s[i])| == 2
    ensures |Encoded(s)| == 2 * |s|
  {
    if s != "" {
      PairsLength(s[..|s| - 1]);
    }
  }

  /** The limit is on octets: of letters that take two of them, not 128 but 64 are accepted. */
  lemma WideHash(hash: Key, letters: set<char>)
    requires hash != "" && forall i :: 0 <= i < |hash| ==> hash[i] in letters && 0x80 <= hash[i] as int < 0x800
    ensures ValidHash(hash, letters) <==> |hash| <= 64
  {
    PairsLength(hash);
    EncodedLength(hash);
  }

  /**
   The code accepts more than the documentation says: the documented keys are exactly the accepted ones that
   are ASCII.
   */
  lemma DocumentedHashExact(hash: Key, letters: set<char>)
    requires BeyondAscii(letters)
    ensures DocumentedHash(hash) <==> ValidHash(hash, letters) && forall i :: 0 <= i < |hash| ==> IsAscii(hash[i])
  {
    if forall i :: 0 <= i < |hash| ==> IsAscii(hash[i]) {
      AsciiLength(hash);
    }
  }

  /** An accepted key that is not a documented one. */
  lemma UndocumentedHash(letters: set<char>)
    requires '\U{00E9}' in letters
    ensures ValidHash("\U{00E9}", letters) && !DocumentedHash("\U{00E9}")
  {
    assert Utf8Length("\U{00E9}"[..0]) == 0;
  }

  /** `domain/storage.rs:9` */
  const PROBE_KEY: Key := "_selfprobe.nx-cache-server"

  lemma ProbeKeyRejected(letters: set<char>)
    requires BeyondAscii(letters)
    ensures !ValidHash(PROBE_KEY, letters)
  {
    assert PROBE_KEY[10] == '.';
  }
}
