/**
 The text of an API key: sk-oai-{key_id}_{secret}, both parts base 62.

 SHA-256 is a parameter `sha`, taken to be injective and never empty; random bytes are inputs.
 */
module KeyFormat {
  import opened Text
  import opened Wrappers

  type Byte = x: int | 0 <= x < 256

  const ALPHABET := "0123456789" + "ABCDEFGHIJKLMNOPQRSTUVWXYZ" + "abcdefghijklmnopqrstuvwxyz"

  /** The big-endian value of `data`. */
  function BytesValue(data: seq<Byte>): nat {
    if data == [] then 0 else BytesValue(data[..|data| - 1]) * 256 + data[|data| - 1]
  }

  function Pow(b: nat, e: nat): nat {
    if e == 0 then 1 else b * Pow(b, e - 1)
  }

  predicate IsDigit62(c: char) {
    '0' <= c <= '9' || 'A' <= c <= 'Z' || 'a' <= c <= 'z'
  }

  predicate IsBase62(s: string) {
    forall i | 0 <= i < |s| :: IsDigit62(s[i])
  }

  function DigitValue(c: char): nat {
    if '0' <= c <= '9' then c as int - '0' as int
    else if 'A' <= c <= 'Z' then c as int - 'A' as int + 10
    else if 'a' <= c <= 'z' then c as int - 'a' as int + 36
    else 0
  }

  function Value62(s: string): nat {
    if s == "" then 0 else Value62(s[..|s| - 1]) * 62 + DigitValue(s[|s| - 1])
  }

  /** A numeral without idle zeros in front. */
  predicate Canonical(s: string) {
    s != "" && IsBase62(s) && (s[0] == '0' ==> |s| == 1)
  }

  function Digits(n: nat): string {
    if n == 0 then "" else Digits(n / 62) + [ALPHABET[n % 62]]
  }

  function Encoded(n: nat): string {
    if n == 0 then "0" else Digits(n)
  }

  lemma AlphabetParts(d: nat)
    requires d < 62
    ensures ALPHABET[d] == if d < 10 then "0123456789"[d]
                           else if d < 36 then "ABCDEFGHIJKLMNOPQRSTUVWXYZ"[d - 10]
                           else "abcdefghijklmnopqrstuvwxyz"[d - 36]
  {
  }

  lemma Decimal(d: nat)
    requires d < 10
    ensures "0123456789"[d] == '0' + d as char
  {
  }

  lemma UpperCase(d: nat)
    requires d < 26
    ensures "ABCDEFGHIJKLMNOPQRSTUVWXYZ"[d] == 'A' + d as char
  {
  }

  lemma LowerCase(d: nat)
    requires d < 26
    ensures "abcdefghijklmnopqrstuvwxyz"[d] == 'a' + d as char
  {
  }

  lemma AlphabetDigit(d: nat)
    requires d < 62
    ensures IsDigit62(ALPHABET[d]) && DigitValue(ALPHABET[d]) == d
  {
    AlphabetParts(d);
    if d < 10 {
      Decimal(d);
    } else if d < 36 {
      UpperCase(d - 10);
    } else {
      LowerCase(d - 36);
    }
  }

  method EncodeBase62(data: seq<Byte>) returns (r: string)
    ensures r == Encoded(BytesValue(data))
  {
    var n := BytesValue(data);
    r := "";
    while n > 0
      invariant Digits(BytesValue(data)) == Digits(n) + r
      decreases n
    {
      var mod := n % 62;
      assert Digits(n) == Digits(n / 62) + [ALPHABET[mod]];
      n := n / 62;
      r := [ALPHABET[mod]] + r;
    }
    if |r| == 0 {
      assert ALPHABET[0] == '0';
      return [ALPHABET[0]];
    }
  }

  // ---------------------------------------------------------------- the encoding keeps the value

  lemma {:induction false} DigitsDenote(n: nat)
    ensures IsBase62(Digits(n)) && Value62(Digits(n)) == n
    ensures n > 0 ==> Digits(n) != "" && Digits(n)[0] != '0'
  {
    if n > 0 {
      DigitsDenote(n / 62);
      AlphabetDigit(n % 62);
      var s := Digits(n);
      assert s[..|s| - 1] == Digits(n / 62);
      if n / 62 == 0 {
        assert DigitValue(s[0]) == n;
      }
    }
  }

  lemma EncodedDenotes(n: nat)
    ensures Canonical(Encoded(n)) && Value62(Encoded(n)) == n
  {
    if n == 0 {
      assert Value62("0"[..0]) == 0;
    } else {
      DigitsDenote(n);
    }
  }

  lemma {:induction false} PowGrows(b: nat, e: nat, f: nat)
    requires b >= 1 && e <= f
    ensures 1 <= Pow(b, e) <= Pow(b, f)
    decreases f
  {
    if e < f {
      PowGrows(b, e, f - 1);
    } else if e > 0 {
      PowGrows(b, e - 1, f - 1);
    }
  }

  lemma {:induction false} PowAdd(b: nat, e: nat, f: nat)
    ensures Pow(b, e + f) == Pow(b, e) * Pow(b, f)
  {
    if e > 0 {
      PowAdd(b, e - 1, f);
      assert b * (Pow(b, e - 1) * Pow(b, f)) == (b * Pow(b, e - 1)) * Pow(b, f);
    }
  }

  /** A canonical numeral's length brackets its value. */
  lemma {:induction false} LengthBounds(s: string)
    requires s != "" && IsBase62(s)
    ensures Value62(s) < Pow(62, |s|)
    ensures s[0] != '0' ==> Pow(62, |s| - 1) <= Value62(s)
  {
    var c := s[|s| - 1];
    assert IsDigit62(c) && DigitValue(c) < 62;
    if |s| > 1 {
      var front := s[..|s| - 1];
      LengthBounds(front);
      assert Value62(front) + 1 <= Pow(62, |s| - 1);
    } else {
      assert s[..0] == "" && Pow(62, 1) == 62 * Pow(62, 0);
    }
  }

  lemma SameDigit(c: char, d: char)
    requires IsDigit62(c) && IsDigit62(d) && DigitValue(c) == DigitValue(d)
    ensures c == d
  {
  }

  lemma {:induction false} SameNumeral(s: string, t: string)
    requires IsBase62(s) && IsBase62(t) && |s| == |t| && Value62(s) == Value62(t)
    ensures s == t
  {
    if s != "" {
      var i := |s| - 1;
      assert IsDigit62(s[i]) && IsDigit62(t[i]) && DigitValue(s[i]) < 62 && DigitValue(t[i]) < 62;
      assert Value62(s) % 62 == DigitValue(s[i]) && Value62(t) % 62 == DigitValue(t[i]);
      SameDigit(s[i], t[i]);
      SameNumeral(s[..i], t[..i]);
      assert s == s[..i] + [s[i]] && t == t[..i] + [t[i]];
    }
  }

  /** A value has one canonical numeral, so what the loop returns is the only possible encoding. */
  lemma CanonicalUnique(s: string, n: nat)
    requires Canonical(s) && Value62(s) == n
    ensures s == Encoded(n)
  {
    var t := Encoded(n);
    EncodedDenotes(n);
    LengthBounds(s);
    LengthBounds(t);
    if s[0] == '0' {
      assert s == "0" && Value62("0"[..0]) == 0;
    } else {
      PowGrows(62, 0, |s| - 1);
      if |s| < |t| {
        PowGrows(62, |s|, |t| - 1);
      } else if |t| < |s| {
        PowGrows(62, |t|, |s| - 1);
      } else {
        SameNumeral(s, t);
      }
    }
  }

  lemma {:induction false} SameBytes(a: seq<Byte>, b: seq<Byte>)
    requires |a| == |b| && BytesValue(a) == BytesValue(b)
    ensures a == b
  {
    if a != [] {
      var i := |a| - 1;
      assert BytesValue(a) % 256 == a[i] && BytesValue(b) % 256 == b[i];
      SameBytes(a[..i], b[..i]);
      assert a == a[..i] + [a[i]] && b == b[..i] + [b[i]];
    }
  }

  /** Inputs of one length are told apart; leading zero bytes alone are not seen. */
  lemma EncodingIsInjective(a: seq<Byte>, b: seq<Byte>)
    ensures Encoded(BytesValue(a)) == Encoded(BytesValue(b)) <==> BytesValue(a) == BytesValue(b)
    ensures |a| == |b| && Encoded(BytesValue(a)) == Encoded(BytesValue(b)) ==> a == b
  {
    EncodedDenotes(BytesValue(a));
    EncodedDenotes(BytesValue(b));
    if |a| == |b| && BytesValue(a) == BytesValue(b) {
      SameBytes(a, b);
    }
  }

  lemma {:induction false} BytesBound(data: seq<Byte>)
    ensures BytesValue(data) < Pow(256, |data|)
  {
    if data != [] {
      BytesBound(data[..|data| - 1]);
    }
  }

  lemma {:induction false} AtLeastExactly(n: nat, len: nat)
    requires len >= 2
    ensures |Encoded(n)| >= len <==> n >= Pow(62, len - 1)
  {
    var s := Encoded(n);
    EncodedDenotes(n);
    LengthBounds(s);
    if |s| >= len {
      PowGrows(62, len - 1, |s| - 1);
    } else {
      PowGrows(62, |s|, len - 1);
    }
  }

  lemma Pow62Small()
    ensures Pow(62, 1) == 62 && Pow(62, 2) == 3844 && Pow(62, 3) == 238328 && Pow(62, 5) == 916132832
  {
    assert Pow(62, 1) == 62 * Pow(62, 0);
    assert Pow(62, 4) == 62 * Pow(62, 3);
  }

  lemma Pow62Large()
    ensures Pow(62, 11) == 52036560683837093888
    ensures Pow(62, 17) == 2955688905823059073916326510592
    ensures Pow(62, 43) == 118261299920216034323567158324881157722618355000741423528102151243191317168128
  {
    Pow62Small();
    PowAdd(62, 5, 5);
    PowAdd(62, 10, 1);
    PowAdd(62, 11, 5);
    PowAdd(62, 16, 1);
    PowAdd(62, 10, 10);
    PowAdd(62, 20, 1);
    PowAdd(62, 21, 21);
    PowAdd(62, 42, 1);
  }

  lemma Pow256Large()
    ensures Pow(256, 12) == 79228162514264337593543950336
    ensures Pow(256, 32) == 115792089237316195423570985008687907853269984665640564039457584007913129639936
  {
    assert Pow(256, 1) == 256 * Pow(256, 0);
    assert Pow(256, 2) == 65536;
    PowAdd(256, 2, 2);
    PowAdd(256, 4, 4);
    PowAdd(256, 8, 4);
    PowAdd(256, 8, 8);
    PowAdd(256, 16, 16);
  }

  /** 12 bytes give at most 17 characters, 32 bytes at most 43. */
  lemma LengthAtMost(data: seq<Byte>)
    ensures |data| == 12 ==> |Encoded(BytesValue(data))| <= 17
    ensures |data| == 32 ==> |Encoded(BytesValue(data))| <= 43
  {
    BytesBound(data);
    Pow62Large();
    Pow256Large();
    AtLeastExactly(BytesValue(data), 18);
    AtLeastExactly(BytesValue(data), 44);
  }

  // ---------------------------------------------------------------- the key around the numerals

  const KEY_PREFIX := "sk-oai-"
  const SEPARATOR := '_'
  const DISPLAY_PREFIX_LENGTH := 12

  datatype ParseError = BadPrefix | MissingSeparator | EmptyPart

  function Assemble(id: string, secret: string): string {
    KEY_PREFIX + id + [SEPARATOR] + secret
  }

  function ParseAPIKey(key: string): Result<(string, string), ParseError> {
    if !(KEY_PREFIX <= key) then Err(BadPrefix)
    else
      var body := key[|KEY_PREFIX|..];
      var i := IndexOf(body, SEPARATOR);
      if i == |body| then Err(MissingSeparator)
      else if i == 0 || i + 1 == |body| then Err(EmptyPart)
      else Ok((body[..i], body[i + 1..]))
  }

  predicate IsValidKeyFormat(key: string) {
    KEY_PREFIX <= key
    && var body := key[|KEY_PREFIX|..];
       var i := IndexOf(body, SEPARATOR);
       i < |body| && body[..i] != "" && body[i + 1..] != "" && IsBase62(body[..i]) && IsBase62(body[i + 1..])
  }

  /** Parsing undoes assembling, and nothing else parses. */
  lemma ParseUndoesAssemble(key: string, id: string, secret: string)
    ensures ParseAPIKey(key) == Ok((id, secret)) <==>
              key == Assemble(id, secret) && id != "" && secret != "" && SEPARATOR !in id
  {
    if KEY_PREFIX <= key {
      var body := key[|KEY_PREFIX|..];
      var i := IndexOf(body, SEPARATOR);
      assert key == KEY_PREFIX + body;
      if i < |body| {
        assert body == body[..i] + [SEPARATOR] + body[i + 1..];
        assert key == Assemble(body[..i], body[i + 1..]);
      }
    }
    if key == Assemble(id, secret) && SEPARATOR !in id {
      var body := key[|KEY_PREFIX|..];
      assert body == id + [SEPARATOR] + secret;
      var i := IndexOf(body, SEPARATOR);
      assert body[|id|] == SEPARATOR;
      assert body[..|body|] == body;
      assert body == body[..i] + [SEPARATOR] + body[i + 1..];
      SplitUnique(SEPARATOR, id, secret, body[..i], body[i + 1..]);
    }
  }

  /** A key is well formed exactly when two non-empty base 62 strings make it up. */
  lemma ValidExactly(key: string)
    ensures IsValidKeyFormat(key) <==>
              exists id, secret ::
                key == Assemble(id, secret) && id != "" && secret != "" && IsBase62(id) && IsBase62(secret)
    ensures IsValidKeyFormat(key) ==>
              ParseAPIKey(key).Ok? && IsBase62(ParseAPIKey(key).value.0) && IsBase62(ParseAPIKey(key).value.1)
  {
    if IsValidKeyFormat(key) {
      var p := ParseAPIKey(key).value;
      ParseUndoesAssemble(key, p.0, p.1);
    }
    if id, secret :| key == Assemble(id, secret) && id != "" && secret != "" && IsBase62(id) && IsBase62(secret) {
      assert SEPARATOR !in id;
      ParseUndoesAssemble(key, id, secret);
    }
  }

  // ---------------------------------------------------------------- hashing

  /** SHA-256 as far as it is assumed: different texts have different, non-empty hashes. */
  ghost predicate IsHash(sha: string -> string) {
    && (forall s :: sha(s) != "")
    && (forall s, t :: sha(s) == sha(t) ==> s == t)
  }

  function Preimage(id: string, secret: string): string {
    id + "\0" + secret
  }

  function HashAPIKey(sha: string -> string, key: string): string {
    match ParseAPIKey(key)
    case Err(_) => ""
    case Ok(p) => sha(Preimage(p.0, p.1))
  }

  predicate ValidateAPIKeyHash(sha: string -> string, key: string, stored: string) {
    match ParseAPIKey(key)
    case Err(_) => false
    case Ok(p) => sha(Preimage(p.0, p.1)) == stored
  }

  lemma PreimageInjective(id1: string, secret1: string, id2: string, secret2: string)
    requires '\0' !in id1 && '\0' !in id2 && Preimage(id1, secret1) == Preimage(id2, secret2)
    ensures id1 == id2 && secret1 == secret2
  {
    SplitUnique('\0', id1, secret1, id2, secret2);
  }

  /** Among well-formed keys the hash identifies the key. */
  lemma HashIdentifiesKey(sha: string -> string, k1: string, k2: string)
    requires IsHash(sha) && IsValidKeyFormat(k1) && IsValidKeyFormat(k2)
    ensures HashAPIKey(sha, k1) == HashAPIKey(sha, k2) <==> k1 == k2
    ensures HashAPIKey(sha, k1) != ""
  {
    ValidExactly(k1);
    ValidExactly(k2);
    var p1, p2 := ParseAPIKey(k1).value, ParseAPIKey(k2).value;
    ParseUndoesAssemble(k1, p1.0, p1.1);
    ParseUndoesAssemble(k2, p2.0, p2.1);
    if HashAPIKey(sha, k1) == HashAPIKey(sha, k2) {
      PreimageInjective(p1.0, p1.1, p2.0, p2.1);
    }
  }

  /** A place where the hashed text of the two parts could be cut into parts of another key. */
  ghost predicate CutsElsewhere(id: string, secret: string) {
    || (exists j :: 1 <= j < |id| && id[j] == '\0')
    || (exists j :: 0 <= j < |secret| - 1 && secret[j] == '\0' && SEPARATOR !in secret[..j])
  }

  /** The parts of some key, whether base 62 or not. */
  predicate Parts(id: string, secret: string) {
    id != "" && secret != "" && SEPARATOR !in id
  }

  lemma CutInId(id: string, secret: string, j: nat) returns (id': string, secret': string)
    requires Parts(id, secret) && 1 <= j < |id| && id[j] == '\0'
    ensures Parts(id', secret') && id' != id && Preimage(id', secret') == Preimage(id, secret)
  {
    id', secret' := id[..j], id[j + 1..] + ['\0'] + secret;
    assert id == id[..j] + ['\0'] + id[j + 1..];
  }

  lemma CutInSecret(id: string, secret: string, j: nat) returns (id': string, secret': string)
    requires Parts(id, secret) && j < |secret| - 1 && secret[j] == '\0' && SEPARATOR !in secret[..j]
    ensures Parts(id', secret') && id' != id && Preimage(id', secret') == Preimage(id, secret)
  {
    id', secret' := id + ['\0'] + secret[..j], secret[j + 1..];
    assert secret == secret[..j] + ['\0'] + secret[j + 1..];
  }

  /** Another way to read the same text cuts it elsewhere. */
  lemma OtherPartsCut(id: string, secret: string, id': string, secret': string)
    requires Parts(id, secret) && Parts(id', secret') && Preimage(id, secret) == Preimage(id', secret')
    requires (id, secret) != (id', secret')
    ensures CutsElsewhere(id, secret)
  {
    var p := Preimage(id, secret);
    assert p[..|id|] == id && p[|id| + 1..] == secret && p[..|id'|] == id' && p[|id'| + 1..] == secret' && p[|id'|] == '\0';
    if |id'| < |id| {
      assert id[|id'|] == '\0';
    } else {
      var j := |id'| - |id| - 1;
      assert secret[j] == p[|id'|] && secret[..j] == id'[|id| + 1..];
      assert forall c | c in secret[..j] :: c in id';
    }
  }

  /**
   A key that merely parses shares its hash with another such key exactly when a NUL in its id, past
   the first character, or in its secret, before any separator and the last character, lets the
   hashed text be cut elsewhere. The format check shuts all of these out.
   */
  lemma SharesHashExactly(sha: string -> string, id: string, secret: string)
    requires IsHash(sha) && Parts(id, secret)
    ensures (exists other :: other != Assemble(id, secret) && ParseAPIKey(other).Ok?
                             && HashAPIKey(sha, other) == HashAPIKey(sha, Assemble(id, secret)))
            <==> CutsElsewhere(id, secret)
    ensures CutsElsewhere(id, secret) ==> !IsValidKeyFormat(Assemble(id, secret))
  {
    var key := Assemble(id, secret);
    ParseUndoesAssemble(key, id, secret);
    if CutsElsewhere(id, secret) {
      var id', secret';
      if j :| 1 <= j < |id| && id[j] == '\0' {
        id', secret' := CutInId(id, secret, j);
      } else {
        var j :| 0 <= j < |secret| - 1 && secret[j] == '\0' && SEPARATOR !in secret[..j];
        id', secret' := CutInSecret(id, secret, j);
      }
      var other := Assemble(id', secret');
      ParseUndoesAssemble(other, id', secret');
      assert ParseAPIKey(other) == Ok((id', secret')) && other != key;
      ValidExactly(key);
    }
    if other :| other != key && ParseAPIKey(other).Ok? && HashAPIKey(sha, other) == HashAPIKey(sha, key) {
      var parts := ParseAPIKey(other).value;
      ParseUndoesAssemble(other, parts.0, parts.1);
      OtherPartsCut(id, secret, parts.0, parts.1);
    }
  }

  /** Two keys that parse, are no valid keys, and share a hash. */
  lemma UncheckedKeysCanCollide(sha: string -> string)
    requires IsHash(sha)
    ensures exists k1, k2 :: k1 != k2 && ParseAPIKey(k1).Ok? && ParseAPIKey(k2).Ok? && HashAPIKey(sha, k1) == HashAPIKey(sha, k2)
  {
    assert "a\0b"[1] == '\0';
    ParseUndoesAssemble(Assemble("a\0b", "c"), "a\0b", "c");
    SharesHashExactly(sha, "a\0b", "c");
  }

  // ---------------------------------------------------------------- minting

  /** The key that the two runs of random bytes stand for. */
  function KeyOf(idBytes: seq<Byte>, secretBytes: seq<Byte>): string {
    Assemble(Encoded(BytesValue(idBytes)), Encoded(BytesValue(secretBytes)))
  }

  lemma MintedKeyIsValid(idBytes: seq<Byte>, secretBytes: seq<Byte>)
    ensures IsValidKeyFormat(KeyOf(idBytes, secretBytes))
    ensures ParseAPIKey(KeyOf(idBytes, secretBytes)) == Ok((Encoded(BytesValue(idBytes)), Encoded(BytesValue(secretBytes))))
  {
    var id, secret := Encoded(BytesValue(idBytes)), Encoded(BytesValue(secretBytes));
    EncodedDenotes(BytesValue(idBytes));
    EncodedDenotes(BytesValue(secretBytes));
    assert SEPARATOR !in id;
    ParseUndoesAssemble(KeyOf(idBytes, secretBytes), id, secret);
    ValidExactly(KeyOf(idBytes, secretBytes));
  }

  /** Different random bytes make different keys with different hashes. */
  lemma MintedKeysDiffer(sha: string -> string, id1: seq<Byte>, secret1: seq<Byte>, id2: seq<Byte>, secret2: seq<Byte>)
    requires IsHash(sha) && |id1| == |id2| && |secret1| == |secret2|
    ensures HashAPIKey(sha, KeyOf(id1, secret1)) == HashAPIKey(sha, KeyOf(id2, secret2)) <==> id1 == id2 && secret1 == secret2
  {
    MintedKeyIsValid(id1, secret1);
    MintedKeyIsValid(id2, secret2);
    HashIdentifiesKey(sha, KeyOf(id1, secret1), KeyOf(id2, secret2));
    EncodingIsInjective(id1, id2);
    EncodingIsInjective(secret1, secret2);
  }

  /** `display` gives away at most the first twelve characters of the key id, and all of a shorter one. */
  ghost predicate Displays(display: string, id: string) {
    exists shown ::
      && display == KEY_PREFIX + shown + "..." && shown <= id
      && (|shown| == DISPLAY_PREFIX_LENGTH || (|shown| < DISPLAY_PREFIX_LENGTH && shown == id))
  }

  method DisplayPrefix(id: string) returns (display: string)
    ensures Displays(display, id)
  {
    if |id| >= DISPLAY_PREFIX_LENGTH {
      display := KEY_PREFIX + id[..DISPLAY_PREFIX_LENGTH] + "...";
      assert id[..DISPLAY_PREFIX_LENGTH] <= id;
    } else {
      display := KEY_PREFIX + id + "...";
    }
  }

  /** `plaintext` is shown once, `hash` is stored, `display` names the key in lists. */
  method GenerateAPIKey(sha: string -> string, idBytes: seq<Byte>, secretBytes: seq<Byte>)
    returns (plaintext: string, hash: string, display: string)
    requires |idBytes| == 12 && |secretBytes| == 32
    ensures plaintext == KeyOf(idBytes, secretBytes) && IsValidKeyFormat(plaintext)
    ensures hash == HashAPIKey(sha, plaintext) && ValidateAPIKeyHash(sha, plaintext, hash)
    ensures |plaintext| <= 7 + 17 + 1 + 43
    ensures Displays(display, ParseAPIKey(plaintext).value.0)
  {
    var keyID := EncodeBase62(idBytes);
    var secret := EncodeBase62(secretBytes);
    plaintext := KEY_PREFIX + keyID + [SEPARATOR] + secret;
    hash := sha(Preimage(keyID, secret));
    MintedKeyIsValid(idBytes, secretBytes);
    LengthAtMost(idBytes);
    LengthAtMost(secretBytes);
    display := DisplayPrefix(keyID);
  }

  /**
   The documented guarantee of 12 characters holds exactly from 62^11 on; twelve zero bytes give
   a key id of one character.
   */
  lemma KeyIdHasTwelveCharactersExactly(idBytes: seq<Byte>)
    ensures |Encoded(BytesValue(idBytes))| >= DISPLAY_PREFIX_LENGTH <==> BytesValue(idBytes) >= 52036560683837093888
  {
    Pow62Large();
    AtLeastExactly(BytesValue(idBytes), 12);
  }

  lemma {:induction false} ZeroBytesMakeShortKeyIds(n: nat)
    ensures BytesValue(seq(n, _ => 0 as Byte)) == 0 && |Encoded(BytesValue(seq(n, _ => 0 as Byte)))| == 1
  {
    var z := seq(n, _ => 0 as Byte);
    if n > 0 {
      ZeroBytesMakeShortKeyIds(n - 1);
      assert z[..n - 1] == seq(n - 1, _ => 0 as Byte);
    } else {
      assert z == [];
    }
  }
}
