/** Playback tokens: Sign and Verify of internal/videoguard/signed_url.go. HMAC-SHA256
    (section 2 of RFC 2104) is an arbitrary function of secret and message; a Go string is
    a sequence of characters, one a byte. */
module SignedToken {
  import opened Wrappers

  type Byte = b: int | 0 <= b < 256 witness 0

  type Mac = (string, string) -> seq<Byte>

  const MIN_INT64 := -0x8000_0000_0000_0000
  const MAX_INT64 := 0x7fff_ffff_ffff_ffff

  type Int64 = x: int | MIN_INT64 <= x <= MAX_INT64 witness 0

  // ----- strconv and encoding/hex -----

  function Digit(d: nat): (c: char)
    requires d < 10
    ensures '0' <= c <= '9' && c as int - '0' as int == d
  {
    ('0' as int + d) as char
  }

  function Decimal(n: nat): string {
    if n < 10 then [Digit(n)] else Decimal(n / 10) + [Digit(n % 10)]
  }

  function FormatInt(x: int): string {
    if x < 0 then "-" + Decimal(-x) else Decimal(x)
  }

  /** The digits' value; None for the empty string or a byte that is no digit. */
  function Digits(s: string): Option<nat> {
    if s == [] then None
    else
      var c := s[|s|-1];
      if !('0' <= c <= '9') then None
      else if |s| == 1 then Some(c as int - '0' as int)
      else
        var high := Digits(s[..|s|-1]);
        if high.None? then None else Some(high.value * 10 + (c as int - '0' as int))
  }

  /** strconv.ParseInt(s, 10, 64) */
  function ParseInt(s: string): (r: Option<int>)
    ensures r.Some? ==> MIN_INT64 <= r.value <= MAX_INT64
  {
    if s == "" then None
    else
      var digits := Digits(if s[0] == '-' || s[0] == '+' then s[1..] else s);
      if digits.None? then None
      else
        var x: int := if s[0] == '-' then 0 - digits.value else digits.value;
        if MIN_INT64 <= x <= MAX_INT64 then Some(x) else None
  }

  const HEX_DIGITS := "0123456789abcdef"

  function Hex(bytes: seq<Byte>): string {
    if bytes == [] then "" else [HEX_DIGITS[bytes[0] / 16], HEX_DIGITS[bytes[0] % 16]] + Hex(bytes[1..])
  }

  /** strings.IndexByte */
  function IndexByte(s: string, c: char): (i: int)
    ensures -1 <= i < |s|
    ensures i >= 0 ==> s[i] == c && c !in s[..i]
    ensures i < 0 ==> c !in s
  {
    if s == "" then -1
    else if s[0] == c then 0
    else
      var i := IndexByte(s[1..], c);
      if i < 0 then -1
      else
        assert s[..i + 1] == [s[0]] + s[1..][..i];
        i + 1
  }

  // ----- Sign and Verify -----

  function Payload(user: string, recording: string, exp: string): string {
    user + "|" + recording + "|" + exp
  }

  function Sign(mac: Mac, secret: string, user: string, recording: string, exp: Int64): string {
    Hex(mac(secret, Payload(user, recording, FormatInt(exp)))) + "." + FormatInt(exp)
  }

  datatype Verdict = Accepted | MalformedToken | MalformedExp | Expired | Mismatch

  function Verify(mac: Mac, secret: string, user: string, recording: string, token: string, now: int): Verdict {
    var dot := IndexByte(token, '.');
    if dot < 0 then MalformedToken
    else
      var gotSig, expStr := token[..dot], token[dot + 1..];
      var expUnix := ParseInt(expStr);
      if expUnix.None? then MalformedExp
      else if now > expUnix.value then Expired
      else if Hex(mac(secret, Payload(user, recording, expStr))) != gotSig then Mismatch
      else Accepted
  }

  // ----- Formatting and parsing are inverse -----

  lemma {:induction false} DigitsOfDecimal(n: nat)
    ensures Digits(Decimal(n)) == Some(n)
    ensures Decimal(n) != [] && '0' <= Decimal(n)[0] <= '9'
  {
    if n >= 10 {
      DigitsOfDecimal(n / 10);
      assert Decimal(n)[..|Decimal(n)|-1] == Decimal(n / 10);
    }
  }

  lemma ParseFormat(x: Int64)
    ensures ParseInt(FormatInt(x)) == Some(x)
  {
    var y: int := x;
    DigitsOfDecimal(if y < 0 then -y else y);
    if y < 0 {
      assert FormatInt(y)[1..] == Decimal(-y);
    }
  }

  /** No leading zero but in "0" itself. */
  predicate Plain(s: string) {
    s != "" && (s[0] != '0' || s == "0")
  }

  /** No plus sign, no needless zero, no minus zero. */
  predicate Canonical(s: string) {
    if s != "" && s[0] == '-' then Plain(s[1..]) && s != "-0" else s != "" && s[0] != '+' && Plain(s)
  }

  lemma {:induction false} DecimalOfDigits(s: string)
    requires Digits(s).Some?
    ensures Decimal(Digits(s).value) == s <==> Plain(s)
    ensures Digits(s).value == 0 && Plain(s) ==> s == "0"
  {
    var n := Digits(s).value;
    if |s| == 1 {
      assert s == [s[0]];
    } else {
      var front := s[..|s|-1];
      DecimalOfDigits(front);
      assert s == front + [s[|s|-1]];
      if n < 10 {
        assert Digits(front).value == 0;
        assert Plain(front) ==> front == "0";
        assert |Decimal(n)| == 1;
      } else {
        assert n / 10 == Digits(front).value && n % 10 == s[|s|-1] as int - '0' as int;
        assert Decimal(n)[..|Decimal(n)|-1] == Decimal(n / 10);
        if Plain(front) {
          assert Decimal(n) == s;
          assert front == "0" ==> n < 10;
        }
      }
    }
  }

  /** A parsed expiry formats back to the text it came from exactly when that text is in
      canonical form. */
  lemma FormatParseIff(s: string)
    requires ParseInt(s).Some?
    ensures FormatInt(ParseInt(s).value) == s <==> Canonical(s)
  {
    var x := ParseInt(s).value;
    var rest := if s[0] == '-' || s[0] == '+' then s[1..] else s;
    DecimalOfDigits(rest);
    DigitsOfDecimal(if x < 0 then -x else x);
    if s[0] == '-' {
      assert s == "-" + rest;
      if x < 0 {
        assert FormatInt(x)[1..] == Decimal(-x);
      } else {
        assert rest == "0" ==> s == "-0";
      }
    }
  }

  // ----- Tokens -----

  lemma {:induction false} HexHasNoDot(bytes: seq<Byte>)
    ensures '.' !in Hex(bytes) && |Hex(bytes)| == 2 * |bytes|
  {
    if bytes != [] {
      HexHasNoDot(bytes[1..]);
    }
  }

  /** The value of a hexadecimal digit in lower case. */
  function Nibble(c: char): int {
    if c < 'a' then c as int - 48 else c as int - 97 + 10
  }

  function Unhex(s: string): seq<int> {
    if |s| < 2 then [] else [16 * Nibble(s[0]) + Nibble(s[1])] + Unhex(s[2..])
  }

  /** Two lower-case digits a byte, the high one first. */
  lemma {:induction false} UnhexHex(bytes: seq<Byte>)
    ensures Unhex(Hex(bytes)) == bytes
    ensures forall c :: c in Hex(bytes) ==> 48 <= c as int <= 57 || 97 <= c as int <= 102
  {
    if bytes != [] {
      UnhexHex(bytes[1..]);
      var b := bytes[0];
      NibbleOf(b / 16);
      NibbleOf(b % 16);
      assert Hex(bytes)[2..] == Hex(bytes[1..]);
    }
  }

  lemma NibbleOf(i: nat)
    requires i < 16
    ensures Nibble(HEX_DIGITS[i]) == i
    ensures 48 <= HEX_DIGITS[i] as int <= 57 || 97 <= HEX_DIGITS[i] as int <= 102
  {
  }

  lemma {:induction false} HexInjective(a: seq<Byte>, b: seq<Byte>)
    requires Hex(a) == Hex(b)
    ensures a == b
  {
    HexHasNoDot(a);
    HexHasNoDot(b);
    if a != [] {
      var x, y := Hex(a), Hex(b);
      assert x[0] == y[0] && x[1] == y[1] && x[2..] == Hex(a[1..]) && y[2..] == Hex(b[1..]);
      HexInjective(a[1..], b[1..]);
      DigitsDiffer(a[0] / 16, b[0] / 16);
      DigitsDiffer(a[0] % 16, b[0] % 16);
    }
  }

  lemma DigitsDiffer(i: nat, j: nat)
    requires i < 16 && j < 16 && HEX_DIGITS[i] == HEX_DIGITS[j]
    ensures i == j
  {
  }

  /** IndexByte finds the end of a prefix without the byte. */
  lemma Cut(prefix: string, c: char, rest: string)
    requires c !in prefix
    ensures var s := prefix + [c] + rest;
            IndexByte(s, c) == |prefix| && s[..|prefix|] == prefix && s[|prefix| + 1..] == rest
  {
    var s := prefix + [c] + rest;
    var i := IndexByte(s, c);
    assert s[|prefix|] == c && forall k :: 0 <= k < |prefix| ==> s[k] == prefix[k];
    assert forall k :: 0 <= k < i ==> s[k] in s[..i];
  }

  /** A text is a 64-bit decimal exactly when, after an optional sign, it has digits and no
      more, and their value is in range. */
  lemma ParsesIff(s: string)
    ensures ParseInt(s).Some? <==>
            && s != "" && Digits(Unsigned(s)).Some?
            && if s[0] == '-' then Digits(Unsigned(s)).value <= 9223372036854775808
               else Digits(Unsigned(s)).value <= 9223372036854775807
  {
  }

  function Unsigned(s: string): string {
    if s != "" && (s[0] == '-' || s[0] == '+') then s[1..] else s
  }

  lemma {:induction false} DigitsIff(s: string)
    ensures Digits(s).Some? <==> s != "" && forall i :: 0 <= i < |s| ==> 48 <= s[i] as int <= 57
  {
    if s != "" {
      DigitsIff(s[..|s|-1]);
    }
  }

  /** Sign spells out the user, the recording and the expiry it signs, in that order. */
  lemma SignSpells(mac: Mac, secret: string, user: string, recording: string, exp: Int64, now: int)
    requires now <= exp
    ensures Spells(mac, secret, user, recording, Sign(mac, secret, user, recording, exp), now, FormatInt(exp))
  {
    ParseFormat(exp);
  }

  /** Verify accepts what Sign made, for the same secret and identifiers, exactly while
      the expiry has not passed. */
  lemma RoundTrip(mac: Mac, secret: string, user: string, recording: string, exp: Int64, now: int)
    ensures Verify(mac, secret, user, recording, Sign(mac, secret, user, recording, exp), now)
         == if now <= exp then Accepted else Expired
  {
    var sig := mac(secret, Payload(user, recording, FormatInt(exp)));
    HexHasNoDot(sig);
    Cut(Hex(sig), '.', FormatInt(exp));
    ParseFormat(exp);
  }

  /** The verdict on any token with a dot, by what stands before and after the first one;
      only a token without a dot is malformed as a token. */
  lemma VerdictOf(mac: Mac, secret: string, user: string, recording: string, sig: string, exp: string, now: int)
    requires '.' !in sig
    ensures Verify(mac, secret, user, recording, sig + "." + exp, now)
         == (match ParseInt(exp)
             case None => MalformedExp
             case Some(t) =>
               if t < now then Expired
               else if sig == Hex(mac(secret, Payload(user, recording, exp))) then Accepted
               else Mismatch)
    ensures Verify(mac, secret, user, recording, sig, now) == MalformedToken
  {
    Cut(sig, '.', exp);
  }

  ghost predicate Spells(mac: Mac, secret: string, user: string, recording: string, token: string, now: int,
                         exp: string)
  {
    && token == Hex(mac(secret, user + "|" + recording + "|" + exp)) + "." + exp
    && ParseInt(exp).Some? && now <= ParseInt(exp).value
  }

  /** Exactly the accepted tokens: the hexadecimal digest of the payload, a dot, and the
      expiry text of that very payload, which is a decimal number that has not passed. */
  lemma AcceptedIff(mac: Mac, secret: string, user: string, recording: string, token: string, now: int)
    ensures Verify(mac, secret, user, recording, token, now) == Accepted
       <==> exists exp :: Spells(mac, secret, user, recording, token, now, exp)
  {
    if exp :| Spells(mac, secret, user, recording, token, now, exp) {
      var sig := mac(secret, Payload(user, recording, exp));
      HexHasNoDot(sig);
      Cut(Hex(sig), '.', exp);
    }
    if Verify(mac, secret, user, recording, token, now) == Accepted {
      var dot := IndexByte(token, '.');
      assert token == token[..dot] + "." + token[dot + 1..];
      assert Spells(mac, secret, user, recording, token, now, token[dot + 1..]);
    }
  }

  /** An accepted token is the output of Sign exactly when its expiry is written the way
      Sign writes it. */
  lemma AcceptedIsSignedIff(mac: Mac, secret: string, user: string, recording: string, token: string, now: int)
    requires Verify(mac, secret, user, recording, token, now) == Accepted
    ensures (exists exp: Int64 :: token == Sign(mac, secret, user, recording, exp))
       <==> Canonical(token[IndexByte(token, '.') + 1..])
  {
    var dot := IndexByte(token, '.');
    var text := token[dot + 1..];
    assert token == token[..dot] + "." + text;
    FormatParseIff(text);
    if exp: Int64 :| token == Sign(mac, secret, user, recording, exp) {
      var sig := mac(secret, Payload(user, recording, FormatInt(exp)));
      HexHasNoDot(sig);
      Cut(Hex(sig), '.', FormatInt(exp));
      ParseFormat(exp);
    }
    if Canonical(text) {
      var exp: Int64 := ParseInt(text).value;
      assert token == Sign(mac, secret, user, recording, exp);
    }
  }

  /** Identifiers without a bar, as UUIDs are, make different payloads. */
  lemma PayloadInjective(user: string, recording: string, exp: string, user': string, recording': string, exp': string)
    requires '|' !in user && '|' !in user' && '|' !in recording && '|' !in recording'
    requires Payload(user, recording, exp) == Payload(user', recording', exp')
    ensures user == user' && recording == recording' && exp == exp'
  {
    assert Payload(user, recording, exp) == user + ['|'] + (recording + ['|'] + exp);
    assert Payload(user', recording', exp') == user' + ['|'] + (recording' + ['|'] + exp');
    Cut(user, '|', recording + ['|'] + exp);
    Cut(user', '|', recording' + ['|'] + exp');
    Cut(recording, '|', exp);
    Cut(recording', '|', exp');
  }

  /** A token accepted for two different viewers or recordings would be two different
      payloads with one digest. */
  lemma SharedTokenIsCollision(mac: Mac, secret: string, token: string, now: int,
                               user: string, recording: string, user': string, recording': string)
    requires '|' !in user && '|' !in user' && '|' !in recording && '|' !in recording'
    requires user != user' || recording != recording'
    requires Verify(mac, secret, user, recording, token, now) == Accepted
    requires Verify(mac, secret, user', recording', token, now) == Accepted
    ensures var exp := token[IndexByte(token, '.') + 1..];
            && Payload(user, recording, exp) != Payload(user', recording', exp)
            && mac(secret, Payload(user, recording, exp)) == mac(secret, Payload(user', recording', exp))
  {
    var exp := token[IndexByte(token, '.') + 1..];
    if Payload(user, recording, exp) == Payload(user', recording', exp) {
      PayloadInjective(user, recording, exp, user', recording', exp);
    }
    HexInjective(mac(secret, Payload(user, recording, exp)), mac(secret, Payload(user', recording', exp)));
  }
}
