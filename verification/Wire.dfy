/** common.py: the identifier and nonce patterns, and the exact text that both parties sign.

    Every field that passes the patterns is ASCII, so encoding the text to bytes is the identity
    on characters and the text stands for the bytes. */
module Wire {
  import opened Prelude
  import opened Text

  const PROTO := "remote-unlock/v2"
  const CHALLENGE := "challenge"
  const RESPONSE := "response"
  const MAX_SIG_HEX := 200

  predicate IsIdStart(c: char) {
    'a' <= c <= 'z' || IsDigit(c)
  }

  predicate IsId(s: string) {
    && 1 <= |s| <= 63
    && IsIdStart(s[0])
    && forall c <- s :: IsIdStart(c) || c == '-'
  }

  predicate IsHex(c: char) {
    IsDigit(c) || 'a' <= c <= 'f'
  }

  predicate IsNonce(s: string) {
    |s| == 32 && forall c <- s :: IsHex(c)
  }

  // A pattern ending in `$` also matches just before one trailing newline.
  predicate MatchesId(s: string) {
    IsId(s) || (s != "" && s[|s| - 1] == '\n' && IsId(s[..|s| - 1]))
  }

  predicate MatchesNonce(s: string) {
    IsNonce(s) || (s != "" && s[|s| - 1] == '\n' && IsNonce(s[..|s| - 1]))
  }

  // None stands for the ValueError raised on a bad role, nonce or identifier.
  function SignedMessage(role: string, nonce: string, issuedMs: int, device: string, target: string)
    : Option<string>
  {
    if role != CHALLENGE && role != RESPONSE then None
    else if !MatchesNonce(nonce) then None
    else if !MatchesId(device) || !MatchesId(target) then None
    else Some(PROTO + "|" + role + "|" + nonce + "|" + Decimal(issuedMs) + "|" + device + "|" + target + "|unlock")
  }

  datatype Fields = Fields(role: string, nonce: string, issuedMs: int, device: string, target: string)

  // A reader of the signed text that knows nothing but the separator and the fixed first and last field.
  function ReadMessage(m: string): Option<Fields> {
    var f := Split(m, '|');
    if |f| != 7 || f[0] != "remote-unlock/v2" || f[6] != "unlock" then None
    else Some(Fields(f[1], f[2], ReadDecimal(f[3]), f[4], f[5]))
  }

  lemma {:induction false} NoSeparator(s: string)
    requires MatchesId(s) || MatchesNonce(s)
    ensures '|' !in s
  {
    if !IsId(s) && !IsNonce(s) {
      assert s == s[..|s| - 1] + ['\n'];
    }
  }

  lemma {:induction false} JoinCons(head: string, rest: seq<string>)
    requires rest != []
    ensures Join([head] + rest, '|') == head + "|" + Join(rest, '|')
  {
    assert ([head] + rest)[1..] == rest;
  }

  lemma {:induction false} JoinThree(e: string, f: string, g: string)
    ensures Join([e, f, g], '|') == e + "|" + (f + "|" + g)
  {
    assert [f, g] == [f] + [g] && [e, f, g] == [e] + [f, g];
    JoinCons(f, [g]);
    JoinCons(e, [f, g]);
  }

  lemma {:induction false} JoinFive(c: string, d: string, e: string, f: string, g: string)
    ensures Join([c, d, e, f, g], '|') == c + "|" + (d + "|" + (e + "|" + (f + "|" + g)))
  {
    assert [d, e, f, g] == [d] + [e, f, g] && [c, d, e, f, g] == [c] + [d, e, f, g];
    JoinThree(e, f, g);
    JoinCons(d, [e, f, g]);
    JoinCons(c, [d, e, f, g]);
  }

  lemma {:induction false} JoinSeven(a: string, b: string, c: string, d: string, e: string, f: string, g: string)
    ensures Join([a, b, c, d, e, f, g], '|')
            == a + "|" + b + "|" + c + "|" + d + "|" + e + "|" + f + "|" + g
  {
    var five := [c, d, e, f, g];
    assert [b] + five == [b, c, d, e, f, g] && [a] + ([b] + five) == [a, b, c, d, e, f, g];
    JoinFive(c, d, e, f, g);
    JoinCons(b, five);
    JoinCons(a, [b] + five);
  }

  function Parts(role: string, nonce: string, issuedMs: int, device: string, target: string): seq<string> {
    [PROTO, role, nonce, Decimal(issuedMs), device, target, "unlock"]
  }

  lemma {:induction false} SignedJoins(role: string, nonce: string, issuedMs: int, device: string, target: string)
    requires SignedMessage(role, nonce, issuedMs, device, target).Some?
    ensures SignedMessage(role, nonce, issuedMs, device, target).value
            == Join(Parts(role, nonce, issuedMs, device, target), '|')
  {
    JoinSeven(PROTO, role, nonce, Decimal(issuedMs), device, target, "unlock");
  }

  lemma {:induction false} ConstantsSeparate()
    ensures '|' !in PROTO && '|' !in CHALLENGE && '|' !in RESPONSE && '|' !in "unlock"
  {
  }

  lemma {:induction false} NumberSeparate(n: int)
    ensures '|' !in Decimal(n)
  {
    DecimalReads(n);
  }

  lemma {:induction false} PartsSeparate(role: string, nonce: string, issuedMs: int, device: string, target: string)
    requires SignedMessage(role, nonce, issuedMs, device, target).Some?
    ensures forall f <- Parts(role, nonce, issuedMs, device, target) :: '|' !in f
  {
    NoSeparator(nonce);
    NoSeparator(device);
    NoSeparator(target);
    ConstantsSeparate();
    NumberSeparate(issuedMs);
  }

  // Unique readability: the signed text determines every field it was built from.
  lemma {:induction false} ReadsBack(role: string, nonce: string, issuedMs: int, device: string, target: string)
    requires SignedMessage(role, nonce, issuedMs, device, target).Some?
    ensures ReadMessage(SignedMessage(role, nonce, issuedMs, device, target).value)
            == Some(Fields(role, nonce, issuedMs, device, target))
  {
    SignedJoins(role, nonce, issuedMs, device, target);
    PartsSeparate(role, nonce, issuedMs, device, target);
    SplitJoin(Parts(role, nonce, issuedMs, device, target), '|');
    DecimalReads(issuedMs);
  }

  // Equal signed bytes come from equal fields; in particular no challenge text is a response text.
  lemma {:induction false} SignedBytesInjective(a: Fields, b: Fields)
    requires SignedMessage(a.role, a.nonce, a.issuedMs, a.device, a.target).Some?
    requires SignedMessage(a.role, a.nonce, a.issuedMs, a.device, a.target)
             == SignedMessage(b.role, b.nonce, b.issuedMs, b.device, b.target)
    ensures a == b
  {
    ReadsBack(a.role, a.nonce, a.issuedMs, a.device, a.target);
    ReadsBack(b.role, b.nonce, b.issuedMs, b.device, b.target);
  }

  const ALPHANUMERIC := "abcdefghijklmnopqrstuvwxyz0123456789"

  lemma {:induction false} AlphanumericExactly(c: char)
    ensures IsIdStart(c) <==> c in ALPHANUMERIC
  {
    var s := ALPHANUMERIC;
    if IsIdStart(c) {
      var k := if IsDigit(c) then 26 + c as int - '0' as int else c as int - 'a' as int;
      LetterAt(k);
      assert s[k] == c;
    } else if c in s {
      var k :| 0 <= k < |s| && s[k] == c;
      LetterAt(k);
    }
  }

  lemma {:induction false} LetterAt(k: nat)
    requires k < 36
    ensures ALPHANUMERIC[k] as int == if k < 26 then 'a' as int + k else '0' as int + k - 26
  {
  }

  // The text that a pattern is about: without the one newline that `$` lets through.
  function Core(s: string): string {
    if s != "" && s[|s| - 1] == '\n' then s[..|s| - 1] else s
  }

  // The identifier pattern, by its alphabet and its length.
  lemma {:induction false} IdPattern(s: string)
    ensures MatchesId(s) <==>
              var core := Core(s);
              && 1 <= |core| <= 63 && core[0] in ALPHANUMERIC
              && forall c <- core :: c in ALPHANUMERIC + "-"
  {
    forall c: char
      ensures IsIdStart(c) <==> c in ALPHANUMERIC
      ensures c in ALPHANUMERIC + "-" <==> IsIdStart(c) || c == '-'
    {
      AlphanumericExactly(c);
    }
    if s != "" && s[|s| - 1] == '\n' {
      assert s[|s| - 1] in s;
    }
  }

  lemma {:induction false} NoncePattern(s: string)
    ensures MatchesNonce(s) <==> |Core(s)| == 32 && forall c <- Core(s) :: c in "0123456789abcdef"
  {
    forall c: char
      ensures IsHex(c) <==> c in "0123456789abcdef"
    {
      HexExactly(c);
    }
    if s != "" && s[|s| - 1] == '\n' {
      assert s[|s| - 1] in s;
    }
  }

  lemma {:induction false} HexExactly(c: char)
    ensures IsHex(c) <==> c in "0123456789abcdef"
  {
    var s := "0123456789abcdef";
    if IsHex(c) {
      var k := if IsDigit(c) then c as int - '0' as int else 10 + c as int - 'a' as int;
      assert s[k] == c;
    }
  }

  // What can be signed: one of the two roles, and a nonce and identifiers in the alphabets given.
  lemma {:induction false} SignsExactly(role: string, nonce: string, issuedMs: int, device: string, target: string)
    ensures SignedMessage(role, nonce, issuedMs, device, target).Some? <==>
              && (role == "challenge" || role == "response")
              && MatchesNonce(nonce) && MatchesId(device) && MatchesId(target)
  {
  }
}
