/** Text primitives: Python's decimal printing of integers, and splitting on a separator. */
module Text {

  predicate IsDigit(c: char) {
    '0' <= c <= '9'
  }

  function Digit(d: nat): char
    requires d < 10
  {
    ('0' as int + d) as char
  }

  function DecimalNat(n: nat): string {
    if n < 10 then [Digit(n)] else DecimalNat(n / 10) + [Digit(n % 10)]
  }

  // str(n) for an integer n.
  function Decimal(n: int): string {
    if n < 0 then "-" + DecimalNat(-n) else DecimalNat(n)
  }

  function DigitValue(c: char): nat {
    if IsDigit(c) then c as int - '0' as int else 0
  }

  function ReadNat(s: string): nat {
    if s == "" then 0 else 10 * ReadNat(s[..|s| - 1]) + DigitValue(s[|s| - 1])
  }

  function ReadDecimal(s: string): int {
    if s != "" && s[0] == '-' then 0 - ReadNat(s[1..]) else ReadNat(s)
  }

  lemma {:induction false} DecimalNatReads(n: nat)
    ensures ReadNat(DecimalNat(n)) == n
    ensures DecimalNat(n) != "" && forall c <- DecimalNat(n) :: IsDigit(c)
    ensures |DecimalNat(n)| > 1 ==> DecimalNat(n)[0] != '0'
  {
    if n >= 10 {
      DecimalNatReads(n / 10);
      var s := DecimalNat(n / 10);
      assert DecimalNat(n)[..|s|] == s;
      if n / 10 < 10 {
        assert DecimalNat(n)[0] == Digit(n / 10);
      } else {
        assert DecimalNat(n)[0] == s[0];
      }
    } else {
      assert DecimalNat(n)[..0] == "";
    }
  }

  lemma {:induction false} DecimalReads(n: int)
    ensures ReadDecimal(Decimal(n)) == n
    ensures Decimal(n) != "" && forall c <- Decimal(n) :: IsDigit(c) || c == '-'
  {
    if n < 0 {
      DecimalNatReads(-n);
      assert Decimal(n)[1..] == DecimalNat(-n);
    } else {
      DecimalNatReads(n);
      assert IsDigit(DecimalNat(n)[0]);
    }
  }

  // Index of the first separator, or the length when there is none.
  function IndexOf(s: string, sep: char): (k: nat)
    ensures k <= |s|
    ensures k < |s| ==> s[k] == sep
    ensures sep !in s[..k]
  {
    if s == "" || s[0] == sep then 0 else
    var k := 1 + IndexOf(s[1..], sep);
    assert s[..k] == [s[0]] + s[1..][..k - 1];
    k
  }

  // s.split(sep)
  function Split(s: string, sep: char): seq<string>
    decreases |s|
  {
    var k := IndexOf(s, sep);
    if k == |s| then [s] else [s[..k]] + Split(s[k + 1..], sep)
  }

  // sep.join(fields)
  function Join(fields: seq<string>, sep: char): string
    requires fields != []
  {
    if |fields| == 1 then fields[0] else fields[0] + [sep] + Join(fields[1..], sep)
  }

  lemma {:induction false} FirstSeparator(head: string, tail: string, sep: char)
    requires sep !in head
    ensures IndexOf(head + [sep] + tail, sep) == |head|
  {
    var s := head + [sep] + tail;
    var k := IndexOf(s, sep);
    assert s[|head|] == sep;
    assert forall i | 0 <= i < |head| :: s[i] == head[i];
    assert forall i | 0 <= i < k :: s[..k][i] == s[i];
  }

  lemma {:induction false} SplitFirst(head: string, tail: string, sep: char)
    requires sep !in head
    ensures Split(head + [sep] + tail, sep) == [head] + Split(tail, sep)
  {
    FirstSeparator(head, tail, sep);
    var s, k := head + [sep] + tail, |head|;
    assert s[..k] == head && s[k + 1..] == tail;
  }

  lemma {:induction false} SplitOne(s: string, sep: char)
    requires sep !in s
    ensures Split(s, sep) == [s]
  {
    assert IndexOf(s, sep) == |s|;
  }

  lemma {:induction false} SplitJoin(fields: seq<string>, sep: char)
    requires fields != [] && forall f <- fields :: sep !in f
    ensures Split(Join(fields, sep), sep) == fields
  {
    assert fields[0] in fields && fields == [fields[0]] + fields[1..];
    if |fields| == 1 {
      SplitOne(fields[0], sep);
      assert fields == [fields[0]];
    } else {
      SplitJoin(fields[1..], sep);
      SplitFirst(fields[0], Join(fields[1..], sep), sep);
    }
  }
}
