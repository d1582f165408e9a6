/**
 The key of a target's bucket: host and port joined, with brackets around a host that contains a
 colon.  Two targets share a bucket only if they are the same target.
 */
module TargetKey {

  function Digit(d: nat): (c: char)
    requires d < 10
    ensures c != ':'
  {
    "0123456789"[d]
  }

  // A port in decimal.
  function Decimal(n: nat): string {
    if n < 10 then [Digit(n)] else Decimal(n / 10) + [Digit(n % 10)]
  }

  function JoinHostPort(host: string, port: nat): string {
    if ':' in host then "[" + host + "]:" + Decimal(port) else host + ":" + Decimal(port)
  }

  lemma {:induction false} DecimalHasNoColon(n: nat)
    ensures Decimal(n) != [] && ':' !in Decimal(n)
  {
    if n >= 10 {
      DecimalHasNoColon(n / 10);
    }
  }

  // The number that a decimal text says.
  function Number(s: string): nat {
    if s == "" then 0
    else
      var last := s[|s| - 1];
      10 * Number(s[..|s| - 1]) + if '0' <= last <= '9' then last as int - '0' as int else 0
  }

  /** A number's decimal text has digits only, no leading zero, and says the number. */
  lemma {:induction false} DecimalSaysNumber(n: nat)
    ensures Number(Decimal(n)) == n
    ensures forall i :: 0 <= i < |Decimal(n)| ==> '0' <= Decimal(n)[i] <= '9'
    ensures n > 0 ==> Decimal(n)[0] != '0'
  {
    DecimalHasNoColon(n / 10);
    if n >= 10 {
      DecimalSaysNumber(n / 10);
      assert Decimal(n)[..|Decimal(n)| - 1] == Decimal(n / 10);
    }
  }

  // What follows the last colon is determined, and so is what precedes it.
  lemma SplitAtLastColon(a: string, s: string, b: string, t: string)
    requires a + ":" + s == b + ":" + t && ':' !in s && ':' !in t
    ensures a == b && s == t
  {
    var whole := a + ":" + s;
    assert whole[|a|] == ':' && whole[|b|] == ':';
    assert forall i :: |a| < i < |whole| ==> whole[i] == s[i - |a| - 1];
    assert forall i :: |b| < i < |whole| ==> whole[i] == t[i - |b| - 1];
    assert |a| == |b|;
    assert a == whole[..|a|] && b == whole[..|b|];
    assert s == whole[|a| + 1..] && t == whole[|b| + 1..];
  }

  /** A key is the host, in brackets if it has a colon in it, a colon, and the port's decimal digits. */
  lemma KeyReads(host: string, port: nat) returns (digits: string)
    ensures JoinHostPort(host, port) == (if ':' in host then "[" + host + "]" else host) + ":" + digits
    ensures Number(digits) == port && forall i :: 0 <= i < |digits| ==> '0' <= digits[i] <= '9'
    ensures port > 0 ==> digits != "" && digits[0] != '0'
  {
    digits := Decimal(port);
    DecimalSaysNumber(port);
    DecimalHasNoColon(port);
    assert ':' in host ==> "[" + host + "]:" + digits == "[" + host + "]" + ":" + digits;
  }

  /** Different targets have different keys, whatever the host strings are. */
  lemma KeyNamesItsTarget(host: string, port: nat, other: string, otherPort: nat)
    requires JoinHostPort(host, port) == JoinHostPort(other, otherPort)
    ensures host == other && port == otherPort
  {
    var a := if ':' in host then "[" + host + "]" else host;
    var b := if ':' in other then "[" + other + "]" else other;
    DecimalHasNoColon(port);
    DecimalHasNoColon(otherPort);
    assert JoinHostPort(host, port) == a + ":" + Decimal(port);
    assert JoinHostPort(other, otherPort) == b + ":" + Decimal(otherPort);
    SplitAtLastColon(a, Decimal(port), b, Decimal(otherPort));
    DecimalSaysNumber(port);
    DecimalSaysNumber(otherPort);
    assert ':' in host ==> ':' in a;
    assert ':' in other ==> ':' in b;
    if ':' in host {
      assert host == a[1..|a| - 1] && other == b[1..|b| - 1];
    }
  }
}
