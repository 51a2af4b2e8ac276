/** Small building blocks shared by the lineage, graph and metric modules. */
module Base {

  /** A value that may be absent: the model's stand-in for a Java reference that may be null. */
  datatype Option<T> = None | Some(value: T)

  predicate IsDigit(c: char) {
    '0' <= c <= '9'
  }

  predicate AllDigits(s: string) {
    forall i :: 0 <= i < |s| ==> IsDigit(s[i])
  }

  function DigitChar(d: nat): (c: char)
    requires d < 10
    ensures IsDigit(c)
  {
    ['0', '1', '2', '3', '4', '5', '6', '7', '8', '9'][d]
  }

  function DigitValue(c: char): (d: nat)
    requires IsDigit(c)
    ensures d < 10
  {
    (c as int - '0' as int) as nat
  }

  /** Decimal rendering of a non-negative int, as Java's string concatenation prints it. */
  function NatToString(n: nat): (s: string)
    ensures |s| > 0 && AllDigits(s)
  {
    if n < 10 then [DigitChar(n)] else NatToString(n / 10) + [DigitChar(n % 10)]
  }

  /** Reads a decimal numeral back. */
  function ParseNat(s: string): nat
    requires AllDigits(s)
  {
    if s == [] then 0 else ParseNat(s[..|s| - 1]) * 10 + DigitValue(s[|s| - 1])
  }

  lemma DigitRoundTrip(d: nat)
    requires d < 10
    ensures DigitValue(DigitChar(d)) == d
  {
  }

  /** Reading back what NatToString printed gives the number again. */
  lemma {:induction false} ParseNatToString(n: nat)
    ensures ParseNat(NatToString(n)) == n
  {
    var s := NatToString(n);
    if n < 10 {
      DigitRoundTrip(n);
      assert s[..|s| - 1] == [];
    } else {
      assert s[..|s| - 1] == NatToString(n / 10);
      ParseNatToString(n / 10);
      DigitRoundTrip(n % 10);
    }
  }

  lemma NatToStringInjective(a: nat, b: nat)
    requires NatToString(a) == NatToString(b)
    ensures a == b
  {
    ParseNatToString(a);
    ParseNatToString(b);
  }

  /** The key "revisionIdx fileIdx" under which a file version is registered. */
  function LocId(revIdx: nat, fileIdx: nat): string {
    NatToString(revIdx) + " " + NatToString(fileIdx)
  }

  /** Two file versions get the same key only when both of their indices agree. */
  lemma {:induction false} LocIdInjective(r1: nat, f1: nat, r2: nat, f2: nat)
    ensures LocId(r1, f1) == LocId(r2, f2) <==> r1 == r2 && f1 == f2
  {
    if LocId(r1, f1) == LocId(r2, f2) {
      var a, c := NatToString(r1), NatToString(r2);
      var s := LocId(r1, f1);
      assert s == a + " " + NatToString(f1);
      assert s == c + " " + NatToString(f2);
      assert s[|a|] == ' ' && s[|c|] == ' ';
      assert |a| == |c|;
      assert a == s[..|a|] == c;
      assert NatToString(f1) == s[|a| + 1..] == NatToString(f2);
      NatToStringInjective(r1, r2);
      NatToStringInjective(f1, f2);
    }
  }
}
