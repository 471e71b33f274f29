/**
 * Network-level values the gateway handles: 16-bit TCP ports, IPv4 addresses
 * and the decimal text of a port, as `u16::to_string` writes it and as the
 * echo backend parses it back from its command line.
 */
module Net {

  /** A Rust `u16`. */
  type Port = x: int | 0 <= x < 0x1_0000

  /** `AtomicU16::fetch_add(1)`: the stored value after the add wraps modulo 2^16. */
  function WrappingIncrement(p: Port): (q: Port)
    ensures p < 0xFFFF ==> q == p + 1
    ensures p == 0xFFFF ==> q == 0
  {
    (p + 1) % 0x1_0000
  }

  /** An IPv4 address, `Ipv4Addr::new(a, b, c, d)`. */
  datatype IpAddr = V4(a: int, b: int, c: int, d: int)

  const Localhost: IpAddr := V4(127, 0, 0, 1)
  const Unspecified: IpAddr := V4(0, 0, 0, 0)

  predicate IsDigit(c: char) { '0' <= c <= '9' }

  predicate AllDigits(s: string) { forall i :: 0 <= i < |s| ==> IsDigit(s[i]) }

  function DigitChar(d: nat): (c: char)
    requires d < 10
    ensures IsDigit(c)
  {
    (48 + d) as char
  }

  function DigitValue(c: char): (d: nat)
    requires IsDigit(c)
    ensures d < 10
  {
    (c as int) - 48
  }

  /** The decimal text of `n`, most significant digit first, no leading zero. */
  function Dec(n: nat): (s: string)
    ensures |s| > 0
    ensures |s| == 1 <==> n < 10
    decreases n
  {
    if n < 10 then [DigitChar(n)] else Dec(n / 10) + [DigitChar(n % 10)]
  }

  /**
   * The value of a string of decimal digits: the reference definition that
   * `ParseDecOfDec` reads `Dec` back with. The echo backend's `s.parse()`
   * also accepts a leading sign and rejects the empty string; neither case
   * arises for the text `Dec` writes.
   */
  function ParseDec(s: string): (n: nat)
    requires AllDigits(s)
    decreases |s|
  {
    if s == [] then 0 else ParseDec(s[..|s| - 1]) * 10 + DigitValue(s[|s| - 1])
  }

  /** `Dec` is a well-formed numeral: non-empty, all digits, no leading zero. */
  lemma {:induction false} DecWellFormed(n: nat)
    ensures |Dec(n)| > 0 && AllDigits(Dec(n))
    ensures |Dec(n)| > 1 ==> Dec(n)[0] != '0'
    decreases n
  {
    if n >= 10 {
      DecWellFormed(n / 10);
      var s := Dec(n / 10);
      assert Dec(n) == s + [DigitChar(n % 10)];
      assert Dec(n)[0] == s[0];
      if |s| == 1 {
        assert s == [DigitChar(n / 10)];
        assert n / 10 != 0;
      }
    }
  }

  /** Parsing the decimal text of a number gives that number back. */
  lemma {:induction false} ParseDecOfDec(n: nat)
    ensures AllDigits(Dec(n)) && ParseDec(Dec(n)) == n
    decreases n
  {
    DecWellFormed(n);
    if n >= 10 {
      ParseDecOfDec(n / 10);
      var s := Dec(n);
      assert s[..|s| - 1] == Dec(n / 10);
    }
  }

  /** Distinct numbers have distinct decimal texts. */
  lemma DecInjective(m: nat, n: nat)
    requires Dec(m) == Dec(n)
    ensures m == n
  {
    ParseDecOfDec(m);
    ParseDecOfDec(n);
  }
}
