/** The message Ethereum wallets sign: a prefix, the length in decimal, and the message, with nothing
    between the last two. */
module EthWallet {
  import opened Arithmetic

  type Byte = x: nat | x < 256 witness 0

  const ZERO: Byte := 48

  /** 0x19, "Ethereum Signed Message:" and a newline, in ASCII. */
  const PREFIX: seq<Byte> :=
    [0x19, 69, 116, 104, 101, 114, 101, 117, 109, 32, 83, 105, 103, 110, 101, 100, 32, 77, 101, 115, 115, 97, 103,
     101, 58, 10]

  /** Decimal digits, most significant first; none for zero. */
  function Digits(n: nat): seq<Byte> {
    if n == 0 then [] else Digits(n / 10) + [ZERO + n % 10]
  }

  function Value(ds: seq<Byte>): int {
    if ds == [] then 0 else 10 * Value(ds[..|ds| - 1]) + (ds[|ds| - 1] - ZERO)
  }

  predicate Canonical(ds: seq<Byte>) {
    (forall i :: 0 <= i < |ds| ==> ZERO <= ds[i] <= ZERO + 9) && (ds != [] ==> ds[0] != ZERO)
  }

  /** The digits are decimal, without leading zeros, and denote the number. */
  lemma {:induction false} DigitsDenote(n: nat)
    ensures Canonical(Digits(n)) && Value(Digits(n)) == n
  {
    if n > 0 {
      var (front, last) := (Digits(n / 10), ZERO + n % 10);
      DigitsDenote(n / 10);
      assert Digits(n)[..|Digits(n)| - 1] == front;
      if n / 10 == 0 { assert front == []; }
    }
  }

  lemma {:induction false} CanonicalPositive(ds: seq<Byte>)
    requires Canonical(ds) && ds != []
    ensures Value(ds) > 0
  {
    if |ds| > 1 { CanonicalPositive(ds[..|ds| - 1]); }
  }

  /** They are the only such digits. */
  lemma {:induction false} DigitsUnique(ds: seq<Byte>)
    requires Canonical(ds)
    ensures Value(ds) >= 0 && Digits(Value(ds)) == ds
  {
    if ds != [] {
      var front := ds[..|ds| - 1];
      DigitsUnique(front);
      CanonicalPositive(ds);
      var d := ds[|ds| - 1] - ZERO;
      ModUnique(Value(ds), 10, Value(front), d);
      assert ds == front + [ds[|ds| - 1]];
    }
  }

  lemma {:induction false} LongerNumbersMoreDigits(m: nat, n: nat)
    requires m <= n
    ensures |Digits(m)| <= |Digits(n)|
  {
    if m > 0 { LongerNumbersMoreDigits(m / 10, n / 10); }
  }

  function Signable(what: seq<Byte>): seq<Byte> { PREFIX + Digits(|what|) + what }

  /** No two messages share an encoding, although nothing separates the length from the message. */
  lemma SignableInjective(a: seq<Byte>, b: seq<Byte>)
    requires Signable(a) == Signable(b)
    ensures a == b
  {
    SameLength(a, b);
    var header := PREFIX + Digits(|a|);
    assert a == Signable(a)[|header|..] && b == Signable(b)[|header|..];
  }

  lemma SameLength(a: seq<Byte>, b: seq<Byte>)
    requires |Signable(a)| == |Signable(b)|
    ensures |a| == |b|
  {
    if |a| < |b| {
      LongerNumbersMoreDigits(|a|, |b|);
    } else {
      LongerNumbersMoreDigits(|b|, |a|);
    }
  }

  /** Ordinary decimal notation, in which every number has a digit. */
  function Decimal(n: nat): seq<Byte> {
    if n < 10 then [ZERO + n] else Decimal(n / 10) + [ZERO + n % 10]
  }

  /** Version 0x45 of EIP-191: the prefix, the length in decimal, and the message. */
  function Eip191(what: seq<Byte>): seq<Byte> { PREFIX + Decimal(|what|) + what }

  lemma {:induction false} DecimalIsDigits(n: nat)
    requires 0 < n
    ensures Decimal(n) == Digits(n)
  {
    if n < 10 {
      assert Digits(n / 10) == [];
    } else {
      DecimalIsDigits(n / 10);
    }
  }

  /** The encoding is that of EIP-191 for every message but the empty one. */
  lemma MatchesEip191(what: seq<Byte>)
    ensures Signable(what) == Eip191(what) <==> what != []
  {
    if what == [] {
      assert |Signable(what)| != |Eip191(what)|;
    } else {
      DecimalIsDigits(|what|);
    }
  }

  function Reversed(s: seq<Byte>): seq<Byte> {
    if s == [] then [] else Reversed(s[1..]) + [s[0]]
  }

  lemma {:induction false} ReversedPush(s: seq<Byte>, b: Byte)
    ensures Reversed(s + [b]) == [b] + Reversed(s)
  {
    if s != [] {
      assert (s + [b])[1..] == s[1..] + [b];
      ReversedPush(s[1..], b);
    }
  }

  /** `signable_message`: collect the digits backwards, then put them in order. */
  method SignableMessage(what: seq<Byte>) returns (v: seq<Byte>)
    ensures v == Signable(what)
  {
    var l: nat, rev: seq<Byte> := |what|, [];
    while l > 0
      invariant Digits(l) + Reversed(rev) == Digits(|what|)
    {
      ReversedPush(rev, ZERO + l % 10);
      assert Digits(l / 10) + ([ZERO + l % 10] + Reversed(rev)) == Digits(l) + Reversed(rev);
      rev := rev + [ZERO + l % 10];
      l := l / 10;
    }
    v := PREFIX;
    v := v + Reversed(rev);
    v := v + what;
  }
}
