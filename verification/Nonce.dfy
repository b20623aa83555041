/** Which nonces of the transaction table an int can be read from. */
module Nonce {
  import opened Model
  import opened Jobs
  import opened Format

  predicate Digits(s: string) {
    s != "" && forall i :: 0 <= i < |s| ==> '0' <= s[i] <= '9'
  }

  lemma {:induction false} DigitsParse(s: string)
    ensures ParseDigits(s).Some? <==> Digits(s)
    ensures Digits(s) ==> ParseDigits(s) == Some(Value(s))
  {
    if |s| == 1 {
      assert s[..0] == "";
    } else if s != "" {
      var p := s[..|s| - 1];
      assert s == p + [s[|s| - 1]];
      DigitsParse(p);
    }
  }

  /** An int is read exactly from an optional sign and digits that stand for a value of 64 bits. */
  lemma Int64Iff(s: string)
    ensures s == "" || (s[0] != '-' && s[0] != '+') ==>
      (IsInt64(s) <==> Digits(s) && Value(s) <= 9223372036854775807)
    ensures IsInt64("+" + s) <==> Digits(s) && Value(s) <= 9223372036854775807
    ensures IsInt64("-" + s) <==> Digits(s) && Value(s) <= 9223372036854775808
  {
    DigitsParse(s);
    assert ("+" + s)[1..] == s && ("-" + s)[1..] == s;
  }

  /** The text of an integer. */
  function IntText(n: int): string {
    if n < 0 then "-" + Decimal(-n) else Decimal(n)
  }

  lemma {:induction false} DecimalDigits(n: nat)
    ensures Digits(Decimal(n))
  {
    if n >= 10 { DecimalDigits(n / 10); }
  }

  /** So an integer nonce is read exactly if it fits 64 bits. */
  lemma IntNonceIff(n: int)
    ensures IsInt64(IntText(n)) <==> -9223372036854775808 <= n <= 9223372036854775807
  {
    var m := if n < 0 then -n else n;
    var s := Decimal(m);
    DecimalDigits(m);
    PrefixValue(m, |s|);
    assert s[0] != '-' && s[0] != '+';
    Int64Iff(s);
  }

  /** A row with an integer nonce can be read exactly if that fits, nothing is NULL, the
      time is finite and the kind one of the three. */
  lemma ReadableIff(t: Tx, n: int)
    requires t.nonce == IntText(n)
    ensures Scans(t) <==>
      && t.noNulls && t.finite && -9223372036854775808 <= n <= 9223372036854775807
      && (t.kind == Run || t.kind == Proof || t.kind == Verification)
  {
    IntNonceIff(n);
  }
}
