/** Decimal numerals. */
module Numerals {
  function Digit(d: nat): char
    requires d < 10
  {
    '0' + d as char
  }

  /** `str(n)`. */
  function Decimal(n: nat): (s: string)
    ensures s != ""
  {
    if n < 10 then [Digit(n)] else Decimal(n / 10) + [Digit(n % 10)]
  }

  /** The last `width` digits of a number, with zeros in front. */
  function Padded(n: nat, width: nat): (s: string)
    ensures |s| == width
  {
    if width == 0 then "" else Padded(n / 10, width - 1) + [Digit(n % 10)]
  }

  function Parse(s: string): nat {
    if s == "" then 0 else
      var d := s[|s| - 1] as int - '0' as int;
      Parse(s[..|s| - 1]) * 10 + if 0 <= d < 10 then d else 0
  }

  lemma {:induction false} ParseDecimal(n: nat)
    ensures Parse(Decimal(n)) == n
  {
    if n < 10 {
      assert Decimal(n)[..0] == "";
    } else {
      ParseDecimal(n / 10);
      assert Decimal(n)[..|Decimal(n)| - 1] == Decimal(n / 10);
    }
  }

  lemma {:induction false} PaddedParse(s: string)
    requires forall k :: 0 <= k < |s| ==> '0' <= s[k] <= '9'
    ensures Padded(Parse(s), |s|) == s
  {
    if s != "" {
      var n := |s| - 1;
      PaddedParse(s[..n]);
      assert s == s[..n] + [s[n]];
    }
  }

  lemma {:induction false} PaddedDigits(n: nat, width: nat)
    ensures forall k :: 0 <= k < width ==> '0' <= Padded(n, width)[k] <= '9'
  {
    if width > 0 {
      PaddedDigits(n / 10, width - 1);
    }
  }
}
