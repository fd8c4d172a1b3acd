/** Decimal printing and parsing of integers, as Go's strconv.Itoa, big.Int.String and
    big.Int.SetString(_, 10) do it. Slugs, inventory keys and payout amounts all go through it. */
module Decimals {
  import opened Wrappers

  function Digit(d: nat): char
    requires d < 10
  {
    '0' + d as char
  }

  predicate IsDigit(c: char) {
    '0' <= c <= '9'
  }

  function PrintNat(n: nat): (s: string)
    ensures |s| > 0
    ensures forall i :: 0 <= i < |s| ==> IsDigit(s[i])
  {
    if n < 10 then [Digit(n)] else PrintNat(n / 10) + [Digit(n % 10)]
  }

  function Print(n: int): string {
    if n < 0 then "-" + PrintNat(-n) else PrintNat(n)
  }

  /** The value of a non-empty run of digits. */
  function ParseNat(s: string): Option<nat> {
    if |s| == 0 || !IsDigit(s[|s| - 1]) then None
    else
      var d := (s[|s| - 1] - '0') as nat;
      if |s| == 1 then Some(d)
      else
        var front := ParseNat(s[..|s| - 1]);
        if front.None? then None else Some(10 * front.value + d)
  }

  /** An optional sign, then digits; leading zeros are accepted. */
  function Parse(s: string): Option<int> {
    if |s| > 0 && (s[0] == '-' || s[0] == '+') then
      var m := ParseNat(s[1..]);
      if m.None? then None
      else
        var v: int := if s[0] == '-' then -(m.value as int) else m.value;
        Some(v)
    else
      var m := ParseNat(s);
      if m.None? then None else Some(m.value)
  }

  lemma {:induction false} ParsePrintNat(n: nat)
    ensures ParseNat(PrintNat(n)) == Some(n)
  {
    if n >= 10 {
      ParsePrintNat(n / 10);
      assert PrintNat(n)[..|PrintNat(n)| - 1] == PrintNat(n / 10);
    }
  }

  /** Parsing inverts printing on every integer. */
  lemma {:induction false} ParsePrint(n: int)
    ensures Parse(Print(n)) == Some(n)
  {
    if n < 0 {
      ParsePrintNat(-n);
      assert Print(n)[1..] == PrintNat(-n);
    } else {
      ParsePrintNat(n);
      assert IsDigit(PrintNat(n)[0]) && !IsDigit('-') && !IsDigit('+');
    }
  }

  /** A number is printed with a sign exactly when it is negative, and never with a leading zero. */
  lemma {:induction false} PrintForm(n: int)
    ensures Print(n)[0] == '-' <==> n < 0
    ensures n >= 10 ==> Print(n)[0] != '0'
    ensures 0 <= n < 10 ==> Print(n) == ["0123456789"[n]]
  {
    if n >= 10 {
      PrintForm(n / 10);
      assert PrintNat(n) == PrintNat(n / 10) + [Digit(n % 10)] && n / 10 > 0;
    }
  }

  /** A sign and leading zeros are accepted, and nothing but digits after them. */
  lemma {:induction false} ParseForms(n: nat, s: string)
    ensures Parse("+" + PrintNat(n)) == Some(n) && Parse("-" + PrintNat(n)) == Some(-(n as int)) && ParseNat("0" + PrintNat(n)) == Some(n)
    ensures ParseNat(s).Some? <==> s != "" && forall i :: 0 <= i < |s| ==> IsDigit(s[i])
  {
    ParsePrintNat(n);
    assert ("+" + PrintNat(n))[1..] == PrintNat(n) && ("-" + PrintNat(n))[1..] == PrintNat(n);
    LeadingZero(PrintNat(n));
    OnlyDigits(s);
  }

  lemma {:induction false} LeadingZero(s: string)
    requires ParseNat(s).Some?
    ensures ParseNat("0" + s) == ParseNat(s)
  {
    var zeroed := "0" + s;
    assert zeroed[..|zeroed| - 1] == "0" + s[..|s| - 1] && zeroed[|zeroed| - 1] == s[|s| - 1];
    if |s| > 1 {
      LeadingZero(s[..|s| - 1]);
    } else {
      assert zeroed[..1] == "0" && ParseNat("0") == Some(0);
    }
  }

  lemma {:induction false} OnlyDigits(s: string)
    ensures ParseNat(s).Some? <==> s != "" && forall i :: 0 <= i < |s| ==> IsDigit(s[i])
  {
    if |s| > 1 { OnlyDigits(s[..|s| - 1]); }
  }

  lemma {:induction false} PrintInjective(m: int, n: int)
    requires Print(m) == Print(n)
    ensures m == n
  {
    ParsePrint(m);
    ParsePrint(n);
  }
}
