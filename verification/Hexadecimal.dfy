/** Hexadecimal as Go's encoding/hex reads it, and the 0x that a transaction hash may carry. */
module Hexadecimal {
  import opened Wrappers

  function HexDigit(c: char): Option<nat> {
    if '0' <= c <= '9' then Some((c - '0') as nat)
    else if 'a' <= c <= 'f' then Some((c - 'a') as nat + 10)
    else if 'A' <= c <= 'F' then Some((c - 'A') as nat + 10)
    else None
  }

  function HexDecode(s: string): Option<seq<nat>> {
    if s == "" then Some([])
    else if |s| == 1 || HexDigit(s[0]).None? || HexDigit(s[1]).None? then None
    else
      var rest := HexDecode(s[2..]);
      if rest.None? then None else Some([16 * HexDigit(s[0]).value + HexDigit(s[1]).value] + rest.value)
  }

  function HexChar(d: nat): char
    requires d < 16
  {
    if d < 10 then '0' + d as char else 'a' + (d - 10) as char
  }

  function HexEncode(bytes: seq<nat>): string
    requires forall i :: 0 <= i < |bytes| ==> bytes[i] < 256
  {
    if bytes == [] then "" else [HexChar(bytes[0] / 16), HexChar(bytes[0] % 16)] + HexEncode(bytes[1..])
  }

  lemma {:induction false} HexRoundTrip(bytes: seq<nat>)
    requires forall i :: 0 <= i < |bytes| ==> bytes[i] < 256
    ensures HexDecode(HexEncode(bytes)) == Some(bytes)
  {
    if bytes != [] {
      HexRoundTrip(bytes[1..]);
      var s := HexEncode(bytes);
      assert s[2..] == HexEncode(bytes[1..]);
      assert HexDigit(s[0]) == Some(bytes[0] / 16) && HexDigit(s[1]) == Some(bytes[0] % 16);
      assert bytes == [bytes[0]] + bytes[1..];
    }
  }

  /** Only pairs of hexadecimal digits decode. */
  lemma {:induction false} HexDecodesIff(s: string)
    ensures HexDecode(s).Some? <==> |s| % 2 == 0 && forall c :: c in s ==> HexDigit(c).Some?
  {
    if |s| >= 2 {
      HexDecodesIff(s[2..]);
      assert forall c :: c in s <==> c == s[0] || c == s[1] || c in s[2..];
    }
  }

  lemma {:induction false} HexDigits(c: char)
    ensures HexDigit(c).Some? <==> c in "0123456789abcdefABCDEF"
    ensures 'A' <= c <= 'F' ==> HexDigit(c) == HexDigit('a' + (c - 'A'))
  {
    var all := "0123456789abcdefABCDEF";
    if HexDigit(c).Some? {
      var i := if c <= '9' then (c - '0') as int else if c <= 'F' then 16 + (c - 'A') as int else 10 + (c - 'a') as int;
      assert all[i] == c;
    }
  }

  function TrimPrefix(s: string): string {
    if |s| >= 2 && s[..2] == "0x" then s[2..] else s
  }

  /** A leading 0x goes; anything else stays. */
  lemma {:induction false} PrefixIsTrimmed(hash: string)
    ensures TrimPrefix("0x" + hash) == hash
    ensures !("0x" <= hash) ==> TrimPrefix(hash) == hash
  {
    assert ("0x" + hash)[..2] == "0x" && ("0x" + hash)[2..] == hash;
  }

  /** A hash that decodes has no 0x to be trimmed. */
  lemma {:induction false} NothingToTrim(s: string)
    requires HexDecode(s).Some?
    ensures TrimPrefix(s) == s
  {
    assert |s| >= 2 ==> s[1] != 'x' && s[..2][1] == s[1];
  }
}
