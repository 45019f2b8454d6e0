/** Pinning a node to one device: the configured id is compared, ignoring case,
    with the reported id printed as sixteen hexadecimal digits. */
module UniqueId {
  import opened Common

  const DIGITS: string := "0123456789ABCDEF"

  function Pow16(w: nat): nat {
    if w == 0 then 1 else 16 * Pow16(w - 1)
  }

  /** `{:016X}` generalized to any width. */
  function Hex(n: nat, width: nat): (text: string)
    ensures |text| == width
  {
    if width == 0 then [] else Hex(n / 16, width - 1) + [DIGITS[n % 16]]
  }

  function Lower(c: char): char {
    if 'A' <= c <= 'Z' then c + ' ' else c
  }

  predicate EqIgnoreCase(a: string, b: string) {
    |a| == |b| && forall k :: 0 <= k < |a| ==> Lower(a[k]) == Lower(b[k])
  }

  predicate IsHexDigit(c: char) {
    '0' <= c <= '9' || 'a' <= c <= 'f' || 'A' <= c <= 'F'
  }

  function DigitValue(c: char): (v: nat)
    requires IsHexDigit(c)
    ensures v < 16
  {
    if c <= '9' then c as int - '0' as int
    else if c <= 'F' then c as int - 'A' as int + 10
    else c as int - 'a' as int + 10
  }

  /** What validation demands of a configured id, at any width. */
  predicate AllHex(s: string) {
    forall k :: 0 <= k < |s| ==> IsHexDigit(s[k])
  }

  function HexValue(s: string): nat
    requires AllHex(s)
  {
    if s == [] then 0 else 16 * HexValue(s[..|s| - 1]) + DigitValue(s[|s| - 1])
  }

  lemma DigitMatches(d: nat, c: char)
    requires d < 16 && IsHexDigit(c)
    ensures Lower(DIGITS[d]) == Lower(c) <==> DigitValue(c) == d
  {
  }

  lemma EqIgnoreCaseSnoc(a: string, x: char, b: string, y: char)
    requires |a| == |b|
    ensures EqIgnoreCase(a + [x], b + [y]) <==> EqIgnoreCase(a, b) && Lower(x) == Lower(y)
  {
    var left, right := a + [x], b + [y];
    assert left[|a|] == x && right[|a|] == y;
    assert forall k :: 0 <= k < |a| ==> left[k] == a[k] && right[k] == b[k];
  }

  lemma {:induction false} SameTextIffSameValue(n: nat, s: string)
    requires AllHex(s) && n < Pow16(|s|)
    ensures EqIgnoreCase(Hex(n, |s|), s) <==> HexValue(s) == n
  {
    if s == [] {
    } else {
      var init, c := s[..|s| - 1], s[|s| - 1];
      SameTextIffSameValue(n / 16, init);
      DigitMatches(n % 16, c);
      assert s == init + [c];
      EqIgnoreCaseSnoc(Hex(n / 16, |init|), DIGITS[n % 16], init, c);
      assert HexValue(s) == n <==> HexValue(init) == n / 16 && DigitValue(c) == n % 16;
    }
  }

  /** For a validated id the check passes exactly for the device it names. */
  lemma PinMatchesExactlyItsDevice(reported: u64, want: string)
    requires |want| == 16 && AllHex(want)
    ensures EqIgnoreCase(Hex(reported, 16), want) <==> HexValue(want) == reported
  {
    assert Pow16(16) == 0x1_0000_0000_0000_0000 by {
      assert Pow16(4) == 0x1_0000;
      assert Pow16(8) == 0x1_0000_0000;
      assert Pow16(12) == 0x1_0000_0000_0000;
    }
    SameTextIffSameValue(reported, want);
  }
}
