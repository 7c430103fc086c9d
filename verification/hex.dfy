/** Hexadecimal text and bytes: CPython's `bytes.fromhex` and `bytes.hex`.
    The digits are those of the base-16 alphabet of section 8 of RFC 4648,
    accepted in either case; `bytes.fromhex` additionally skips ASCII
    whitespace, but only between two-digit groups. */
module Hex {
  import opened Wrappers
  import opened Bytes

  predicate IsHexDigit(c: char)
  {
    '0' <= c <= '9' || 'a' <= c <= 'f' || 'A' <= c <= 'F'
  }

  /** Python's ASCII whitespace: space, tab, line feed, vertical tab, form feed, carriage return. */
  predicate IsAsciiSpace(c: char)
  {
    c == ' ' || '\t' <= c <= '\r'
  }

  function HexValue(c: char): (v: nat)
    requires IsHexDigit(c)
    ensures v < 16
  {
    if '0' <= c <= '9' then c as int - '0' as int
    else if 'a' <= c <= 'f' then c as int - 'a' as int + 10
    else c as int - 'A' as int + 10
  }

  /** The lower-case digit for a value below 16, as `bytes.hex` writes it. */
  function HexChar(v: nat): (c: char)
    requires v < 16
    ensures IsHexDigit(c) && HexValue(c) == v
    ensures !('A' <= c <= 'F')
  {
    if v < 10 then ('0' as int + v) as char else ('a' as int + v - 10) as char
  }

  /** The lower-case spelling of a hex digit; other characters are kept. */
  function LowerHexDigit(c: char): (d: char)
    ensures IsHexDigit(c) ==> IsHexDigit(d) && HexValue(d) == HexValue(c) && !('A' <= d <= 'F')
  {
    if 'A' <= c <= 'F' then (c as int + 32) as char else c
  }

  function LowerHex(s: string): (r: string)
    ensures |r| == |s|
  {
    if |s| == 0 then "" else [LowerHexDigit(s[0])] + LowerHex(s[1..])
  }

  /** `s` with every ASCII whitespace character removed. */
  function StripSpace(s: string): (r: string)
    ensures |r| <= |s|
  {
    if |s| == 0 then ""
    else if IsAsciiSpace(s[0]) then StripSpace(s[1..])
    else [s[0]] + StripSpace(s[1..])
  }

  /** The byte a pair of hex digits spells, high digit first. */
  function PairByte(hi: char, lo: char): (b: byte)
    requires IsHexDigit(hi) && IsHexDigit(lo)
    ensures b / 16 == HexValue(hi) && b % 16 == HexValue(lo)
  {
    16 * HexValue(hi) + HexValue(lo)
  }

  /** `bytes.fromhex(s)`: None where CPython raises ValueError (a character that
      is neither a hex digit nor whitespace, whitespace inside a pair, or an odd
      number of digits). */
  function FromHex(s: string): (r: Option<seq<byte>>)
    ensures r.Some? ==> 2 * |r.value| <= |s|
    ensures r.Some? ==> forall i :: 0 <= i < |s| ==> IsHexDigit(s[i]) || IsAsciiSpace(s[i])
  {
    if |s| == 0 then Some([])
    else if IsAsciiSpace(s[0]) then FromHex(s[1..])
    else if |s| >= 2 && IsHexDigit(s[0]) && IsHexDigit(s[1]) then
      match FromHex(s[2..])
      case None => None
      case Some(rest) => Some([PairByte(s[0], s[1])] + rest)
    else None
  }

  /** `b.hex()`: two lower-case digits per byte. */
  function ToHex(b: seq<byte>): (r: string)
    ensures |r| == 2 * |b|
  {
    if |b| == 0 then ""
    else [HexChar(b[0] / 16), HexChar(b[0] % 16)] + ToHex(b[1..])
  }

  /** Decoding what `bytes.hex` wrote gives the bytes back. */
  lemma {:induction false} FromHexToHex(b: seq<byte>)
    ensures FromHex(ToHex(b)) == Some(b)
  {
    if |b| > 0 {
      var s := ToHex(b);
      var hi, lo := HexChar(b[0] / 16), HexChar(b[0] % 16);
      assert s == [hi, lo] + ToHex(b[1..]);
      assert s[0] == hi && s[1] == lo && s[2..] == ToHex(b[1..]);
      assert !IsAsciiSpace(hi);
      FromHexToHex(b[1..]);
      assert PairByte(hi, lo) == b[0];
      assert [b[0]] + b[1..] == b;
    }
  }

  /** What `bytes.fromhex` accepts are exactly the digits it read: re-encoding
      the result gives the input without its whitespace, in lower case. */
  lemma {:induction false} FromHexSound(s: string)
    requires FromHex(s).Some?
    ensures ToHex(FromHex(s).value) == LowerHex(StripSpace(s))
  {
    if |s| == 0 {
    } else if IsAsciiSpace(s[0]) {
      FromHexSound(s[1..]);
    } else {
      var rest := FromHex(s[2..]).value;
      FromHexSound(s[2..]);
      PairDecodes(s);
      ToHexPair(s[0], s[1], rest);
      LowerHexPair(s);
    }
  }

  /** The lower-cased digits of a string that starts with a digit pair. */
  lemma LowerHexPair(s: string)
    requires |s| >= 2 && !IsAsciiSpace(s[0]) && !IsAsciiSpace(s[1])
    ensures LowerHex(StripSpace(s)) == [LowerHexDigit(s[0]), LowerHexDigit(s[1])] + LowerHex(StripSpace(s[2..]))
  {
    var t := StripSpace(s[2..]);
    StripPair(s);
    assert ([s[0], s[1]] + t)[1..] == [s[1]] + t;
    assert ([s[1]] + t)[1..] == t;
  }

  lemma PairDecodes(s: string)
    requires |s| >= 2 && !IsAsciiSpace(s[0]) && IsHexDigit(s[0]) && IsHexDigit(s[1])
    requires FromHex(s[2..]).Some?
    ensures FromHex(s) == Some([PairByte(s[0], s[1])] + FromHex(s[2..]).value)
  {
  }

  lemma ToHexPair(c: char, d: char, rest: seq<byte>)
    requires IsHexDigit(c) && IsHexDigit(d)
    ensures ToHex([PairByte(c, d)] + rest) == [LowerHexDigit(c), LowerHexDigit(d)] + ToHex(rest)
  {
    var v := PairByte(c, d);
    assert v / 16 == HexValue(c) && v % 16 == HexValue(d);
    HexCharOfValue(c);
    HexCharOfValue(d);
    assert ([v] + rest)[1..] == rest;
  }

  lemma StripPair(s: string)
    requires |s| >= 2 && !IsAsciiSpace(s[0]) && !IsAsciiSpace(s[1])
    ensures StripSpace(s) == [s[0], s[1]] + StripSpace(s[2..])
  {
  }

  /** The canonical digit for a digit's value is its lower-case spelling. */
  lemma HexCharOfValue(c: char)
    requires IsHexDigit(c)
    ensures HexChar(HexValue(c)) == LowerHexDigit(c)
  {
  }

  /** Decoding splits at any point where a prefix decodes on its own: the
      whole is accepted exactly when the rest is, and its bytes are the two
      parts' bytes in order. */
  lemma {:induction false} FromHexConcat(a: string, b: string)
    requires FromHex(a).Some?
    ensures FromHex(b).None? ==> FromHex(a + b).None?
    ensures FromHex(b).Some? ==> FromHex(a + b) == Some(FromHex(a).value + FromHex(b).value)
  {
    if |a| == 0 {
      assert a + b == b;
      assert FromHex(a) == Some([]);
      if FromHex(b).Some? {
        assert [] + FromHex(b).value == FromHex(b).value;
      }
    } else if IsAsciiSpace(a[0]) {
      FromHexConcat(a[1..], b);
      DropConcat(a, b, 1);
    } else {
      FromHexConcat(a[2..], b);
      ConcatPair(a, b);
    }
  }

  /** The digit-pair step of `FromHexConcat`. */
  lemma ConcatPair(a: string, b: string)
    requires |a| >= 2 && IsHexDigit(a[0]) && IsHexDigit(a[1]) && FromHex(a[2..]).Some?
    requires FromHex(b).None? ==> FromHex(a[2..] + b).None?
    requires FromHex(b).Some? ==> FromHex(a[2..] + b) == Some(FromHex(a[2..]).value + FromHex(b).value)
    ensures FromHex(b).None? ==> FromHex(a + b).None?
    ensures FromHex(b).Some? ==> FromHex(a + b) == Some(FromHex(a).value + FromHex(b).value)
  {
    DropConcat(a, b, 2);
    if FromHex(b).Some? {
      ConcatPairAccepted(a, b, FromHex(a[2..]).value, FromHex(b).value);
    } else {
      PairRejects(a + b);
    }
  }

  lemma ConcatPairAccepted(a: string, b: string, x: seq<byte>, y: seq<byte>)
    requires |a| >= 2 && IsHexDigit(a[0]) && IsHexDigit(a[1])
    requires FromHex(a[2..]) == Some(x) && FromHex(a[2..] + b) == Some(x + y)
    requires (a + b)[0] == a[0] && (a + b)[1] == a[1] && (a + b)[2..] == a[2..] + b
    ensures FromHex(a + b) == Some(FromHex(a).value + y)
  {
    var v := PairByte(a[0], a[1]);
    PairDecodes(a);
    PairDecodes(a + b);
    assert [v] + (x + y) == ([v] + x) + y;
  }

  lemma DropConcat(a: string, b: string, n: nat)
    requires n <= |a|
    ensures (a + b)[n..] == a[n..] + b
    ensures forall i :: 0 <= i < n ==> (a + b)[i] == a[i]
  {
  }

  lemma PairRejects(s: string)
    requires |s| >= 2 && IsHexDigit(s[0]) && IsHexDigit(s[1])
    requires FromHex(s[2..]).None?
    ensures FromHex(s).None?
  {
  }

  /** Whitespace between digit pairs is skipped: inserting one whitespace
      character after any prefix that decodes on its own changes nothing. */
  lemma SpaceBetweenPairsSkipped(a: string, c: char, b: string)
    requires FromHex(a).Some? && IsAsciiSpace(c)
    ensures FromHex(a + [c] + b) == FromHex(a + b)
  {
    assert ([c] + b)[1..] == b;
    assert a + [c] + b == a + ([c] + b);
    FromHexConcat(a, [c] + b);
    FromHexConcat(a, b);
  }

  /** Whitespace inside a digit pair is rejected, wherever the pair starts. */
  lemma SpaceInsidePairRejected(a: string, d: char, c: char, b: string)
    requires FromHex(a).Some? && IsHexDigit(d) && IsAsciiSpace(c)
    ensures FromHex(a + [d, c] + b) == None
  {
    assert a + [d, c] + b == a + ([d, c] + b);
    FromHexConcat(a, [d, c] + b);
  }

  /** Every even-length run of hex digits, without whitespace, is accepted. */
  lemma {:induction false} FromHexComplete(s: string)
    requires |s| % 2 == 0
    requires forall i :: 0 <= i < |s| ==> IsHexDigit(s[i])
    ensures FromHex(s).Some? && 2 * |FromHex(s).value| == |s|
  {
    if |s| > 0 {
      FromHexComplete(s[2..]);
    }
  }

  /** Without whitespace, an odd number of characters is always rejected. */
  lemma {:induction false} FromHexRejectsOdd(s: string)
    requires |s| % 2 == 1
    requires forall i :: 0 <= i < |s| ==> !IsAsciiSpace(s[i])
    ensures FromHex(s) == None
  {
    if |s| >= 2 {
      FromHexRejectsOdd(s[2..]);
    }
  }
}
