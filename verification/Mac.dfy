/** Hardware addresses: net.ParseMAC, the canonical printer, and their agreement. */
module Mac {
  import opened Prelude

  type Byte = n: int | 0 <= n < 256

  const HEX_DIGITS := "0123456789ABCDEF"

  function HexValue(c: char): Option<nat> {
    if '0' <= c <= '9' then Some((c - '0') as nat)
    else if 'a' <= c <= 'f' then Some((c - 'a') as nat + 10)
    else if 'A' <= c <= 'F' then Some((c - 'A') as nat + 10)
    else None
  }

  function HexByte(hi: char, lo: char): Option<Byte> {
    match (HexValue(hi), HexValue(lo))
    case (Some(h), Some(l)) => if h < 16 && l < 16 then Some(16 * h + l) else None
    case _ => None
  }

  function Hex2(b: Byte): string {
    [HEX_DIGITS[b / 16], HEX_DIGITS[b % 16]]
  }

  /** Groups of `digits` hex digits (two or four) between separators. */
  function Groups(s: string, digits: nat, sep: char): (g: Option<seq<Byte>>)
    requires digits == 2 || digits == 4
    ensures g.Some? ==> |g.value| >= digits / 2
    decreases |s|
  {
    if |s| < digits || HexByte(s[0], s[1]).None? || HexByte(s[digits - 2], s[digits - 1]).None? then None
    else
      var first := if digits == 2 then [HexByte(s[0], s[1]).value]
                   else [HexByte(s[0], s[1]).value, HexByte(s[2], s[3]).value];
      if |s| == digits then Some(first)
      else if s[digits] != sep then None
      else match Groups(s[digits + 1..], digits, sep)
        case None => None
        case Some(rest) => Some(first + rest)
  }

  predicate MacLength(n: nat) {
    n == 6 || n == 8 || n == 20
  }

  /** Colon or dash pairs, or dotted quadruples; 6, 8 or 20 octets; either letter case. */
  function ParseMac(s: string): Option<seq<Byte>> {
    if |s| < 14 then None
    else
      var octets :=
        if s[2] == ':' || s[2] == '-' then Groups(s, 2, s[2])
        else if s[4] == '.' then Groups(s, 4, '.')
        else None;
      if octets.Some? && MacLength(|octets.value|) then octets else None
  }

  /** Uppercase pairs joined by colons. */
  function Canonical(hw: seq<Byte>): string {
    if hw == [] then ""
    else if |hw| == 1 then Hex2(hw[0])
    else Hex2(hw[0]) + ":" + Canonical(hw[1..])
  }

  function Join(parts: seq<string>, sep: string): string {
    if parts == [] then ""
    else if |parts| == 1 then parts[0]
    else parts[0] + sep + Join(parts[1..], sep)
  }

  lemma {:induction false} JoinIsCanonical(parts: seq<string>, hw: seq<Byte>)
    requires |parts| == |hw| && forall i :: 0 <= i < |hw| ==> parts[i] == Hex2(hw[i])
    ensures Join(parts, ":") == Canonical(hw)
  {
    if |hw| <= 1 {
    } else {
      JoinIsCanonical(parts[1..], hw[1..]);
    }
  }

  method FormatMac(hw: seq<Byte>) returns (s: string)
    ensures s == Canonical(hw)
  {
    var out := new string[|hw|](_ => "");
    for i := 0 to |hw|
      invariant forall k :: 0 <= k < i ==> out[k] == Hex2(hw[k])
    {
      out[i] := [HEX_DIGITS[hw[i] / 16], HEX_DIGITS[hw[i] % 16]];
    }
    JoinIsCanonical(out[..], hw);
    s := Join(out[..], ":");
  }

  lemma Hex2Reads(b: Byte)
    ensures HexByte(Hex2(b)[0], Hex2(b)[1]) == Some(b)
  {
    DigitReads(b / 16);
    DigitReads(b % 16);
  }

  lemma DigitReads(d: nat)
    requires d < 16
    ensures HexValue(HEX_DIGITS[d]) == Some(d)
  {
  }

  lemma {:induction false} CanonicalGroups(hw: seq<Byte>)
    requires hw != []
    ensures Groups(Canonical(hw), 2, ':') == Some(hw)
    ensures |Canonical(hw)| == 3 * |hw| - 1
  {
    var s := Canonical(hw);
    Hex2Reads(hw[0]);
    assert s[0] == Hex2(hw[0])[0] && s[1] == Hex2(hw[0])[1];
    if |hw| == 1 {
      assert hw == [hw[0]];
    } else {
      CanonicalGroups(hw[1..]);
      assert s[2] == ':' && s[3..] == Canonical(hw[1..]);
      assert hw == [hw[0]] + hw[1..];
    }
  }

  lemma CanonicalHead(hw: seq<Byte>)
    requires |hw| > 1
    ensures |Canonical(hw)| > 2 && Canonical(hw)[2] == ':'
  {
  }

  lemma ParseColons(s: string, hw: seq<Byte>)
    requires |s| >= 14 && s[2] == ':' && MacLength(|hw|) && Groups(s, 2, ':') == Some(hw)
    ensures ParseMac(s) == Some(hw)
  {
  }

  /** Parsing what the printer wrote gives the octets back. */
  lemma ParseCanonical(hw: seq<Byte>)
    requires MacLength(|hw|)
    ensures ParseMac(Canonical(hw)) == Some(hw)
  {
    CanonicalGroups(hw);
    CanonicalHead(hw);
    ParseColons(Canonical(hw), hw);
  }

  lemma CanonicalInjective(a: seq<Byte>, b: seq<Byte>)
    requires Canonical(a) == Canonical(b) && a != [] && b != []
    ensures a == b
  {
    CanonicalGroups(a);
    CanonicalGroups(b);
  }

  function FormatMacString(s: string): Option<string> {
    match ParseMac(s)
    case None => None
    case Some(hw) => Some(Canonical(hw))
  }

  /** Formatting a formatted address changes nothing. */
  lemma FormatTwice(s: string)
    requires FormatMacString(s).Some?
    ensures FormatMacString(FormatMacString(s).value) == FormatMacString(s)
  {
    ParseCanonical(ParseMac(s).value);
  }

  // ----- Every spelling ------------------------------------------------------------------

  /** c is the hexadecimal digit v, in either letter case. */
  predicate IsHexDigit(c: char, v: nat) {
    v < 16 && (c == "0123456789abcdef"[v] || c == "0123456789ABCDEF"[v])
  }

  predicate SpellsOctet(hi: char, lo: char, b: Byte) {
    IsHexDigit(hi, b / 16) && IsHexDigit(lo, b % 16)
  }

  /** One pair of digits per octet, with a separator between them. */
  predicate SpelledInPairs(s: string, hw: seq<Byte>, sep: char)
    decreases |hw|
  {
    && hw != [] && |s| >= 2 && SpellsOctet(s[0], s[1], hw[0])
    && if |hw| == 1 then |s| == 2 else |s| > 2 && s[2] == sep && SpelledInPairs(s[3..], hw[1..], sep)
  }

  /** One group of four digits per two octets, with dots between them. */
  predicate SpelledInFours(s: string, hw: seq<Byte>)
    decreases |hw|
  {
    && |hw| >= 2 && |s| >= 4 && SpellsOctet(s[0], s[1], hw[0]) && SpellsOctet(s[2], s[3], hw[1])
    && if |hw| == 2 then |s| == 4 else |s| > 4 && s[4] == '.' && SpelledInFours(s[5..], hw[2..])
  }

  lemma HexDigitIff(c: char, v: nat)
    ensures HexValue(c) == Some(v) && v < 16 <==> IsHexDigit(c, v)
  {
  }

  lemma Nibbles(h: nat, l: nat, b: Byte)
    requires h < 16 && l < 16
    ensures 16 * h + l == b <==> h == b / 16 && l == b % 16
  {
  }

  lemma HexByteIff(hi: char, lo: char, b: Byte)
    ensures HexByte(hi, lo) == Some(b) <==> HexValue(hi) == Some(b / 16) && HexValue(lo) == Some(b % 16)
  {
    var h, l := HexValue(hi), HexValue(lo);
    if h.Some? && l.Some? && h.value < 16 && l.value < 16 {
      Nibbles(h.value, l.value, b);
    }
  }

  lemma OctetIff(hi: char, lo: char, b: Byte)
    ensures HexByte(hi, lo) == Some(b) <==> SpellsOctet(hi, lo, b)
  {
    HexByteIff(hi, lo, b);
    HexDigitIff(hi, b / 16);
    HexDigitIff(lo, b % 16);
  }

  lemma PairsStep(s: string, hw: seq<Byte>, sep: char)
    requires |s| > 2 && hw != []
    ensures Groups(s, 2, sep) == Some(hw) <==>
            HexByte(s[0], s[1]) == Some(hw[0]) && s[2] == sep && |hw| > 1 && Groups(s[3..], 2, sep) == Some(hw[1..])
  {
    var rest := Groups(s[3..], 2, sep);
    if HexByte(s[0], s[1]).Some? && rest.Some? {
      var b := HexByte(s[0], s[1]).value;
      assert ([b] + rest.value)[1..] == rest.value;
      assert hw == [hw[0]] + hw[1..];
    }
  }

  lemma {:induction false} PairsIff(s: string, hw: seq<Byte>, sep: char)
    ensures Groups(s, 2, sep) == Some(hw) <==> SpelledInPairs(s, hw, sep)
    decreases |s|
  {
    if |s| >= 2 && hw != [] {
      OctetIff(s[0], s[1], hw[0]);
      assert |hw| == 1 ==> hw == [hw[0]];
      if |s| > 2 {
        PairsStep(s, hw, sep);
        PairsIff(s[3..], hw[1..], sep);
      }
    }
  }

  lemma FoursStep(s: string, hw: seq<Byte>)
    requires |s| > 4 && |hw| >= 2
    ensures Groups(s, 4, '.') == Some(hw) <==>
            && HexByte(s[0], s[1]) == Some(hw[0]) && HexByte(s[2], s[3]) == Some(hw[1])
            && s[4] == '.' && |hw| > 2 && Groups(s[5..], 4, '.') == Some(hw[2..])
  {
    var rest := Groups(s[5..], 4, '.');
    if HexByte(s[0], s[1]).Some? && HexByte(s[2], s[3]).Some? && rest.Some? {
      var a, b := HexByte(s[0], s[1]).value, HexByte(s[2], s[3]).value;
      assert ([a, b] + rest.value)[2..] == rest.value;
      assert hw == [hw[0], hw[1]] + hw[2..];
    }
  }

  lemma {:induction false} FoursIff(s: string, hw: seq<Byte>)
    ensures Groups(s, 4, '.') == Some(hw) <==> SpelledInFours(s, hw)
    decreases |s|
  {
    if |s| >= 4 && |hw| >= 2 {
      OctetIff(s[0], s[1], hw[0]);
      OctetIff(s[2], s[3], hw[1]);
      assert |hw| == 2 ==> hw == [hw[0], hw[1]];
      if |s| > 4 {
        FoursStep(s, hw);
        FoursIff(s[5..], hw[2..]);
      }
    }
  }

  lemma {:induction false} SpellingLength(s: string, hw: seq<Byte>, sep: char)
    ensures SpelledInPairs(s, hw, sep) ==> |s| == 3 * |hw| - 1
    ensures SpelledInFours(s, hw) && |hw| % 2 == 0 ==> 2 * |s| == 5 * |hw| - 2
    decreases |hw|
  {
    if SpelledInPairs(s, hw, sep) && |hw| > 1 {
      SpellingLength(s[3..], hw[1..], sep);
    }
    if SpelledInFours(s, hw) && |hw| > 2 {
      SpellingLength(s[5..], hw[2..], sep);
    }
  }

  lemma ParseSteps(s: string, hw: seq<Byte>)
    ensures |s| < 14 ==> ParseMac(s) == None
    ensures |s| >= 14 ==>
              (ParseMac(s) == Some(hw) <==>
               && MacLength(|hw|)
               && (|| (s[2] == ':' && Groups(s, 2, ':') == Some(hw))
                   || (s[2] == '-' && Groups(s, 2, '-') == Some(hw))
                   || (s[2] != ':' && s[2] != '-' && s[4] == '.' && Groups(s, 4, '.') == Some(hw))))
  {
  }

  lemma ThirdChar(s: string, hw: seq<Byte>, sep: char)
    requires |s| >= 14
    ensures SpelledInPairs(s, hw, sep) ==> s[2] == sep
    ensures SpelledInFours(s, hw) ==> s[2] != ':' && s[2] != '-' && s[4] == '.'
  {
    if SpelledInFours(s, hw) {
      HexDigitIff(s[2], hw[1] / 16);
    }
  }

  lemma PairsParse(s: string, hw: seq<Byte>, sep: char)
    requires MacLength(|hw|) && SpelledInPairs(s, hw, sep) && (sep == ':' || sep == '-')
    ensures ParseMac(s) == Some(hw)
  {
    SpellingLength(s, hw, sep);
    ThirdChar(s, hw, sep);
    PairsIff(s, hw, sep);
    ParseSteps(s, hw);
  }

  lemma FoursParse(s: string, hw: seq<Byte>)
    requires MacLength(|hw|) && SpelledInFours(s, hw)
    ensures ParseMac(s) == Some(hw)
  {
    SpellingLength(s, hw, '.');
    ThirdChar(s, hw, '.');
    FoursIff(s, hw);
    ParseSteps(s, hw);
  }

  lemma ParsedIsSpelled(s: string, hw: seq<Byte>)
    requires ParseMac(s) == Some(hw)
    ensures MacLength(|hw|)
    ensures SpelledInPairs(s, hw, ':') || SpelledInPairs(s, hw, '-') || SpelledInFours(s, hw)
  {
    ParseSteps(s, hw);
    PairsIff(s, hw, ':');
    PairsIff(s, hw, '-');
    FoursIff(s, hw);
  }

  /** What an address is: 6, 8 or 20 octets, in pairs of hexadecimal digits joined by colons or
      by dashes, or in groups of four joined by dots; each letter in either case. */
  lemma ParseIff(s: string, hw: seq<Byte>)
    ensures ParseMac(s) == Some(hw) <==>
            && (|hw| == 6 || |hw| == 8 || |hw| == 20)
            && (SpelledInPairs(s, hw, ':') || SpelledInPairs(s, hw, '-') || SpelledInFours(s, hw))
  {
    if ParseMac(s) == Some(hw) {
      ParsedIsSpelled(s, hw);
    } else if MacLength(|hw|) {
      if SpelledInPairs(s, hw, ':') {
        PairsParse(s, hw, ':');
      } else if SpelledInPairs(s, hw, '-') {
        PairsParse(s, hw, '-');
      } else if SpelledInFours(s, hw) {
        FoursParse(s, hw);
      }
    }
  }

  predicate IsCanonicalChar(c: char) {
    '0' <= c <= '9' || 'A' <= c <= 'F' || c == ':'
  }

  lemma HexIsUpper(d: nat)
    requires d < 16
    ensures IsCanonicalChar(HEX_DIGITS[d])
  {
  }

  /** The printed form has digits, upper-case letters and colons only. */
  lemma {:induction false} CanonicalChars(hw: seq<Byte>)
    ensures forall i :: 0 <= i < |Canonical(hw)| ==> IsCanonicalChar(Canonical(hw)[i])
  {
    if hw == [] {
    } else {
      HexIsUpper(hw[0] / 16);
      HexIsUpper(hw[0] % 16);
      CanonicalChars(hw[1..]);
    }
  }

  /** Two spellings have the same canonical form exactly when they name the same octets. */
  lemma SameFormIff(s: string, t: string)
    requires ParseMac(s).Some? && ParseMac(t).Some?
    ensures FormatMacString(s) == FormatMacString(t) <==> ParseMac(s) == ParseMac(t)
  {
    ParseCanonical(ParseMac(s).value);
    ParseCanonical(ParseMac(t).value);
  }
}
