/** Preview links: a text in base64url (RFC 4648 section 5) without padding, written by the UI or the CLI and read by the UI.
    Texts are sequences of Unicode scalar values. */
module Preview {
  import opened Prelude

  type Octet = n: nat | n < 256
  type Octets = seq<Octet>
  type Digit = n: nat | n < 64

  /** The base64 alphabet: `A`-`Z`, `a`-`z`, `0`-`9`, `+`, `/`. */
  function DigitChar(d: Digit): (c: char)
    ensures DigitOf(c) == Some(d)
  {
    if d < 26 then 'A' + d as char
    else if d < 52 then 'a' + (d - 26) as char
    else if d < 62 then '0' + (d - 52) as char
    else if d == 62 then '+'
    else '/'
  }

  function DigitOf(c: char): (d: Option<Digit>)
    ensures d.Some? ==> c != '=' && c != '-' && c != '_' && !IsWhitespace(c)
  {
    if 'A' <= c <= 'Z' then Some((c - 'A') as nat)
    else if 'a' <= c <= 'z' then Some(26 + (c - 'a') as nat)
    else if '0' <= c <= '9' then Some(52 + (c - '0') as nat)
    else if c == '+' then Some(62)
    else if c == '/' then Some(63)
    else None
  }

  /** Tab, line feed, form feed, carriage return, space. */
  predicate IsWhitespace(c: char)
  {
    c as nat in {9, 10, 12, 13, 32}
  }

  predicate AllDigits(s: string)
  {
    forall i :: 0 <= i < |s| ==> DigitOf(s[i]).Some?
  }

  lemma CharOfDigit(c: char)
    ensures DigitOf(c).Some? ==> DigitChar(DigitOf(c).value) == c
  {
  }

  // ---- base64 ----------------------------------------------------------------

  function FirstDigit(b0: Octet): Digit { b0 / 4 }
  function SecondDigit(b0: Octet, b1: Octet): Digit { b0 % 4 * 16 + b1 / 16 }
  function ThirdDigit(b1: Octet, b2: Octet): Digit { b1 % 16 * 4 + b2 / 64 }
  function FourthDigit(b2: Octet): Digit { b2 % 64 }

  // The last digit when one octet, or two, are left.
  function SecondAndLast(b0: Octet): Digit { b0 % 4 * 16 }
  function ThirdAndLast(b1: Octet): Digit { b1 % 16 * 4 }

  function FirstOctet(d0: Digit, d1: Digit): Octet { d0 * 4 + d1 / 16 }
  function SecondOctet(d1: Digit, d2: Digit): Octet { d1 % 16 * 16 + d2 / 4 }
  function ThirdOctet(d2: Digit, d3: Digit): Octet { d2 % 4 * 64 + d3 }

  lemma OctetsOfDigits(b0: Octet, b1: Octet, b2: Octet)
    ensures FirstOctet(FirstDigit(b0), SecondDigit(b0, b1)) == b0
    ensures SecondOctet(SecondDigit(b0, b1), ThirdDigit(b1, b2)) == b1
    ensures ThirdOctet(ThirdDigit(b1, b2), FourthDigit(b2)) == b2
    ensures FirstOctet(FirstDigit(b0), SecondAndLast(b0)) == b0 && SecondAndLast(b0) % 16 == 0
    ensures SecondOctet(SecondDigit(b0, b1), ThirdAndLast(b1)) == b1 && ThirdAndLast(b1) % 4 == 0
  {
  }

  lemma DigitsOfOctets(d0: Digit, d1: Digit, d2: Digit, d3: Digit)
    ensures FirstDigit(FirstOctet(d0, d1)) == d0
    ensures SecondDigit(FirstOctet(d0, d1), SecondOctet(d1, d2)) == d1
    ensures ThirdDigit(SecondOctet(d1, d2), ThirdOctet(d2, d3)) == d2
    ensures FourthDigit(ThirdOctet(d2, d3)) == d3
    ensures d1 % 16 == 0 ==> SecondAndLast(FirstOctet(d0, d1)) == d1
    ensures d2 % 4 == 0 ==> ThirdAndLast(SecondOctet(d1, d2)) == d2
  {
  }

  /** Three octets become four digits; one or two octets at the end become two or three. */
  function ToDigits(b: Octets): (d: seq<Digit>)
  {
    if |b| == 0 then []
    else if |b| == 1 then [FirstDigit(b[0]), SecondAndLast(b[0])]
    else if |b| == 2 then [FirstDigit(b[0]), SecondDigit(b[0], b[1]), ThirdAndLast(b[1])]
    else [FirstDigit(b[0]), SecondDigit(b[0], b[1]), ThirdDigit(b[1], b[2]), FourthDigit(b[2])] + ToDigits(b[3..])
  }

  /** Spare bits at the end are dropped, as decoders do. */
  function FromDigits(d: seq<Digit>): (b: Octets)
  {
    if |d| <= 1 then []
    else if |d| == 2 then [FirstOctet(d[0], d[1])]
    else if |d| == 3 then [FirstOctet(d[0], d[1]), SecondOctet(d[1], d[2])]
    else [FirstOctet(d[0], d[1]), SecondOctet(d[1], d[2]), ThirdOctet(d[2], d[3])] + FromDigits(d[4..])
  }

  /** No lone digit at the end, and no bits to spare. */
  predicate Exact(d: seq<Digit>)
  {
    if |d| == 0 then true
    else if |d| == 1 then false
    else if |d| == 2 then d[1] % 16 == 0
    else if |d| == 3 then d[2] % 4 == 0
    else Exact(d[4..])
  }

  lemma {:induction false} ExactLength(d: seq<Digit>)
    requires Exact(d)
    ensures |d| % 4 != 1
  {
    if |d| >= 4 {
      ExactLength(d[4..]);
    }
  }

  lemma {:induction false} OctetsReadBack(b: Octets)
    ensures FromDigits(ToDigits(b)) == b && Exact(ToDigits(b))
  {
    if |b| >= 3 {
      OctetsReadBack(b[3..]);
      OctetsOfDigits(b[0], b[1], b[2]);
      ConsDigits(FirstDigit(b[0]), SecondDigit(b[0], b[1]), ThirdDigit(b[1], b[2]), FourthDigit(b[2]), ToDigits(b[3..]));
      assert b == [b[0], b[1], b[2]] + b[3..];
    } else if |b| == 2 {
      OctetsOfDigits(b[0], b[1], b[1]);
    } else if |b| == 1 {
      OctetsOfDigits(b[0], b[0], b[0]);
    }
  }

  lemma ConsDigits(d0: Digit, d1: Digit, d2: Digit, d3: Digit, rest: seq<Digit>)
    ensures var d := [d0, d1, d2, d3] + rest;
            FromDigits(d) == [FirstOctet(d0, d1), SecondOctet(d1, d2), ThirdOctet(d2, d3)] + FromDigits(rest) && Exact(d) == Exact(rest)
  {
    assert ([d0, d1, d2, d3] + rest)[4..] == rest;
  }

  lemma ConsOctets(b0: Octet, b1: Octet, b2: Octet, rest: Octets)
    ensures ToDigits([b0, b1, b2] + rest) ==
            [FirstDigit(b0), SecondDigit(b0, b1), ThirdDigit(b1, b2), FourthDigit(b2)] + ToDigits(rest)
  {
    assert ([b0, b1, b2] + rest)[3..] == rest;
  }

  lemma {:induction false} DigitsReadBack(d: seq<Digit>)
    requires Exact(d)
    ensures ToDigits(FromDigits(d)) == d
  {
    if |d| >= 4 {
      DigitsReadBack(d[4..]);
      DigitsOfOctets(d[0], d[1], d[2], d[3]);
      ConsOctets(FirstOctet(d[0], d[1]), SecondOctet(d[1], d[2]), ThirdOctet(d[2], d[3]), FromDigits(d[4..]));
      assert d == [d[0], d[1], d[2], d[3]] + d[4..];
    } else if |d| == 3 {
      DigitsOfOctets(d[0], d[1], d[2], d[2]);
    } else if |d| == 2 {
      DigitsOfOctets(d[0], d[1], d[1], d[1]);
    }
  }

  function Chars(d: seq<Digit>): (s: string)
    ensures |s| == |d| && forall i :: 0 <= i < |d| ==> s[i] == DigitChar(d[i])
  {
    seq(|d|, i requires 0 <= i < |d| => DigitChar(d[i]))
  }

  function Read(s: string): (d: seq<Digit>)
    requires AllDigits(s)
    ensures |d| == |s| && forall i :: 0 <= i < |s| ==> Some(d[i]) == DigitOf(s[i])
  {
    seq(|s|, i requires 0 <= i < |s| => DigitOf(s[i]).value)
  }

  lemma CharsReadBack(d: seq<Digit>)
    ensures AllDigits(Chars(d)) && Read(Chars(d)) == d
  {
    assert forall i :: 0 <= i < |d| ==> DigitOf(Chars(d)[i]) == Some(d[i]);
  }

  lemma ReadWritesBack(s: string)
    requires AllDigits(s)
    ensures Chars(Read(s)) == s
  {
    forall i | 0 <= i < |s| ensures Chars(Read(s))[i] == s[i] {
      CharOfDigit(s[i]);
    }
  }

  /** The digits of base64 text. */
  function Digits(b: Octets): (s: string)
  {
    Chars(ToDigits(b))
  }

  /** How many `=` a text of this many digits needs, and how many the decoder puts back. */
  function PadLength(n: nat): (k: nat)
    ensures (n + k) % 4 == 0 && k < 4
    ensures n % 4 != 1 ==> k <= 2
  {
    (4 - n % 4) % 4
  }

  function Padding(length: nat): (s: string)
    ensures |s| == PadLength(length) && forall i :: 0 <= i < |s| ==> s[i] == '='
  {
    seq(PadLength(length), _ => '=')
  }

  /** What base64 encoders return. */
  function Base64(b: Octets): string
  {
    Digits(b) + Padding(|Digits(b)|)
  }

  function WithoutWhitespace(s: string): (t: string)
    ensures (forall i :: 0 <= i < |s| ==> !IsWhitespace(s[i])) ==> t == s
  {
    if s == "" then ""
    else if IsWhitespace(s[0]) then WithoutWhitespace(s[1..])
    else [s[0]] + WithoutWhitespace(s[1..])
  }

  /** Of a text whose length is a multiple of four, one or two `=` at the end are removed. */
  function Unpadded(s: string): (t: string)
  {
    var n := |s|;
    if n % 4 != 0 || n == 0 || s[n - 1] != '=' then s
    else if s[n - 2] != '=' then s[..n - 1]
    else s[..n - 2]
  }

  /** `atob`, the forgiving decoder. */
  function Atob(text: string): Option<Octets>
  {
    var s := Unpadded(WithoutWhitespace(text));
    if |s| % 4 == 1 || !AllDigits(s) then None else Some(FromDigits(Read(s)))
  }

  /** Digits only, no lone digit at the end, and no spare bits set. */
  predicate Canonical(s: string)
  {
    AllDigits(s) && Exact(Read(s))
  }

  // ---- the links -------------------------------------------------------------

  /** `replace` with a global pattern of one character. */
  function Replace(s: string, from: char, to: char): (t: string)
    ensures |t| == |s| && forall i :: 0 <= i < |s| ==> t[i] == if s[i] == from then to else s[i]
  {
    seq(|s|, i requires 0 <= i < |s| => if s[i] == from then to else s[i])
  }

  function WithoutPadding(s: string): (t: string)
    ensures t <= s && (t == "" || t[|t| - 1] != '=')
    ensures forall i :: |t| <= i < |s| ==> s[i] == '='
  {
    if s != "" && s[|s| - 1] == '=' then WithoutPadding(s[..|s| - 1]) else s
  }

  /** The text between `btoa` and the link. */
  function ToLink(base64: string): string
  {
    WithoutPadding(UrlSafe(base64))
  }

  predicate Latin1(s: string)
  {
    forall i :: 0 <= i < |s| ==> s[i] as nat < 256
  }

  predicate Ascii(s: string)
  {
    forall i :: 0 <= i < |s| ==> s[i] as nat < 128
  }

  function Latin1Octets(s: string): (b: Octets)
    requires Latin1(s)
    ensures |b| == |s| && forall i :: 0 <= i < |s| ==> b[i] == s[i] as nat
  {
    seq(|s|, i requires 0 <= i < |s| => s[i] as nat)
  }

  function Latin1Text(b: Octets): (s: string)
    ensures |s| == |b| && forall i :: 0 <= i < |b| ==> s[i] == b[i] as char
  {
    seq(|b|, i requires 0 <= i < |b| => b[i] as char)
  }

  /** The UI's `encodeForPreview`; `btoa` throws on a character above U+00FF. */
  function EncodeForPreview(cid: string): Option<string>
  {
    if Latin1(cid) then Some(ToLink(Base64(Latin1Octets(cid)))) else None
  }

  function DecodeFromPreview(encoded: string): Option<string>
  {
    var base64 := FromUrlSafe(encoded);
    match Atob(base64 + Padding(|base64|))
    case None => None
    case Some(b) => Some(Latin1Text(b))
  }

  function Utf8(c: char): (b: Octets)
    ensures |b| >= 1 && (|b| == 1 <==> c as nat < 128) && (|b| == 1 ==> b[0] == c as nat)
  {
    var n := c as nat;
    if n < 0x80 then [n]
    else if n < 0x800 then [0xC0 + n / 0x40, 0x80 + n % 0x40]
    else if n < 0x1_0000 then [0xE0 + n / 0x1000, 0x80 + n / 0x40 % 0x40, 0x80 + n % 0x40]
    else [0xF0 + n / 0x4_0000, 0x80 + n / 0x1000 % 0x40, 0x80 + n / 0x40 % 0x40, 0x80 + n % 0x40]
  }

  function Utf8Octets(s: string): Octets
  {
    if s == "" then [] else Utf8(s[0]) + Utf8Octets(s[1..])
  }

  /** The CLI's `encodeForPreview`; `Buffer.from` writes UTF-8. */
  function CliEncodeForPreview(cid: string): string
  {
    ToLink(Base64(Utf8Octets(cid)))
  }

  /** The alphabet of section 5 of RFC 4648. */
  predicate IsUrlSafe(c: char)
  {
    'A' <= c <= 'Z' || 'a' <= c <= 'z' || '0' <= c <= '9' || c == '-' || c == '_'
  }

  /** The URL-safe spelling of base64 digits, and back. */
  function UrlSafe(s: string): (t: string)
  {
    Replace(Replace(s, '+', '-'), '/', '_')
  }

  function FromUrlSafe(s: string): (t: string)
  {
    Replace(Replace(s, '-', '+'), '_', '/')
  }

  lemma UrlSafeIsUndone(s: string)
    requires AllDigits(s)
    ensures FromUrlSafe(UrlSafe(s)) == s
    ensures forall i :: 0 <= i < |s| ==> IsUrlSafe(UrlSafe(s)[i])
  {
    assert forall i :: 0 <= i < |s| ==> DigitOf(s[i]).Some?;
  }

  lemma UrlSafeIsRedone(s: string)
    requires forall i :: 0 <= i < |s| ==> s[i] != '+' && s[i] != '/'
    ensures UrlSafe(FromUrlSafe(s)) == s
  {
  }

  lemma {:induction false} PaddingIsDropped(s: string, n: nat)
    requires s == "" || s[|s| - 1] != '='
    ensures WithoutPadding(s + seq(n, _ => '=')) == s
  {
    var t := s + seq(n, _ => '=');
    if n > 0 {
      assert t[..|t| - 1] == s + seq(n - 1, _ => '=');
      PaddingIsDropped(s, n - 1);
    } else {
      assert t == s;
    }
  }

  lemma DigitsAreCanonical(b: Octets)
    ensures Canonical(Digits(b)) && FromDigits(Read(Digits(b))) == b
  {
    OctetsReadBack(b);
    CharsReadBack(ToDigits(b));
  }

  lemma CanonicalIsAnEncoding(s: string)
    requires Canonical(s)
    ensures Digits(FromDigits(Read(s))) == s
  {
    DigitsReadBack(Read(s));
    ReadWritesBack(s);
  }

  /** A link consists of the URL-safe digits of the octets, with neither padding nor `+` nor `/`. */
  lemma LinkIsUrlSafe(b: Octets)
    ensures ToLink(Base64(b)) == UrlSafe(Digits(b))
    ensures forall i :: 0 <= i < |ToLink(Base64(b))| ==> IsUrlSafe(ToLink(Base64(b))[i])
  {
    var digits := Digits(b);
    DigitsAreCanonical(b);
    UrlSafeIsUndone(digits);
    UrlSafeOfPadded(digits);
    PaddingIsDropped(UrlSafe(digits), PadLength(|digits|));
  }

  lemma UrlSafeOfPadded(s: string)
    ensures UrlSafe(s + Padding(|s|)) == UrlSafe(s) + seq(PadLength(|s|), _ => '=')
  {
  }

  /** The decoder's padding formula puts back exactly what was dropped, so it reads the octets that were written. */
  lemma LinkDecodes(b: Octets)
    ensures DecodeFromPreview(ToLink(Base64(b))) == Some(Latin1Text(b))
  {
    LinkIsUrlSafe(b);
    DigitsAreCanonical(b);
    ExactLength(Read(Digits(b)));
    UrlSafeIsUndone(Digits(b));
    PaddedIsUnpadded(Digits(b));
  }

  lemma PaddedIsUnpadded(s: string)
    requires AllDigits(s) && |s| % 4 != 1
    ensures Unpadded(WithoutWhitespace(s + Padding(|s|))) == s
  {
    PaddingFits(s);
    NoWhitespaceToDrop(s, Padding(|s|));
    PaddingIsRemoved(s, Padding(|s|));
  }

  lemma PaddingFits(s: string)
    requires |s| % 4 != 1
    ensures |Padding(|s|)| <= 2 && |s + Padding(|s|)| % 4 == 0
  {
    assert |s + Padding(|s|)| == |s| + PadLength(|s|);
  }

  lemma NoWhitespaceToDrop(s: string, padding: string)
    requires AllDigits(s) && forall i :: 0 <= i < |padding| ==> padding[i] == '='
    ensures WithoutWhitespace(s + padding) == s + padding
  {
    var t := s + padding;
    forall i | 0 <= i < |t|
      ensures !IsWhitespace(t[i])
    {
      assert t[i] == if i < |s| then s[i] else padding[i - |s|];
    }
  }

  lemma PaddingIsRemoved(s: string, padding: string)
    requires AllDigits(s) && |padding| <= 2 && |s + padding| % 4 == 0
    requires forall i :: 0 <= i < |padding| ==> padding[i] == '='
    ensures Unpadded(s + padding) == s
  {
    var t := s + padding;
    assert t[..|s|] == s;
    if |padding| == 0 {
      assert t == s;
      assert s != "" ==> s[|s| - 1] != '=';
    } else if |padding| == 1 {
      assert t[|t| - 1] == padding[0] && t[|t| - 2] == s[|s| - 1] != '=';
    } else {
      assert t[|t| - 1] == padding[1] && t[|t| - 2] == padding[0];
    }
  }

  /** Every link the UI can write decodes to the text it was written for; and nothing but Latin-1 text can be written. */
  lemma PreviewRoundTrip(cid: string)
    ensures EncodeForPreview(cid).Some? <==> Latin1(cid)
    ensures Latin1(cid) ==> DecodeFromPreview(EncodeForPreview(cid).value) == Some(cid)
    ensures Latin1(cid) ==> forall i :: 0 <= i < |EncodeForPreview(cid).value| ==> IsUrlSafe(EncodeForPreview(cid).value[i])
  {
    if Latin1(cid) {
      var b := Latin1Octets(cid);
      LinkDecodes(b);
      LinkIsUrlSafe(b);
      assert Latin1Text(b) == cid;
    }
  }

  lemma AsciiCons(s: string)
    requires s != ""
    ensures Ascii(s) <==> s[0] as nat < 128 && Ascii(s[1..])
  {
    assert forall i :: 1 <= i < |s| ==> s[i] == s[1..][i - 1];
  }

  lemma {:induction false} Utf8Length(s: string)
    ensures |Utf8Octets(s)| >= |s|
    ensures |Utf8Octets(s)| == |s| <==> Ascii(s)
  {
    if s != "" {
      Utf8Length(s[1..]);
      AsciiCons(s);
    }
  }

  lemma {:induction false} Utf8OfAscii(s: string)
    requires Ascii(s)
    ensures Utf8Octets(s) == Latin1Octets(s)
  {
    if s != "" {
      AsciiCons(s);
      Utf8OfAscii(s[1..]);
      assert Latin1Octets(s) == [s[0] as nat] + Latin1Octets(s[1..]);
    }
  }

  /** A link the CLI writes decodes to its text exactly if the text is ASCII, and then it is the very link the UI writes. */
  lemma CliLinkRoundTrip(cid: string)
    ensures DecodeFromPreview(CliEncodeForPreview(cid)) == Some(cid) <==> Ascii(cid)
    ensures Ascii(cid) ==> EncodeForPreview(cid) == Some(CliEncodeForPreview(cid))
  {
    Utf8Length(cid);
    LinkDecodes(Utf8Octets(cid));
    if Ascii(cid) {
      Utf8OfAscii(cid);
      assert Latin1Text(Latin1Octets(cid)) == cid;
    }
  }

  /** A text without `+` and `/` is a link the UI could have written exactly if its digits are canonical. */
  lemma LinksAreTheCanonicalTexts(link: string)
    requires forall i :: 0 <= i < |link| ==> link[i] != '+' && link[i] != '/'
    ensures (exists cid :: EncodeForPreview(cid) == Some(link)) <==> Canonical(FromUrlSafe(link))
  {
    if Canonical(FromUrlSafe(link)) {
      CanonicalIsAnEncoding(FromUrlSafe(link));
      var b := FromDigits(Read(FromUrlSafe(link)));
      LinkIsUrlSafe(b);
      UrlSafeIsRedone(link);
      assert Latin1Octets(Latin1Text(b)) == b;
      assert EncodeForPreview(Latin1Text(b)) == Some(link);
    }
    if cid :| EncodeForPreview(cid) == Some(link) {
      var b := Latin1Octets(cid);
      LinkIsUrlSafe(b);
      DigitsAreCanonical(b);
      UrlSafeIsUndone(Digits(b));
    }
  }
}
