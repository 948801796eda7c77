/** Signed session tokens of the dashboard: base64url (RFC 4648, sections 4 and 5, without padding) over the platform's
    btoa and atob, and sign / verify with HMAC as an uninterpreted function. */
module SessionToken {
  import opened Common

  type Byte = x: int | 0 <= x < 256

  type Sextet = x: int | 0 <= x < 64

  const MAX_AGE_SEC := 60 * 60 * 24 * 7

  // Bits: three octets are four sextets

  /** The sextets of some octets; the last one is filled up with zero bits. */
  function Sextets(b: seq<Byte>): (s: seq<Sextet>)
    ensures |s| == (4 * |b| + 2) / 3
  {
    if |b| == 0 then []
    else if |b| == 1 then [First(b[0]), Second(b[0], 0)]
    else if |b| == 2 then [First(b[0]), Second(b[0], b[1]), Third(b[1], 0)]
    else FourSextets(b[0], b[1], b[2]) + Sextets(b[3..])
  }

  function First(a: int): Sextet
    requires 0 <= a < 256
  {
    a / 4
  }

  function Second(a: int, b: int): Sextet
    requires 0 <= a < 256 && 0 <= b < 256
  {
    a % 4 * 16 + b / 16
  }

  function Third(b: int, c: int): Sextet
    requires 0 <= b < 256 && 0 <= c < 256
  {
    b % 16 * 4 + c / 64
  }

  function Fourth(c: int): Sextet
    requires 0 <= c < 256
  {
    c % 64
  }

  function FourSextets(a: int, b: int, c: int): (s: seq<Sextet>)
    requires 0 <= a < 256 && 0 <= b < 256 && 0 <= c < 256
    ensures |s| == 4
  {
    [First(a), Second(a, b), Third(b, c), Fourth(c)]
  }

  /** The octets of some sextets; left-over bits are dropped. */
  function Octets(s: seq<Sextet>): (b: seq<Byte>)
    requires |s| % 4 != 1
    ensures |b| == 3 * |s| / 4
  {
    if |s| == 0 then []
    else if |s| == 2 then [High(s[0], s[1])]
    else if |s| == 3 then [High(s[0], s[1]), Middle(s[1], s[2])]
    else ThreeOctets(s[0], s[1], s[2], s[3]) + Octets(s[4..])
  }

  function High(v: int, w: int): Byte
    requires 0 <= v < 64 && 0 <= w < 64
  {
    v * 4 + w / 16
  }

  function Middle(w: int, x: int): Byte
    requires 0 <= w < 64 && 0 <= x < 64
  {
    w % 16 * 16 + x / 4
  }

  function Low(x: int, y: int): Byte
    requires 0 <= x < 64 && 0 <= y < 64
  {
    x % 4 * 64 + y
  }

  function ThreeOctets(v: int, w: int, x: int, y: int): (b: seq<Byte>)
    requires 0 <= v < 64 && 0 <= w < 64 && 0 <= x < 64 && 0 <= y < 64
    ensures |b| == 3
  {
    [High(v, w), Middle(w, x), Low(x, y)]
  }

  lemma OctetsRegroup(a: Byte, b: Byte, c: Byte)
    ensures High(First(a), Second(a, b)) == a && Middle(Second(a, b), Third(b, c)) == b
    ensures Low(Third(b, c), Fourth(c)) == c
  {
  }

  /** Read as one number, any three octets are their four sextets; a pair or a single one left over is followed by zero
      bits. */
  lemma {:induction false} SextetsAreTheBits(b: seq<Byte>, k: nat)
    requires 3 * k < |b|
    ensures var s: seq<int>, o: seq<int>, i, j := Sextets(b), b, 4 * k, 3 * k;
            && (j + 2 < |b| ==>
                  ((s[i] * 64 + s[i + 1]) * 64 + s[i + 2]) * 64 + s[i + 3] == (o[j] * 256 + o[j + 1]) * 256 + o[j + 2])
            && (j + 2 == |b| ==> (s[i] * 64 + s[i + 1]) * 64 + s[i + 2] == (o[j] * 256 + o[j + 1]) * 4)
            && (j + 1 == |b| ==> s[i] * 64 + s[i + 1] == o[j] * 16)
  {
    if k > 0 {
      SextetsStep(b);
      SextetsAreTheBits(b[3..], k - 1);
    } else if |b| >= 3 {
      SextetsStep(b);
    }
  }

  /** Octets come back from their sextets. */
  lemma {:induction false} OctetsOfSextets(b: seq<Byte>)
    ensures |Sextets(b)| % 4 != 1 && Octets(Sextets(b)) == b
  {
    hide First, Second, Third, Fourth, High, Middle, Low;
    NoSingleSextet(|b|);
    if |b| == 1 {
      OctetsRegroup(b[0], 0, 0);
      assert b == [b[0]];
    } else if |b| == 2 {
      OctetsRegroup(b[0], b[1], 0);
      assert b == [b[0], b[1]];
    } else if |b| >= 3 {
      OctetsOfSextets(b[3..]);
      OctetGroupComesBack(b);
      assert b == b[..3] + b[3..];
    }
  }

  lemma NoSingleSextet(n: nat)
    ensures (4 * n + 2) / 3 % 4 != 1
  {
  }

  lemma OctetGroupComesBack(b: seq<Byte>)
    requires |b| >= 3 && |Sextets(b)| % 4 != 1 && |Sextets(b[3..])| % 4 != 1
    ensures Octets(Sextets(b)) == b[..3] + Octets(Sextets(b[3..]))
  {
    hide First, Second, Third, Fourth, High, Middle, Low, Octets, Sextets;
    SextetsStep(b);
    OctetsStep(Sextets(b));
    OctetsRegroup(b[0], b[1], b[2]);
    var group := FourSextets(b[0], b[1], b[2]);
    assert Sextets(b)[4..] == Sextets(b[3..]);
    assert ThreeOctets(group[0], group[1], group[2], group[3]) == b[..3];
  }

  lemma SextetsStep(b: seq<Byte>)
    requires |b| >= 3
    ensures Sextets(b) == FourSextets(b[0], b[1], b[2]) + Sextets(b[3..])
  {
    hide FourSextets;
  }

  lemma OctetsStep(s: seq<Sextet>)
    requires |s| % 4 != 1 && |s| >= 4
    ensures Octets(s) == ThreeOctets(s[0], s[1], s[2], s[3]) + Octets(s[4..])
  {
    hide ThreeOctets;
  }

  /** The bits that octets do not fill are zero. */
  predicate Canonical(s: seq<Sextet>) {
    (|s| % 4 == 2 ==> s[|s| - 1] % 16 == 0) && (|s| % 4 == 3 ==> s[|s| - 1] % 4 == 0)
  }

  lemma SextetsRegroup(v: Sextet, w: Sextet, x: Sextet, y: Sextet)
    ensures First(High(v, w)) == v && Second(High(v, w), Middle(w, x)) == w
    ensures Third(Middle(w, x), Low(x, y)) == x && Fourth(Low(x, y)) == y
    ensures (Second(High(v, w), 0) == w <==> w % 16 == 0) && (Third(Middle(w, x), 0) == x <==> x % 4 == 0)
  {
  }

  /** Exactly the canonical sextets come back from their octets. */
  lemma {:induction false} SextetsOfOctets(s: seq<Sextet>)
    requires |s| % 4 != 1
    ensures Sextets(Octets(s)) == s <==> Canonical(s)
  {
    hide First, Second, Third, Fourth, High, Middle, Low;
    if |s| == 2 {
      SextetsRegroup(s[0], s[1], 0, 0);
      assert s == [s[0], s[1]];
    } else if |s| == 3 {
      SextetsRegroup(s[0], s[1], s[2], 0);
      assert s == [s[0], s[1], s[2]];
    } else if |s| >= 4 {
      SextetsOfOctets(s[4..]);
      SextetGroupComesBack(s);
      assert s == s[..4] + s[4..];
    }
  }

  lemma SextetGroupComesBack(s: seq<Sextet>)
    requires |s| % 4 != 1 && |s| >= 4
    ensures |s[4..]| % 4 == |s| % 4 && Sextets(Octets(s)) == s[..4] + Sextets(Octets(s[4..]))
    ensures Canonical(s) <==> Canonical(s[4..])
  {
    hide First, Second, Third, Fourth, High, Middle, Low, Octets, Sextets, Canonical;
    SameRest(s);
    var group := ThreeOctets(s[0], s[1], s[2], s[3]);
    OctetsStep(s);
    SextetsStep(Octets(s));
    SextetsRegroup(s[0], s[1], s[2], s[3]);
    assert FourSextets(group[0], group[1], group[2]) == s[..4];
  }

  lemma SameRest(s: seq<Sextet>)
    requires |s| >= 4
    ensures |s[4..]| % 4 == |s| % 4
    ensures Canonical(s) <==> Canonical(s[4..])
  {
  }

  // Alphabets

  function StdChar(v: Sextet): char {
    if v < 26 then 'A' + v as char
    else if v < 52 then 'a' + (v - 26) as char
    else if v < 62 then '0' + (v - 52) as char
    else if v == 62 then '+' else '/'
  }

  function UrlChar(v: Sextet): char {
    if v == 62 then '-' else if v == 63 then '_' else StdChar(v)
  }

  function StdValue(c: char): Option<Sextet> {
    if 'A' <= c <= 'Z' then Some((c - 'A') as int)
    else if 'a' <= c <= 'z' then Some((c - 'a') as int + 26)
    else if '0' <= c <= '9' then Some((c - '0') as int + 52)
    else if c == '+' then Some(62)
    else if c == '/' then Some(63)
    else None
  }

  function StdChars(s: seq<Sextet>): (r: string)
    ensures |r| == |s| && forall i :: 0 <= i < |r| ==> r[i] == StdChar(s[i])
  {
    seq(|s|, i requires 0 <= i < |s| => StdChar(s[i]))
  }

  function UrlChars(s: seq<Sextet>): (r: string)
    ensures |r| == |s| && forall i :: 0 <= i < |r| ==> r[i] == UrlChar(s[i])
  {
    seq(|s|, i requires 0 <= i < |s| => UrlChar(s[i]))
  }

  /** Text to the URL alphabet, and back. */
  function ToUrl(c: char): char {
    if c == '+' then '-' else if c == '/' then '_' else c
  }

  function FromUrl(c: char): char {
    if c == '-' then '+' else if c == '_' then '/' else c
  }

  function MapChars(f: char -> char, s: string): (r: string)
    ensures |r| == |s| && forall i :: 0 <= i < |r| ==> r[i] == f(s[i])
  {
    seq(|s|, i requires 0 <= i < |s| => f(s[i]))
  }

  lemma CharRoundTrip(v: Sextet)
    ensures StdValue(StdChar(v)) == Some(v)
    ensures ToUrl(StdChar(v)) == UrlChar(v) && FromUrl(UrlChar(v)) == StdChar(v)
    ensures StdChar(v) != '=' && UrlChar(v) != '=' && UrlChar(v) != '.' && !IsSpace(StdChar(v))
  {
  }

  // btoa and atob

  function Padding(n: nat): (r: string)
    ensures forall i :: 0 <= i < |r| ==> r[i] == '='
  {
    if n % 3 == 1 then "==" else if n % 3 == 2 then "=" else ""
  }

  /** Character codes of a binary string. */
  function Codes(s: string): (b: seq<Byte>)
    requires forall i :: 0 <= i < |s| ==> s[i] as int < 256
    ensures |b| == |s| && forall i :: 0 <= i < |b| ==> b[i] == s[i] as int
  {
    seq(|s|, i requires 0 <= i < |s| => s[i] as int)
  }

  function Btoa(binary: string): string
    requires forall i :: 0 <= i < |binary| ==> binary[i] as int < 256
  {
    StdChars(Sextets(Codes(binary))) + Padding(|binary|)
  }

  predicate IsSpace(c: char) {
    c == ' ' || c == '\t' || c == '\n' || c == '\r' || c as int == 12
  }

  function Unspaced(s: string): string {
    if |s| == 0 then "" else Unspaced(s[..|s| - 1]) + if IsSpace(s[|s| - 1]) then "" else [s[|s| - 1]]
  }

  /** Forgiving decode: up to two padding characters are dropped when the length is a multiple of four. */
  function Unpadded(s: string): string {
    if |s| > 0 && |s| % 4 == 0 && s[|s| - 1] == '=' then
      if |s| > 1 && s[|s| - 2] == '=' then s[..|s| - 2] else s[..|s| - 1]
    else s
  }

  predicate InAlphabet(s: string) {
    forall i :: 0 <= i < |s| ==> StdValue(s[i]).Some?
  }

  function Values(s: string): (r: seq<Sextet>)
    requires InAlphabet(s)
    ensures |r| == |s|
  {
    seq(|s|, i requires 0 <= i < |s| => StdValue(s[i]).value)
  }

  /** None where atob throws. */
  function Atob(s: string): Option<seq<Byte>> {
    var t := Unpadded(Unspaced(s));
    if |t| % 4 == 1 || !InAlphabet(t) then None else Some(Octets(Values(t)))
  }

  // Encode and decode

  /** The reference: the sextets in the URL alphabet, unpadded. */
  function UrlEncoded(b: seq<Byte>): string {
    UrlChars(Sextets(b))
  }

  function WithoutTrailing(s: string): string {
    if |s| > 0 && s[|s| - 1] == '=' then WithoutTrailing(s[..|s| - 1]) else s
  }

  lemma {:induction false} TrailingDropped(s: string, pad: string)
    requires (forall i :: 0 <= i < |pad| ==> pad[i] == '=') && (|s| > 0 ==> s[|s| - 1] != '=')
    ensures WithoutTrailing(s + pad) == s
  {
    if |pad| > 0 {
      assert (s + pad)[..|s + pad| - 1] == s + pad[..|pad| - 1];
      TrailingDropped(s, pad[..|pad| - 1]);
    } else {
      assert s + pad == s;
    }
  }

  lemma EncodedUrl(b: seq<Byte>)
    ensures WithoutTrailing(MapChars(ToUrl, StdChars(Sextets(b)) + Padding(|b|))) == UrlEncoded(b)
  {
    hide StdChar, UrlChar, ToUrl, WithoutTrailing, Sextets, Padding, MapChars;
    var x := Sextets(b);
    UrlTranslation(x, Padding(|b|));
    if |x| > 0 {
      CharRoundTrip(x[|x| - 1]);
      assert UrlChars(x)[|x| - 1] == UrlChar(x[|x| - 1]);
    }
    TrailingDropped(UrlChars(x), Padding(|b|));
  }

  /** Replacing '+' and '/' takes standard characters to those of the URL alphabet, and leaves the padding alone. */
  lemma UrlTranslation(x: seq<Sextet>, pad: string)
    requires forall i :: 0 <= i < |pad| ==> pad[i] == '='
    ensures MapChars(ToUrl, StdChars(x) + pad) == UrlChars(x) + pad
    ensures MapChars(FromUrl, UrlChars(x)) == StdChars(x)
  {
    hide StdChar, UrlChar;
    forall i | 0 <= i < |x|
      ensures ToUrl(StdChars(x)[i]) == UrlChars(x)[i] && FromUrl(UrlChars(x)[i]) == StdChars(x)[i]
    {
      CharRoundTrip(x[i]);
    }
    var text := StdChars(x) + pad;
    forall i | 0 <= i < |text|
      ensures MapChars(ToUrl, text)[i] == (UrlChars(x) + pad)[i]
    {
      if i < |x| {
        assert text[i] == StdChars(x)[i];
      } else {
        assert text[i] == pad[i - |x|] == '=';
      }
    }
  }

  method Base64UrlEncode(bytes: seq<Byte>) returns (r: string)
    ensures r == UrlEncoded(bytes)
  {
    var binary := "";
    for i := 0 to |bytes|
      invariant |binary| == i && forall j :: 0 <= j < i ==> binary[j] as int == bytes[j]
    {
      binary := binary + [bytes[i] as char];
    }
    assert Codes(binary) == bytes;
    EncodedUrl(bytes);
    var b64 := Btoa(binary);
    r := WithoutTrailing(MapChars(ToUrl, b64));
  }

  function Equals(n: nat): (r: string)
    ensures |r| == n && forall i :: 0 <= i < n ==> r[i] == '='
  {
    seq(n, i => '=')
  }

  /** What base64UrlDecode makes of any text; None where it throws. */
  function UrlDecoded(s: string): Option<seq<Byte>> {
    Atob(MapChars(FromUrl, s) + Equals((4 - |s| % 4) % 4))
  }

  method Base64UrlDecode(s: string) returns (r: Option<seq<Byte>>)
    ensures r == UrlDecoded(s)
  {
    var pad := (4 - |s| % 4) % 4;
    var binary := Atob(MapChars(FromUrl, s) + Equals(pad));
    if binary.None? {
      return None;
    }
    var out: seq<Byte> := [];
    for i := 0 to |binary.value|
      invariant out == binary.value[..i]
    {
      out := out + [binary.value[i]];
    }
    assert out == binary.value;
    return Some(out);
  }

  lemma {:induction false} NothingToUnspace(s: string)
    requires forall i :: 0 <= i < |s| ==> !IsSpace(s[i])
    ensures Unspaced(s) == s
  {
    if |s| > 0 {
      NothingToUnspace(s[..|s| - 1]);
      assert s == s[..|s| - 1] + [s[|s| - 1]];
    }
  }

  /** Decoding text in the URL alphabet gives the octets of its sextets. */
  lemma DecodedChars(x: seq<Sextet>)
    requires |x| % 4 != 1
    ensures UrlDecoded(UrlChars(x)) == Some(Octets(x))
  {
    hide *;
    var pad := Equals((4 - |x| % 4) % 4);
    UrlTranslation(x, "");
    Unpads(x, pad);
    AtobValues(StdChars(x) + pad, x);
    UrlDecodedIs(UrlChars(x));
  }

  lemma UrlDecodedIs(s: string)
    ensures UrlDecoded(s) == Atob(MapChars(FromUrl, s) + Equals((4 - |s| % 4) % 4))
  {
  }

  lemma AtobValues(text: string, x: seq<Sextet>)
    requires |x| % 4 != 1 && Unpadded(Unspaced(text)) == StdChars(x)
    ensures Atob(text) == Some(Octets(x))
  {
    hide Unspaced, Unpadded, StdChars, Octets, InAlphabet, Values;
    StdDecoded(x);
  }

  lemma StdDecoded(x: seq<Sextet>)
    ensures InAlphabet(StdChars(x)) && Values(StdChars(x)) == x
  {
    hide StdChar, StdValue;
    forall i | 0 <= i < |x|
      ensures StdValue(StdChars(x)[i]) == Some(x[i])
    {
      CharRoundTrip(x[i]);
    }
  }

  lemma PaddingIsNoSpace()
    ensures !IsSpace('=')
  {
  }

  lemma Unpads(x: seq<Sextet>, pad: string)
    requires |x| % 4 != 1 && |pad| == (4 - |x| % 4) % 4 && forall i :: 0 <= i < |pad| ==> pad[i] == '='
    ensures Unpadded(Unspaced(StdChars(x) + pad)) == StdChars(x)
  {
    hide StdChar, IsSpace, Unspaced, Unpadded;
    var text := StdChars(x) + pad;
    forall i | 0 <= i < |x|
      ensures StdChars(x)[i] != '=' && !IsSpace(StdChars(x)[i])
    {
      CharRoundTrip(x[i]);
    }
    PaddingIsNoSpace();
    NothingToUnspace(text);
    PaddingDropped(StdChars(x), pad);
  }

  lemma PaddingDropped(t: string, pad: string)
    requires |t| % 4 != 1 && |pad| == (4 - |t| % 4) % 4
    requires (forall i :: 0 <= i < |pad| ==> pad[i] == '=') && forall i :: 0 <= i < |t| ==> t[i] != '='
    ensures Unpadded(t + pad) == t
  {
    var text := t + pad;
    if |pad| == 0 {
      assert text == t;
    } else {
      assert |pad| <= 2 && |text| % 4 == 0;
      assert text[..|t|] == t;
    }
  }

  /** Round trip: decoding an encoding gives the bytes back, and no encoding contains a '.' or a padding character. */
  lemma RoundTrip(b: seq<Byte>)
    ensures UrlDecoded(UrlEncoded(b)) == Some(b)
    ensures forall i :: 0 <= i < |UrlEncoded(b)| ==> UrlEncoded(b)[i] != '.' && UrlEncoded(b)[i] != '='
    ensures |UrlEncoded(b)| == (4 * |b| + 2) / 3
  {
    OctetsOfSextets(b);
    DecodedChars(Sextets(b));
    forall i | 0 <= i < |UrlEncoded(b)|
      ensures UrlEncoded(b)[i] != '.' && UrlEncoded(b)[i] != '='
    {
      CharRoundTrip(Sextets(b)[i]);
    }
  }

  lemma UrlCharsInjective(x: seq<Sextet>, y: seq<Sextet>)
    requires UrlChars(x) == UrlChars(y)
    ensures x == y
  {
    assert |x| == |y|;
    forall i | 0 <= i < |x|
      ensures x[i] == y[i]
    {
      assert UrlChars(x)[i] == UrlChars(y)[i];
      CharRoundTrip(x[i]);
      CharRoundTrip(y[i]);
    }
  }

  /** The other way round: text in the URL alphabet decodes unless a single character is left over, and encoding the result
      gives the same text exactly when its unused bits are zero. */
  lemma CanonicalTextIff(x: seq<Sextet>)
    requires |x| % 4 != 1
    ensures UrlDecoded(UrlChars(x)).Some?
    ensures UrlEncoded(UrlDecoded(UrlChars(x)).value) == UrlChars(x) <==> Canonical(x)
  {
    DecodedChars(x);
    SextetsOfOctets(x);
    if UrlEncoded(Octets(x)) == UrlChars(x) {
      UrlCharsInjective(Sextets(Octets(x)), x);
    }
  }

  // Tokens

  function Digits(n: nat): string {
    if n < 10 then ['0' + n as char] else Digits(n / 10) + ['0' + (n % 10) as char]
  }

  /** JSON.stringify of the expiry. */
  function Payload(exp: nat): string {
    "{\"exp\":" + Digits(exp) + "}"
  }

  lemma {:induction false} DigitsAscii(exp: nat)
    ensures forall i :: 0 <= i < |Digits(exp)| ==> Digits(exp)[i] as int < 128
  {
    if exp >= 10 {
      DigitsAscii(exp / 10);
    }
  }

  /** TextEncoder on the payload, which is ASCII. */
  function PayloadBytes(exp: nat): seq<Byte> {
    DigitsAscii(exp);
    Codes(Payload(exp))
  }

  /** A decimal numeral without leading zeros. */
  predicate Decimal(digits: string) {
    |digits| > 0 && (forall i :: 0 <= i < |digits| ==> '0' <= digits[i] <= '9') && (|digits| > 1 ==> digits[0] != '0')
  }

  /** The number a numeral stands for, read from its most significant digit. */
  function ValueOf(digits: string): int {
    if |digits| == 0 then 0 else 10 * ValueOf(digits[..|digits| - 1]) + (digits[|digits| - 1] as int - '0' as int)
  }

  lemma {:induction false} DigitsRead(n: nat)
    ensures Decimal(Digits(n)) && ValueOf(Digits(n)) == n && (n > 0 ==> Digits(n)[0] != '0')
  {
    if n >= 10 {
      DigitsRead(n / 10);
      assert Digits(n)[..|Digits(n)| - 1] == Digits(n / 10);
    } else {
      assert Digits(n)[..0] == "";
    }
  }

  /** JSON.parse finds a number in an object with nothing but its decimal numeral as "exp". */
  ghost predicate ReadsExp(p: Platform, exp: nat) {
    forall digits: string :: Decimal(digits) && ValueOf(digits) == exp ==>
      p.expOf(Codes("{\"exp\":" + digits + "}")) == Some(Finite(exp as real))
  }

  /** A number as JSON.parse reads it: a literal beyond the range of a double becomes infinite. */
  datatype Number = Finite(r: real) | Infinite(positive: bool)

  /** A time in whole seconds is before the number. */
  predicate Before(seconds: int, n: Number) {
    match n
    case Finite(r) => seconds as real < r
    case Infinite(positive) => positive
  }

  /** Foreign parts: the MAC of an encoded text under a secret, and the number that JSON.parse finds as "exp" in decoded
      bytes, None where the bytes do not parse or exp is not a number. */
  datatype Platform = Platform(mac: (string, string) -> seq<Byte>, expOf: seq<Byte> -> Option<Number>)

  function Signed(p: Platform, secret: string, nowMs: nat): string {
    var payload := UrlEncoded(PayloadBytes(nowMs / 1000 + MAX_AGE_SEC));
    payload + "." + UrlEncoded(p.mac(secret, payload))
  }

  /** Index of the last '.', -1 without one. */
  function LastDot(s: string): (i: int)
    ensures -1 <= i < |s| && (i >= 0 ==> s[i] == '.') && forall j :: i < j < |s| ==> s[j] != '.'
  {
    if |s| == 0 then -1 else if s[|s| - 1] == '.' then |s| - 1 else LastDot(s[..|s| - 1])
  }

  method SignSessionToken(p: Platform, secret: string, nowMs: nat) returns (token: string)
    ensures token == Signed(p, secret, nowMs)
  {
    var exp := nowMs / 1000 + MAX_AGE_SEC;
    var payloadB64 := Base64UrlEncode(PayloadBytes(exp));
    var sigBuf := p.mac(secret, payloadB64);
    var sigB64 := Base64UrlEncode(sigBuf);
    token := payloadB64 + "." + sigB64;
  }

  /** A payload and a signature, in that order: what verification demands of the two parts of a token. */
  predicate Authentic(p: Platform, payload: string, sig: string, secret: string, nowMs: nat) {
    && UrlDecoded(sig) == Some(p.mac(secret, payload))
    && UrlDecoded(payload).Some?
    && var exp := p.expOf(UrlDecoded(payload).value); exp.Some? && Before(nowMs / 1000, exp.value)
  }

  predicate Verified(p: Platform, full: string, secret: string, nowMs: nat) {
    var i := LastDot(full);
    0 < i < |full| - 1 && Authentic(p, full[..i], full[i + 1..], secret, nowMs)
  }

  method VerifySessionToken(p: Platform, full: string, secret: string, nowMs: nat) returns (r: bool)
    ensures r == Verified(p, full, secret, nowMs)
  {
    hide UrlDecoded, LastDot;
    var i := LastDot(full);
    if i <= 0 {
      return false;
    }
    var payloadB64, sigB64 := full[..i], full[i + 1..];
    if |payloadB64| == 0 || |sigB64| == 0 {
      return false;
    }
    var sigBytes := Base64UrlDecode(sigB64);
    if sigBytes.None? || sigBytes.value != p.mac(secret, payloadB64) {
      return false;
    }
    var payloadBytes := Base64UrlDecode(payloadB64);
    if payloadBytes.None? {
      return false;
    }
    var exp := p.expOf(payloadBytes.value);
    return exp.Some? && Before(nowMs / 1000, exp.value);
  }

  /** Splitting at the last '.' recovers both parts of any text whose second part has none. */
  lemma SplitsAtLastDot(payload: string, sig: string)
    requires forall j :: 0 <= j < |sig| ==> sig[j] != '.'
    ensures var token := payload + "." + sig;
            LastDot(token) == |payload| && token[..|payload|] == payload && token[|payload| + 1..] == sig
  {
    var token := payload + "." + sig;
    hide LastDot;
    assert token[|payload|] == '.';
    forall j | |payload| < j < |token|
      ensures token[j] != '.'
    {
      assert token[j] == sig[j - |payload| - 1];
    }
  }

  /** A signed token has one '.', between two non-empty parts; splitting at the last one recovers both. */
  lemma TokenSplits(p: Platform, secret: string, nowMs: nat)
    requires forall text :: |p.mac(secret, text)| > 0
    ensures var payload := UrlEncoded(PayloadBytes(nowMs / 1000 + MAX_AGE_SEC));
            var token, i := Signed(p, secret, nowMs), |payload|;
            && 0 < i < |token| - 1 && LastDot(token) == i
            && (forall j :: 0 <= j < |token| ==> (token[j] == '.' <==> j == i))
            && token[..i] == payload && token[i + 1..] == UrlEncoded(p.mac(secret, payload))
  {
    hide UrlEncoded, UrlDecoded, LastDot, PayloadBytes;
    var bytes := PayloadBytes(nowMs / 1000 + MAX_AGE_SEC);
    var payload := UrlEncoded(bytes);
    var mac := p.mac(secret, payload);
    PayloadNotEmpty(nowMs / 1000 + MAX_AGE_SEC);
    RoundTrip(bytes);
    RoundTrip(mac);
    SplitsAtLastDot(payload, UrlEncoded(mac));
  }

  lemma PayloadNotEmpty(exp: nat)
    ensures |PayloadBytes(exp)| > 0
  {
    hide Digits;
  }

  /** A token signed under a secret verifies under a secret, at any later or earlier time, exactly when the two secrets give
      the part before its '.' the same MAC and its week, 604800 seconds, is not over. In particular it verifies under its
      own secret until then. JSON is relied on only to read back the one number that was written. */
  lemma SignedVerifiesIff(p: Platform, secret: string, other: string, signedMs: nat, nowMs: nat)
    requires forall text :: |p.mac(secret, text)| > 0
    requires ReadsExp(p, signedMs / 1000 + 604_800)
    ensures var token := Signed(p, secret, signedMs);
            exists payload, sig ::
              && Joined(token, payload, sig)
              && (Verified(p, token, other, nowMs) <==>
                    p.mac(other, payload) == p.mac(secret, payload) && nowMs / 1000 < signedMs / 1000 + 604_800)
  {
    hide UrlEncoded, UrlDecoded, LastDot, PayloadBytes, Signed;
    TokenSplits(p, secret, signedMs);
    var exp := signedMs / 1000 + MAX_AGE_SEC;
    var bytes := PayloadBytes(exp);
    ReadsBack(p, exp);
    RoundTrip(bytes);
    RoundTrip(p.mac(secret, UrlEncoded(bytes)));
    var token, payload, sig := Signed(p, secret, signedMs), UrlEncoded(bytes), UrlEncoded(p.mac(secret, UrlEncoded(bytes)));
    assert token == payload + "." + sig;
    assert Joined(token, payload, sig);
  }

  lemma ReadsBack(p: Platform, exp: nat)
    requires ReadsExp(p, exp)
    ensures p.expOf(PayloadBytes(exp)) == Some(Finite(exp as real))
  {
    hide Digits;
    DigitsRead(exp);
    DigitsAscii(exp);
  }

  /** Acceptance without indices: a text is accepted exactly when it is an authentic payload and signature, neither of them
      empty, joined by a '.' that does not occur in the signature. */
  lemma VerifiedIff(p: Platform, full: string, secret: string, nowMs: nat)
    ensures Verified(p, full, secret, nowMs) <==>
              exists payload, sig :: Joined(full, payload, sig) && Authentic(p, payload, sig, secret, nowMs)
  {
    hide Authentic, LastDot;
    var i := LastDot(full);
    if Verified(p, full, secret, nowMs) {
      assert full == full[..i] + "." + full[i + 1..];
      assert Joined(full, full[..i], full[i + 1..]);
    }
    forall payload, sig | Joined(full, payload, sig) && Authentic(p, payload, sig, secret, nowMs)
      ensures Verified(p, full, secret, nowMs)
    {
      SplitsAtLastDot(payload, sig);
    }
  }

  predicate Joined(full: string, payload: string, sig: string) {
    |payload| > 0 && |sig| > 0 && full == payload + "." + sig && forall j :: 0 <= j < |sig| ==> sig[j] != '.'
  }
}
