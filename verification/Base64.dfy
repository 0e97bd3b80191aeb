/** Base64 as the signer uses it: the URL-safe alphabet without padding (section 5 of RFC 4648)
    for the JWS fields, the standard alphabet with padding (section 4) for certificates. */
module Base64 {
  import opened Prelude

  type Byte = x: int | 0 <= x < 256

  datatype Alphabet = Standard | UrlSafe

  type Sextet = x: int | 0 <= x < 64

  function Digit(v: Sextet, a: Alphabet): char {
    if v < 26 then ('A' as int + v) as char
    else if v < 52 then ('a' as int + v - 26) as char
    else if v < 62 then ('0' as int + v - 52) as char
    else if a.Standard? then (if v == 62 then '+' else '/')
    else (if v == 62 then '-' else '_')
  }

  /** `urlsafe_b64decode` maps '-' and '_' to '+' and '/', so it reads both alphabets. */
  function Value(c: char, a: Alphabet): Option<Sextet> {
    if 'A' <= c <= 'Z' then Some(c as int - 'A' as int)
    else if 'a' <= c <= 'z' then Some(c as int - 'a' as int + 26)
    else if '0' <= c <= '9' then Some(c as int - '0' as int + 52)
    else if c == '+' || (a.UrlSafe? && c == '-') then Some(62)
    else if c == '/' || (a.UrlSafe? && c == '_') then Some(63)
    else None
  }

  function Cut1(x: Byte): Sextet {
    x / 4
  }

  function Cut2(x: Byte, y: Byte): Sextet {
    x % 4 * 16 + y / 16
  }

  function Cut3(y: Byte, z: Byte): Sextet {
    y % 16 * 4 + z / 64
  }

  function Cut4(z: Byte): Sextet {
    z % 64
  }

  /** Three bytes become four digits; one or two bytes left over are completed with zero bits
      and become two or three. */
  function Sextets(data: seq<Byte>): seq<Sextet> {
    if |data| == 0 then []
    else if |data| == 1 then [Cut1(data[0]), Cut2(data[0], 0)]
    else if |data| == 2 then [Cut1(data[0]), Cut2(data[0], data[1]), Cut3(data[1], 0)]
    else [Cut1(data[0]), Cut2(data[0], data[1]), Cut3(data[1], data[2]), Cut4(data[2])]
         + Sextets(data[3..])
  }

  function First(p: Sextet, q: Sextet): Byte {
    p * 4 + q / 16
  }

  function Second(p: Sextet, q: Sextet): Byte {
    p % 16 * 16 + q / 4
  }

  function Third(p: Sextet, q: Sextet): Byte {
    p % 4 * 64 + q
  }

  /** The inverse; a single digit left over carries no byte. */
  function Bytes(v: seq<Sextet>): seq<Byte> {
    if |v| < 2 then []
    else if |v| == 2 then [First(v[0], v[1])]
    else if |v| == 3 then [First(v[0], v[1]), Second(v[1], v[2])]
    else [First(v[0], v[1]), Second(v[1], v[2]), Third(v[2], v[3])] + Bytes(v[4..])
  }

  function Digits(v: seq<Sextet>, a: Alphabet): string {
    if v == [] then "" else [Digit(v[0], a)] + Digits(v[1..], a)
  }

  function Pad(n: nat): string {
    if n == 0 then "" else "=" + Pad(n - 1)
  }

  /** How many '=' complete a text of `n` digits. */
  function Missing(n: nat): nat {
    if n % 4 == 0 then 0 else 4 - n % 4
  }

  /** `base64.b64encode` and `base64.urlsafe_b64encode` */
  function Encode(data: seq<Byte>, a: Alphabet): string {
    var d := Digits(Sextets(data), a);
    d + Pad(Missing(|d|))
  }

  /** `bytes.rstrip(b"=")` */
  function StripPad(s: string): string {
    if s != "" && s[|s| - 1] == '=' then StripPad(s[..|s| - 1]) else s
  }

  /** Python's non-strict reader: characters outside the alphabet are skipped; a padding
      character ends the text once the group it closes is complete; a text that ends inside a
      group is an error. `v` are the digits read, `pads` the padding since the last digit. */
  function Scan(s: string, a: Alphabet, v: seq<Sextet>, pads: nat): Option<seq<Byte>>
    decreases |s|
  {
    if s == "" then (if |v| % 4 == 0 then Some(Bytes(v)) else None)
    else if s[0] == '=' then
      if |v| % 4 >= 2 && |v| % 4 + pads + 1 >= 4 then Some(Bytes(v))
      else Scan(s[1..], a, v, if |v| % 4 >= 2 then pads + 1 else pads)
    else
      match Value(s[0], a)
      case None => Scan(s[1..], a, v, pads)
      case Some(d) => Scan(s[1..], a, v + [d], 0)
  }

  predicate Ascii(s: string) {
    forall i :: 0 <= i < |s| ==> s[i] < 128 as char
  }

  /** `base64.b64decode` of a str: only ASCII may be passed. */
  function Decode(s: string, a: Alphabet): Option<seq<Byte>> {
    if Ascii(s) then Scan(s, a, [], 0) else None
  }

  /** `_b64url_encode` */
  function UrlEncode(data: seq<Byte>): string {
    StripPad(Encode(data, UrlSafe))
  }

  /** `_b64url_decode` */
  function UrlDecode(s: string): Option<seq<Byte>> {
    var pad := 4 - |s| % 4;
    Decode(s + Pad(if pad == 4 then 0 else pad), UrlSafe)
  }

  // ---------------------------------------------------------------- round trips

  lemma ValueOfDigit(v: Sextet, a: Alphabet)
    ensures Value(Digit(v, a), a) == Some(v)
    ensures Digit(v, a) != '=' && Digit(v, a) < 128 as char
  {
  }

  /** Three bytes survive being cut into sextets. */
  lemma Regroup(x: Byte, y: Byte, z: Byte)
    ensures First(Cut1(x), Cut2(x, y)) == x
    ensures Second(Cut2(x, y), Cut3(y, z)) == y
    ensures Third(Cut3(y, z), Cut4(z)) == z
  {
  }

  lemma {:induction false} NoLoneSextet(data: seq<Byte>)
    ensures |Sextets(data)| % 4 != 1
    decreases |data|
  {
    hide Cut1, Cut2, Cut3, Cut4;
    if |data| > 2 {
      NoLoneSextet(data[3..]);
    }
  }

  lemma BytesOfGroup(g: seq<Sextet>, rest: seq<Sextet>)
    requires |g| == 4
    ensures Bytes(g + rest) == [First(g[0], g[1]), Second(g[1], g[2]), Third(g[2], g[3])] + Bytes(rest)
  {
    hide First, Second, Third;
    assert (g + rest)[4..] == rest;
  }

  lemma BytesOfOne(x: Byte)
    ensures Bytes([Cut1(x), Cut2(x, 0)]) == [x]
  {
    Regroup(x, 0, 0);
    hide First, Cut1, Cut2;
  }

  lemma BytesOfTwo(x: Byte, y: Byte)
    ensures Bytes([Cut1(x), Cut2(x, y), Cut3(y, 0)]) == [x, y]
  {
    Regroup(x, y, 0);
    hide First, Second, Cut1, Cut2, Cut3;
  }

  lemma BytesOfTail(data: seq<Byte>)
    requires |data| <= 2
    ensures Bytes(Sextets(data)) == data
  {
    hide First, Second, Third, Cut1, Cut2, Cut3, Cut4;
    if |data| == 1 {
      BytesOfOne(data[0]);
      assert data == [data[0]];
    } else if |data| == 2 {
      BytesOfTwo(data[0], data[1]);
      assert data == [data[0], data[1]];
    }
  }

  lemma {:induction false} BytesOfSextets(data: seq<Byte>)
    ensures Bytes(Sextets(data)) == data
    decreases |data|
  {
    if |data| <= 2 {
      BytesOfTail(data);
    } else {
      BytesOfSextets(data[3..]);
      GroupFirst(data);
    }
  }

  lemma BytesOfThree(x: Byte, y: Byte, z: Byte, rest: seq<Sextet>)
    ensures Bytes([Cut1(x), Cut2(x, y), Cut3(y, z), Cut4(z)] + rest) == [x, y, z] + Bytes(rest)
  {
    hide *;
    Regroup(x, y, z);
    BytesOfGroup([Cut1(x), Cut2(x, y), Cut3(y, z), Cut4(z)], rest);
  }

  lemma ThreeAndRest(data: seq<Byte>)
    requires |data| > 2
    ensures data == [data[0], data[1], data[2]] + data[3..]
  {
  }

  lemma GroupFirst(data: seq<Byte>)
    requires |data| > 2 && Bytes(Sextets(data[3..])) == data[3..]
    ensures Bytes(Sextets(data)) == data
  {
    hide *;
    FirstGroup(data);
    BytesOfThree(data[0], data[1], data[2], Sextets(data[3..]));
    ThreeAndRest(data);
  }

  lemma FirstGroup(data: seq<Byte>)
    requires |data| > 2
    ensures Sextets(data)
         == [Cut1(data[0]), Cut2(data[0], data[1]), Cut3(data[1], data[2]), Cut4(data[2])] + Sextets(data[3..])
  {
    hide Cut1, Cut2, Cut3, Cut4;
  }

  lemma {:induction false} DigitsOnly(v: seq<Sextet>, a: Alphabet)
    ensures |Digits(v, a)| == |v|
    ensures forall i :: 0 <= i < |v| ==> Digits(v, a)[i] == Digit(v[i], a)
    decreases |v|
  {
    if v != [] {
      DigitsOnly(v[1..], a);
    }
  }

  lemma {:induction false} PadOnly(n: nat)
    ensures |Pad(n)| == n && forall i :: 0 <= i < n ==> Pad(n)[i] == '='
  {
    if n > 0 {
      PadOnly(n - 1);
    }
  }

  lemma ScanOne(c: char, rest: string, a: Alphabet, v: seq<Sextet>, d: Sextet)
    requires c != '=' && Value(c, a) == Some(d)
    ensures Scan([c] + rest, a, v, 0) == Scan(rest, a, v + [d], 0)
  {
    assert ([c] + rest)[1..] == rest;
  }

  lemma {:induction false} ScanDigits(v: seq<Sextet>, rest: string, a: Alphabet, before: seq<Sextet>)
    ensures Scan(Digits(v, a) + rest, a, before, 0) == Scan(rest, a, before + v, 0)
    decreases |v|
  {
    hide Value, Digit, Scan;
    if v == [] {
      assert Digits(v, a) + rest == rest && before + v == before;
    } else {
      ValueOfDigit(v[0], a);
      var digit := Digit(v[0], a);
      var more := Digits(v[1..], a);
      ScanOne(digit, more + rest, a, before, v[0]);
      assert Digits(v, a) == [digit] + more;
      assert [digit] + more + rest == [digit] + (more + rest);
      ScanDigits(v[1..], rest, a, before + [v[0]]);
      assert before + [v[0]] + v[1..] == before + v;
    }
  }

  lemma ScanPad(v: seq<Sextet>, a: Alphabet)
    requires |v| % 4 != 1
    ensures Scan(Pad(Missing(|v|)), a, v, 0) == Some(Bytes(v))
  {
    if |v| % 4 == 2 {
      assert Pad(2) == "=" + Pad(1) && Pad(2)[1..] == Pad(1);
      assert Scan(Pad(2), a, v, 0) == Scan(Pad(1), a, v, 1);
    }
  }

  /** Decoding inverts encoding, for every byte string and either alphabet. */
  lemma DecodeEncode(data: seq<Byte>, a: Alphabet)
    ensures Decode(Encode(data, a), a) == Some(data)
  {
    var v := Sextets(data);
    DigitsOnly(v, a);
    PadOnly(Missing(|v|));
    forall i | 0 <= i < |v| ensures Digits(v, a)[i] < 128 as char {
      ValueOfDigit(v[i], a);
    }
    BytesOfSextets(data);
    NoLoneSextet(data);
    ScanDigits(v, Pad(Missing(|v|)), a, []);
    assert [] + v == v;
    ScanPad(v, a);
  }

  lemma {:induction false} StripAddsBack(s: string, n: nat)
    requires s == "" || s[|s| - 1] != '='
    ensures StripPad(s + Pad(n)) == s
    decreases n
  {
    if n == 0 {
      assert s + Pad(0) == s;
    } else {
      PadOnly(n);
      PadOnly(n - 1);
      var t := s + Pad(n);
      assert t[..|t| - 1] == s + Pad(n - 1);
      StripAddsBack(s, n - 1);
    }
  }

  /** Stripping the padding and putting it back loses nothing, at every length modulo three;
      the text in between has only URL-safe characters. */
  lemma UrlRoundTrip(data: seq<Byte>)
    ensures UrlDecode(UrlEncode(data)) == Some(data)
    ensures forall c :: c in UrlEncode(data) ==>
      'A' <= c <= 'Z' || 'a' <= c <= 'z' || '0' <= c <= '9' || c == '-' || c == '_'
  {
    var v := Sextets(data);
    var d := Digits(v, UrlSafe);
    DigitsOnly(v, UrlSafe);
    if d != "" {
      ValueOfDigit(v[|v| - 1], UrlSafe);
    }
    StripAddsBack(d, Missing(|d|));
    assert UrlEncode(data) == d;
    DecodeEncode(data, UrlSafe);
  }

  /** Different byte strings have different texts. */
  lemma UrlEncodeInjective(x: seq<Byte>, y: seq<Byte>)
    ensures UrlEncode(x) == UrlEncode(y) <==> x == y
  {
    UrlRoundTrip(x);
    UrlRoundTrip(y);
  }

  // ---------------------------------------------------------------- the encoding of RFC 4648

  /** Tables 1 and 2 of RFC 4648: the digits in the order of their values. */
  lemma Alphabets(v: Sextet)
    ensures v < 26 ==> Digit(v, Standard) == Digit(v, UrlSafe) == "ABCDEFGHIJKLMNOPQRSTUVWXYZ"[v]
    ensures 26 <= v < 52 ==> Digit(v, Standard) == Digit(v, UrlSafe) == "abcdefghijklmnopqrstuvwxyz"[v - 26]
    ensures 52 <= v < 62 ==> Digit(v, Standard) == Digit(v, UrlSafe) == "0123456789"[v - 52]
    ensures v == 62 ==> Digit(v, Standard) == '+' && Digit(v, UrlSafe) == '-'
    ensures v == 63 ==> Digit(v, Standard) == '/' && Digit(v, UrlSafe) == '_'
  {
  }

  /** Four numbers below 64 and three below 256 have the same 24 bits. */
  predicate SameBits(p: int, q: int, r: int, s: int, x: int, y: int, z: int) {
    ((p * 64 + q) * 64 + r) * 64 + s == (x * 256 + y) * 256 + z
  }

  lemma PartsHaveSameBits(a: int, b: int, c: int, d: int, e: int, f: int)
    ensures SameBits(a, b * 16 + c, d * 4 + e, f, a * 4 + b, c * 16 + d, e * 64 + f)
  {
  }

  lemma CutKeepsBits(x: Byte, y: Byte, z: Byte)
    ensures SameBits(Cut1(x), Cut2(x, y), Cut3(y, z), Cut4(z), x, y, z)
  {
    PartsHaveSameBits(x / 4, x % 4, y / 16, y % 16, z / 64, z % 64);
    hide SameBits;
    assert x / 4 * 4 + x % 4 == x && y / 16 * 16 + y % 16 == y && z / 64 * 64 + z % 64 == z;
  }

  lemma NothingCut()
    ensures Cut4(0) == 0 && Cut3(0, 0) == 0
  {
  }

  /** The bits of the bytes are cut into sixes from the left, three bytes at a time; one or two
      bytes at the end are completed with zero bits. */
  lemma SextetsKeepBits(data: seq<Byte>)
    ensures var v := Sextets(data);
      && (|data| == 0 ==> v == [])
      && (|data| == 1 ==> |v| == 2 && SameBits(v[0], v[1], 0, 0, data[0], 0, 0))
      && (|data| == 2 ==> |v| == 3 && SameBits(v[0], v[1], v[2], 0, data[0], data[1], 0))
      && (|data| > 2 ==>
            && |v| >= 4 && v[4..] == Sextets(data[3..])
            && SameBits(v[0], v[1], v[2], v[3], data[0], data[1], data[2]))
  {
    if |data| <= 2 {
      CutTail(data);
    } else {
      CutKeepsBits(data[0], data[1], data[2]);
      FirstGroup(data);
      hide *;
      AfterFour([Cut1(data[0]), Cut2(data[0], data[1]), Cut3(data[1], data[2]), Cut4(data[2])], Sextets(data[3..]));
    }
  }

  lemma AfterFour(g: seq<Sextet>, rest: seq<Sextet>)
    requires |g| == 4
    ensures var v := g + rest;
      |v| >= 4 && v[0] == g[0] && v[1] == g[1] && v[2] == g[2] && v[3] == g[3] && v[4..] == rest
  {
  }

  lemma CutTail(data: seq<Byte>)
    requires |data| <= 2
    ensures var v := Sextets(data);
      && (|data| == 0 ==> v == [])
      && (|data| == 1 ==> |v| == 2 && SameBits(v[0], v[1], 0, 0, data[0], 0, 0))
      && (|data| == 2 ==> |v| == 3 && SameBits(v[0], v[1], v[2], 0, data[0], data[1], 0))
  {
    hide Cut1, Cut2, Cut3, Cut4, SameBits;
    NothingCut();
    if |data| == 1 {
      CutKeepsBits(data[0], 0, 0);
    } else if |data| == 2 {
      CutKeepsBits(data[0], data[1], 0);
    }
  }

  lemma {:induction false} SextetCount(data: seq<Byte>)
    ensures |Sextets(data)| == |data| / 3 * 4 + (if |data| % 3 == 0 then 0 else |data| % 3 + 1)
    decreases |data|
  {
    hide Cut1, Cut2, Cut3, Cut4;
    if |data| > 2 {
      SextetCount(data[3..]);
    }
  }

  lemma PadsToFour(n: nat)
    ensures var k := n / 3 * 4 + (if n % 3 == 0 then 0 else n % 3 + 1); k + Missing(k) == (n + 2) / 3 * 4
  {
  }

  /** Padding completes the last group of four and no more. */
  lemma EncodedLength(data: seq<Byte>, a: Alphabet)
    ensures |Encode(data, a)| == (|data| + 2) / 3 * 4
    ensures |UrlEncode(data)| == |data| / 3 * 4 + (if |data| % 3 == 0 then 0 else |data| % 3 + 1)
  {
    var v := Sextets(data);
    SextetCount(data);
    PadsToFour(|data|);
    hide Missing, Sextets, Pad, Digits, Digit;
    DigitsOnly(v, a);
    PadOnly(Missing(|v|));
    UrlDigits(data);
  }

  lemma UrlDigits(data: seq<Byte>)
    ensures UrlEncode(data) == Digits(Sextets(data), UrlSafe) && |UrlEncode(data)| == |Sextets(data)|
  {
    var v := Sextets(data);
    DigitsOnly(v, UrlSafe);
    if v != [] {
      ValueOfDigit(v[|v| - 1], UrlSafe);
    }
    StripAddsBack(Digits(v, UrlSafe), Missing(|v|));
  }

  /** The reader passes over characters that are neither digits nor padding. */
  lemma {:induction false} ForeignIsSkipped(s: string, c: char, t: string, a: Alphabet, v: seq<Sextet>, pads: nat)
    requires c != '=' && Value(c, a).None?
    ensures Scan(s + [c] + t, a, v, pads) == Scan(s + t, a, v, pads)
    decreases |s|
  {
    if s == "" {
      assert s + [c] + t == [c] + t && s + t == t;
      assert ([c] + t)[1..] == t;
    } else {
      assert (s + [c] + t)[1..] == s[1..] + [c] + t && (s + t)[1..] == s[1..] + t;
      assert (s + [c] + t)[0] == (s + t)[0] == s[0];
      if s[0] == '=' {
        ForeignIsSkipped(s[1..], c, t, a, v, if |v| % 4 >= 2 then pads + 1 else pads);
      } else if Value(s[0], a).None? {
        ForeignIsSkipped(s[1..], c, t, a, v, pads);
      } else {
        ForeignIsSkipped(s[1..], c, t, a, v + [Value(s[0], a).value], 0);
      }
    }
  }
}
