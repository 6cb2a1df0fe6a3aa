/**
 encodeURIComponent with spaces as plus signs, and the form decoder that undoes it.  Characters are
 Unicode scalar values, encoded in UTF-8 (section 3 of RFC 3629) and percent-encoded (section 2.1 of
 RFC 3986); the characters left alone are those of encodeURIComponent (section 19.2.6 of ECMA-262).
 */
module UriEncoding {
  import opened Common

  type Byte = n: nat | n < 256

  // ---------- UTF-8 ----------

  function Utf8(c: char): (b: seq<Byte>)
    ensures |b| > 0
  {
    var n := c as int;
    if n < 0x80 then [n]
    else if n < 0x800 then [0xC0 + n / 64, 0x80 + n % 64]
    else if n < 0x10000 then [0xE0 + n / 4096, 0x80 + n / 64 % 64, 0x80 + n % 64]
    else [0xF0 + n / 262144, 0x80 + n / 4096 % 64, 0x80 + n / 64 % 64, 0x80 + n % 64]
  }

  function Utf8All(s: string): seq<Byte> {
    if s == "" then [] else Utf8(s[0]) + Utf8All(s[1..])
  }

  predicate IsScalar(n: int) { 0 <= n < 0xD800 || 0xE000 <= n < 0x110000 }

  predicate IsContinuation(b: Byte) { 0x80 <= b < 0xC0 }

  /** The number of bytes a first byte announces; 0 if it cannot come first. */
  function SequenceLength(first: Byte): nat {
    if first < 0x80 then 1 else if first < 0xC0 then 0 else if first < 0xE0 then 2 else if first < 0xF0 then 3
    else if first < 0xF8 then 4 else 0
  }

  /** The number a first byte of an n-byte sequence stands for. */
  function Lead(first: Byte, n: nat): int {
    first - (if n == 1 then 0 else if n == 2 then 0xC0 else if n == 3 then 0xE0 else 0xF0)
  }

  function Folded(lead: int, rest: seq<Byte>): int {
    if rest == [] then lead else Folded(lead, rest[..|rest| - 1]) * 64 - 0x80 + rest[|rest| - 1]
  }

  function Utf8Decode(b: seq<Byte>): Option<string> {
    if b == [] then Some("") else
    var n := SequenceLength(b[0]);
    if n == 0 || n > |b| || exists i :: 1 <= i < n && !IsContinuation(b[i]) then None else
    var code := Folded(Lead(b[0], n), b[1..n]);
    if !IsScalar(code) then None else
    match Utf8Decode(b[n..])
    case None => None
    case Some(s) => Some([code as char] + s)
  }

  lemma FoldOne(lead: int, a: Byte)
    ensures Folded(lead, [a]) == lead * 64 + (a - 0x80)
  {
    assert [a][..0] == [];
  }

  lemma FoldTwo(lead: int, a: Byte, b: Byte)
    ensures Folded(lead, [a, b]) == (lead * 64 + (a - 0x80)) * 64 + (b - 0x80)
  {
    FoldOne(lead, a);
    assert [a, b][..1] == [a];
  }

  lemma FoldThree(lead: int, a: Byte, b: Byte, c: Byte)
    ensures Folded(lead, [a, b, c]) == ((lead * 64 + (a - 0x80)) * 64 + (b - 0x80)) * 64 + (c - 0x80)
  {
    FoldTwo(lead, a, b);
    assert [a, b, c][..2] == [a, b];
  }

  lemma SplitTwo(n: nat)
    ensures n / 64 * 64 + n % 64 == n
  {
  }

  lemma SplitThree(n: nat)
    ensures (n / 4096 * 64 + n / 64 % 64) * 64 + n % 64 == n
  {
    assert n / 4096 == n / 64 / 64;
    SplitTwo(n / 64);
    SplitTwo(n);
  }

  lemma SplitFour(n: nat)
    ensures ((n / 262144 * 64 + n / 4096 % 64) * 64 + n / 64 % 64) * 64 + n % 64 == n
  {
    assert n / 262144 == n / 64 / 64 / 64 && n / 4096 == n / 64 / 64;
    SplitTwo(n / 64 / 64);
    SplitTwo(n / 64);
    SplitTwo(n);
  }

  lemma Utf8Shape(c: char)
    ensures var b := Utf8(c);
            && SequenceLength(b[0]) == |b|
            && forall i :: 1 <= i < |b| ==> IsContinuation(b[i])
  {
  }

  /** The bytes of one character fold back to its number. */
  lemma Utf8Folds(c: char)
    ensures var b := Utf8(c); Folded(Lead(b[0], |b|), b[1..]) == c as int
  {
    var n, b := c as int, Utf8(c);
    if |b| == 1 {
      assert b[1..] == [];
    } else if |b| == 2 {
      SplitTwo(n);
      FoldOne(n / 64, b[1]);
      assert b[1..] == [b[1]];
    } else if |b| == 3 {
      SplitThree(n);
      FoldTwo(n / 4096, b[1], b[2]);
      assert b[1..] == [b[1], b[2]];
    } else {
      SplitFour(n);
      FoldThree(n / 262144, b[1], b[2], b[3]);
      assert b[1..] == [b[1], b[2], b[3]];
    }
  }

  lemma {:induction false} Utf8RoundTrip(s: string)
    ensures Utf8Decode(Utf8All(s)) == Some(s)
  {
    if s != "" {
      var c, rest := Utf8(s[0]), Utf8All(s[1..]);
      Utf8Shape(s[0]);
      Utf8Folds(s[0]);
      Utf8RoundTrip(s[1..]);
      var b := c + rest;
      assert b[..|c|] == c && b[1..|c|] == c[1..] && b[|c|..] == rest;
      assert s == [s[0]] + s[1..];
    }
  }

  // ---------- percent encoding ----------

  const HEX := "0123456789ABCDEF"

  predicate IsUnreserved(c: char) {
    'A' <= c <= 'Z' || 'a' <= c <= 'z' || '0' <= c <= '9' || c in "-_.!~*'()"
  }

  function Percent(b: Byte): string { ['%', HEX[b / 16], HEX[b % 16]] }

  function PercentAll(b: seq<Byte>): string {
    if b == [] then "" else Percent(b[0]) + PercentAll(b[1..])
  }

  function EncodeChar(c: char): string { if IsUnreserved(c) then [c] else PercentAll(Utf8(c)) }

  function EncodeURIComponent(s: string): string {
    if s == "" then "" else EncodeChar(s[0]) + EncodeURIComponent(s[1..])
  }

  /** `t.replace(/%20/g, "+")` */
  function SpacesToPlus(t: string): string {
    if t == "" then ""
    else if |t| >= 3 && t[..3] == "%20" then "+" + SpacesToPlus(t[3..])
    else [t[0]] + SpacesToPlus(t[1..])
  }

  function EncodeValue(s: string): string { SpacesToPlus(EncodeURIComponent(s)) }

  // ---------- form decoding ----------

  function HexValue(c: char): Option<Byte> {
    if '0' <= c <= '9' then Some(c as int - '0' as int)
    else if 'A' <= c <= 'F' then Some(c as int - 'A' as int + 10)
    else if 'a' <= c <= 'f' then Some(c as int - 'a' as int + 10)
    else None
  }

  /** The bytes a form value stands for: plus is a space, %XX a byte, anything else itself. */
  function FormBytes(t: string): seq<Byte> {
    if t == "" then []
    else if t[0] == '+' then [0x20] + FormBytes(t[1..])
    else if t[0] == '%' && |t| >= 3 && HexValue(t[1]).Some? && HexValue(t[2]).Some?
         && HexValue(t[1]).value < 16 && HexValue(t[2]).value < 16
    then [HexValue(t[1]).value * 16 + HexValue(t[2]).value] + FormBytes(t[3..])
    else Utf8(t[0]) + FormBytes(t[1..])
  }

  function FormDecode(t: string): Option<string> { Utf8Decode(FormBytes(t)) }

  // ---------- spaces ----------

  /** What one character becomes: a plus sign for a space, its encoding otherwise. */
  function EncodePlus(c: char): string { if c == ' ' then "+" else EncodeChar(c) }

  function EncodeAllPlus(s: string): string {
    if s == "" then "" else EncodePlus(s[0]) + EncodeAllPlus(s[1..])
  }

  lemma HexDigits(n: nat)
    requires n < 16
    ensures HEX[n] != '%' && HEX[n] != '+' && HexValue(HEX[n]) == Some(n)
  {
  }

  lemma PercentTwenty(b: Byte)
    ensures Percent(b) == "%20" <==> b == 0x20
  {
    if Percent(b) == "%20" {
      HexDigits(b / 16);
      HexDigits(b % 16);
      assert Percent(b)[1] == '2' && Percent(b)[2] == '0';
    }
  }

  /** The replacement goes over an escape of another byte unchanged. */
  lemma SkipPercent(b: Byte, t: string)
    requires b != 0x20
    ensures SpacesToPlus(Percent(b) + t) == Percent(b) + SpacesToPlus(t)
  {
    PercentTwenty(b);
    HexDigits(b / 16);
    HexDigits(b % 16);
    var p := Percent(b) + t;
    assert p[..3] == Percent(b);
    assert p[1..] == [HEX[b / 16], HEX[b % 16]] + t;
    assert p[1..][1..] == [HEX[b % 16]] + t;
    assert p[1..][1..][1..] == t;
    SkipPlain(HEX[b / 16], [HEX[b % 16]] + t);
    SkipPlain(HEX[b % 16], t);
    assert [HEX[b / 16]] + ([HEX[b % 16]] + t) == p[1..];
    assert ['%'] + ([HEX[b / 16]] + ([HEX[b % 16]] + SpacesToPlus(t))) == Percent(b) + SpacesToPlus(t);
  }

  lemma SkipPlain(c: char, t: string)
    requires c != '%'
    ensures SpacesToPlus([c] + t) == [c] + SpacesToPlus(t)
  {
    var p := [c] + t;
    assert p[1..] == t;
    if |p| >= 3 { assert p[..3][0] == c; }
  }

  lemma {:induction false} SkipPercents(b: seq<Byte>, t: string)
    requires forall i :: 0 <= i < |b| ==> b[i] != 0x20
    ensures SpacesToPlus(PercentAll(b) + t) == PercentAll(b) + SpacesToPlus(t)
  {
    if b == [] {
      assert PercentAll(b) + t == t && PercentAll(b) + SpacesToPlus(t) == SpacesToPlus(t);
    } else {
      SkipPercents(b[1..], t);
      SkipPercent(b[0], PercentAll(b[1..]) + t);
      Regroup(Percent(b[0]), PercentAll(b[1..]), t);
      Regroup(Percent(b[0]), PercentAll(b[1..]), SpacesToPlus(t));
    }
  }

  lemma Utf8Space(c: char)
    ensures c != ' ' ==> forall i :: 0 <= i < |Utf8(c)| ==> Utf8(c)[i] != 0x20
    ensures c == ' ' ==> Utf8(c) == [0x20]
  {
  }

  lemma SpaceEncoded()
    ensures EncodeChar(' ') == "%20"
  {
    assert Utf8(' ') == [0x20] && [0x20][1..] == [];
    assert PercentAll([0x20]) == Percent(0x20) + PercentAll([]);
    assert Percent(0x20) == "%20";
  }

  lemma SkipChar(c: char, t: string)
    ensures SpacesToPlus(EncodeChar(c) + t) == EncodePlus(c) + SpacesToPlus(t)
  {
    Utf8Space(c);
    if c == ' ' {
      SpaceEncoded();
      assert ("%20" + t)[..3] == "%20" && ("%20" + t)[3..] == t;
    } else if IsUnreserved(c) {
      SkipPlain(c, t);
    } else {
      SkipPercents(Utf8(c), t);
    }
  }

  /** The two passes of the code are one pass over the characters. */
  lemma {:induction false} OnePass(s: string)
    ensures EncodeValue(s) == EncodeAllPlus(s)
  {
    if s != "" {
      OnePass(s[1..]);
      SkipChar(s[0], EncodeURIComponent(s[1..]));
    }
  }

  // ---------- round trip ----------

  lemma FormBytesPercent(b: Byte, t: string)
    ensures FormBytes(Percent(b) + t) == [b] + FormBytes(t)
  {
    HexDigits(b / 16);
    HexDigits(b % 16);
    var p := Percent(b) + t;
    assert p[0] == '%' && p[1] == HEX[b / 16] && p[2] == HEX[b % 16] && p[3..] == t;
    assert b / 16 * 16 + b % 16 == b;
  }

  lemma {:induction false} FormBytesPercents(b: seq<Byte>, t: string)
    ensures FormBytes(PercentAll(b) + t) == b + FormBytes(t)
  {
    if b == [] {
      assert PercentAll(b) + t == t && b + FormBytes(t) == FormBytes(t);
    } else {
      FormBytesPercents(b[1..], t);
      FormBytesPercent(b[0], PercentAll(b[1..]) + t);
      Regroup(Percent(b[0]), PercentAll(b[1..]), t);
      assert b == [b[0]] + b[1..];
      Regroup([b[0]], b[1..], FormBytes(t));
    }
  }

  lemma FormBytesChar(c: char, t: string)
    ensures FormBytes(EncodePlus(c) + t) == Utf8(c) + FormBytes(t)
  {
    Utf8Space(c);
    if c == ' ' {
      assert ("+" + t)[1..] == t;
    } else if IsUnreserved(c) {
      assert ([c] + t)[1..] == t;
    } else {
      FormBytesPercents(Utf8(c), t);
    }
  }

  lemma {:induction false} FormBytesValue(s: string)
    ensures FormBytes(EncodeAllPlus(s)) == Utf8All(s)
  {
    if s != "" {
      FormBytesValue(s[1..]);
      FormBytesChar(s[0], EncodeAllPlus(s[1..]));
    }
  }

  /** A form decoder recovers every value, whatever characters it has. */
  lemma ValueRoundTrip(s: string)
    ensures FormDecode(EncodeValue(s)) == Some(s)
  {
    OnePass(s);
    FormBytesValue(s);
    Utf8RoundTrip(s);
  }

  // ---------- separators ----------

  predicate NoSeparator(t: string) { '&' !in t && '=' !in t }

  lemma {:induction false} PercentsNoSeparator(b: seq<Byte>)
    ensures NoSeparator(PercentAll(b))
  {
    if b != [] {
      PercentsNoSeparator(b[1..]);
      HexNoSeparator(b[0] / 16);
      HexNoSeparator(b[0] % 16);
    }
  }

  lemma HexNoSeparator(n: nat)
    requires n < 16
    ensures HEX[n] != '&' && HEX[n] != '='
  {
  }

  lemma {:induction false} ValueNoSeparator(s: string)
    ensures NoSeparator(EncodeAllPlus(s))
  {
    if s != "" {
      ValueNoSeparator(s[1..]);
      PercentsNoSeparator(Utf8(s[0]));
    }
  }

  // ---------- names, whose spaces stay escapes ----------

  lemma FormBytesEncoded(c: char, t: string)
    ensures FormBytes(EncodeChar(c) + t) == Utf8(c) + FormBytes(t)
  {
    if IsUnreserved(c) {
      assert ([c] + t)[1..] == t;
    } else {
      FormBytesPercents(Utf8(c), t);
    }
  }

  lemma {:induction false} FormBytesName(s: string)
    ensures FormBytes(EncodeURIComponent(s)) == Utf8All(s)
    ensures NoSeparator(EncodeURIComponent(s))
  {
    if s != "" {
      FormBytesName(s[1..]);
      FormBytesEncoded(s[0], EncodeURIComponent(s[1..]));
      PercentsNoSeparator(Utf8(s[0]));
    }
  }

  /** A form decoder recovers every name. */
  lemma NameRoundTrip(s: string)
    ensures FormDecode(EncodeURIComponent(s)) == Some(s)
  {
    FormBytesName(s);
    Utf8RoundTrip(s);
  }

  // ---------- what is left alone ----------

  lemma {:induction false} PercentsLonger(b: seq<Byte>)
    ensures |PercentAll(b)| == 3 * |b|
  {
    if b != [] { PercentsLonger(b[1..]); }
  }

  /** A letter or digit of ASCII, or one of nine marks. */
  predicate StaysPlain(c: char) {
    || 'A' <= c <= 'Z' || 'a' <= c <= 'z' || '0' <= c <= '9'
    || c == '-' || c == '_' || c == '.' || c == '!' || c == '~' || c == '*' || c == '\'' || c == '(' || c == ')'
  }

  /** Of all characters, exactly those are left as they are; every other becomes escapes, with capital digits. */
  lemma EncodedExactly(c: char)
    ensures EncodeChar(c) == [c] <==> StaysPlain(c)
    ensures !StaysPlain(c) ==> |EncodeChar(c)| == 3 * |Utf8(c)|
  {
    PercentsLonger(Utf8(c));
  }

  lemma PercentExactly(b: Byte)
    ensures var p := Percent(b);
            && |p| == 3 && p[0] == '%'
            && ('0' <= p[1] <= '9' || 'A' <= p[1] <= 'F') && ('0' <= p[2] <= '9' || 'A' <= p[2] <= 'F')
            && HexValue(p[1]).Some? && HexValue(p[2]).Some? && HexValue(p[1]).value * 16 + HexValue(p[2]).value == b
  {
    HexDigits(b / 16);
    HexDigits(b % 16);
  }
}
