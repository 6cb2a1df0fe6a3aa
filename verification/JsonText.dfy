/** What a pattern can find in the text of a JSON value: which lines it has, and which words. */
module JsonText {
  import opened Common
  import opened Json
  import opened CacheService

  // ---------- escaping ----------

  predicate NeedsNoEscape(s: string) { forall i :: 0 <= i < |s| ==> s[i] >= ' ' && s[i] != '"' && s[i] != '\\' }

  lemma {:induction false} Unescaped(s: string)
    requires NeedsNoEscape(s)
    ensures Escape(s) == s && Quote(s) == "\"" + s + "\""
  {
    if s != "" {
      assert EscapeChar(s[0]) == [s[0]];
      Unescaped(s[1..]);
      assert s == [s[0]] + s[1..];
    }
  }

  lemma EscapeCons(c: char, t: string)
    ensures Escape([c] + t) == EscapeChar(c) + Escape(t)
  {
    assert ([c] + t)[1..] == t;
  }

  lemma {:induction false} EscapeAppend(a: string, b: string)
    ensures Escape(a + b) == Escape(a) + Escape(b)
    decreases |a|
  {
    if a == "" {
      assert a + b == b;
    } else {
      var c, t := a[0], a[1..];
      EscapeAppend(t, b);
      EscapeCons(c, t);
      EscapeCons(c, t + b);
      EscapeFirst(a, c, t, b);
      Regroup(EscapeChar(c), Escape(t), Escape(b));
    }
  }

  lemma EscapeFirst(a: string, c: char, t: string, b: string)
    requires a != "" && c == a[0] && t == a[1..]
    ensures a == [c] + t && a + b == [c] + (t + b)
  {
  }

  // ---------- lines ----------

  /** The line terminators that JSON leaves as they are. */
  predicate IsSeparator(c: char) { c == '\U{2028}' || c == '\U{2029}' }

  predicate NoSeparators(s: string) { forall i :: 0 <= i < |s| ==> !IsSeparator(s[i]) }

  lemma OneLineParts(a: string, b: string)
    ensures OneLine(a + b) <==> OneLine(a) && OneLine(b)
  {
    if OneLine(a + b) {
      assert forall i :: 0 <= i < |a| ==> a[i] == (a + b)[i];
      assert forall i :: 0 <= i < |b| ==> b[i] == (a + b)[|a| + i];
    }
  }

  lemma EscapedCharLines(c: char)
    ensures OneLine(EscapeChar(c)) <==> !IsSeparator(c)
  {
    if |EscapeChar(c)| == 1 {
      assert EscapeChar(c)[0] == c;
    }
  }

  /** JSON escapes the line terminators of ASCII; the two of Unicode stay. */
  lemma {:induction false} EscapedLines(s: string)
    ensures OneLine(Escape(s)) <==> NoSeparators(s)
  {
    if s != "" {
      EscapedLines(s[1..]);
      EscapedCharLines(s[0]);
      OneLineParts(EscapeChar(s[0]), Escape(s[1..]));
      assert forall i :: 0 < i < |s| ==> s[i] == s[1..][i - 1];
    }
  }

  lemma QuotedLines(s: string)
    ensures OneLine(Quote(s)) <==> NoSeparators(s)
  {
    EscapedLines(s);
    OneLineParts("\"" + Escape(s), "\"");
    OneLineParts("\"", Escape(s));
  }

  /** No name and no string in the value has a Unicode line or paragraph separator. */
  predicate SeparatorFree(j: Json) {
    match j
    case JString(s) => NoSeparators(s)
    case JArray(e) => ElemsSeparatorFree(e)
    case JObject(f) => FieldsSeparatorFree(f)
    case _ => true
  }

  predicate ElemsSeparatorFree(e: Elems) {
    match e
    case Nil => true
    case Cons(h, t) => SeparatorFree(h) && ElemsSeparatorFree(t)
  }

  predicate FieldsSeparatorFree(f: Fields) {
    match f
    case NoFields => true
    case Field(n, v, r) => NoSeparators(n) && SeparatorFree(v) && FieldsSeparatorFree(r)
  }

  lemma {:induction false} DecimalLine(n: nat)
    ensures OneLine(Decimal(n))
  {
    DecimalRead(n);
  }

  lemma FourLines(a: string, b: string, c: string, d: string)
    ensures OneLine(a + b + c + d) <==> OneLine(a) && OneLine(b) && OneLine(c) && OneLine(d)
  {
    OneLineParts(a + b + c, d);
    OneLineParts(a + b, c);
    OneLineParts(a, b);
  }

  /** The text of a value is one line exactly when its names and strings have no separators. */
  lemma {:induction false} TextLines(j: Json)
    ensures OneLine(Stringify(j)) <==> SeparatorFree(j)
  {
    match j
    case JNull =>
    case JBool(_) =>
    case JInt(n) => DecimalLine(n);
    case JNegative(m) =>
      DecimalLine(m);
      OneLineParts("-", Decimal(m));
    case JString(s) => QuotedLines(s);
    case JArray(Nil) =>
    case JArray(Cons(h, t)) =>
      TextLines(h);
      ElemsLines(t);
      OneLineParts("[", Stringify(h) + ElemsTail(t));
      OneLineParts(Stringify(h), ElemsTail(t));
    case JObject(NoFields) =>
    case JObject(Field(n, v, r)) =>
      TextLines(v);
      FieldsLines(r);
      QuotedLines(n);
      OneLineParts("{", Quote(n) + ":" + Stringify(v) + FieldsTail(r));
      FourLines(Quote(n), ":", Stringify(v), FieldsTail(r));
  }

  lemma {:induction false} ElemsLines(e: Elems)
    ensures OneLine(ElemsTail(e)) <==> ElemsSeparatorFree(e)
  {
    if e.Cons? {
      TextLines(e.head);
      ElemsLines(e.tail);
      OneLineParts("," + Stringify(e.head), ElemsTail(e.tail));
      OneLineParts(",", Stringify(e.head));
    }
  }

  lemma {:induction false} FieldsLines(f: Fields)
    ensures OneLine(FieldsTail(f)) <==> FieldsSeparatorFree(f)
  {
    if f.Field? {
      TextLines(f.value);
      FieldsLines(f.rest);
      QuotedLines(f.name);
      OneLineParts("," + Quote(f.name) + ":" + Stringify(f.value), FieldsTail(f.rest));
      FourLines(",", Quote(f.name), ":", Stringify(f.value));
    }
  }

  // ---------- words ----------

  predicate IsWordChar(c: char) { '0' <= c <= '9' || 'a' <= c <= 'z' }

  predicate IsWord(w: string) { w != "" && forall i :: 0 <= i < |w| ==> IsWordChar(w[i]) }

  lemma AtSame(s: string, i: nat, t: string, j: nat, w: string)
    requires i + |w| <= |s| && j + |w| <= |t| && s[i..i + |w|] == t[j..j + |w|]
    ensures At(s, w, i) <==> At(t, w, j)
  {
  }

  lemma WordAt(s: string, w: string, i: nat, j: nat)
    requires IsWord(w) && At(s, w, i) && i <= j < i + |w|
    ensures IsWordChar(s[j])
  {
    assert s[i..i + |w|][j - i] == s[j];
  }

  /** A word in a text with a character between that is in no word stands on one side of it. */
  lemma WordInParts(a: string, c: char, b: string, w: string)
    requires IsWord(w) && !IsWordChar(c)
    ensures Contains(a + [c] + b, w) <==> Contains(a, w) || Contains(b, w)
  {
    var s := a + [c] + b;
    if Contains(s, w) {
      var i :| 0 <= i <= |s| && At(s, w, i);
      assert s[|a|] == c;
      if i <= |a| < i + |w| { WordAt(s, w, i, |a|); }
      if i + |w| <= |a| {
        assert s[i..i + |w|] == a[i..i + |w|];
        AtSame(s, i, a, i, w);
      } else {
        var k := i - |a| - 1;
        assert s[|a| + 1..] == b && s[i..i + |w|] == b[k..k + |w|];
        AtSame(s, i, b, k, w);
      }
    }
    if Contains(a, w) {
      var i :| 0 <= i <= |a| && At(a, w, i);
      assert s[i..i + |w|] == a[i..i + |w|];
      AtSame(s, i, a, i, w);
    }
    if Contains(b, w) {
      var i :| 0 <= i <= |b| && At(b, w, i);
      var k := |a| + 1 + i;
      assert s[|a| + 1..] == b && s[k..k + |w|] == b[i..i + |w|];
      AtSame(s, k, b, i, w);
    }
  }

  lemma WordInFront(c: char, b: string, w: string)
    requires IsWord(w) && !IsWordChar(c)
    ensures Contains([c] + b, w) <==> Contains(b, w)
  {
    WordInParts("", c, b, w);
    assert "" + [c] + b == [c] + b;
    assert !Contains("", w);
  }

  lemma WordInQuote(s: string, rest: string, w: string)
    requires IsWord(w)
    ensures Contains(Quote(s) + rest, w) <==> Contains(Escape(s), w) || Contains(rest, w)
  {
    WordInFront('"', Escape(s) + ['"'] + rest, w);
    WordInParts(Escape(s), '"', rest, w);
    assert Quote(s) + rest == ['"'] + (Escape(s) + ['"'] + rest);
  }

  /** The escaped names and strings of properties or elements contain the word, or a number or literal does. */
  predicate Mentions(j: Json, w: string) {
    match j
    case JString(s) => Contains(Escape(s), w)
    case JArray(e) => ElemsMention(e, w)
    case JObject(f) => FieldsMention(f, w)
    case _ => Contains(Stringify(j), w)
  }

  predicate ElemsMention(e: Elems, w: string) {
    match e
    case Nil => false
    case Cons(h, t) => Mentions(h, w) || ElemsMention(t, w)
  }

  predicate FieldsMention(f: Fields, w: string) {
    match f
    case NoFields => false
    case Field(n, v, r) => Contains(Escape(n), w) || Mentions(v, w) || FieldsMention(r, w)
  }

  /** Text that a value is followed by. */
  predicate StartsOutside(rest: string) { rest != "" && !IsWordChar(rest[0]) }

  lemma TailsStartOutside(e: Elems, f: Fields, rest: string)
    ensures StartsOutside(ElemsTail(e) + rest) && StartsOutside(FieldsTail(f) + rest)
  {
  }

  lemma WordBefore(a: string, rest: string, w: string)
    requires IsWord(w) && StartsOutside(rest)
    ensures Contains(a + rest, w) <==> Contains(a, w) || Contains(rest, w)
  {
    WordInParts(a, rest[0], rest[1..], w);
    WordInFront(rest[0], rest[1..], w);
    assert rest == [rest[0]] + rest[1..];
    assert a + rest == a + [rest[0]] + rest[1..];
  }

  /** A word occurs in the text of a value exactly when the value mentions it. */
  lemma {:induction false} TextWords(j: Json, rest: string, w: string)
    requires IsWord(w) && StartsOutside(rest)
    ensures Contains(Stringify(j) + rest, w) <==> Mentions(j, w) || Contains(rest, w)
    decreases j, 0
  {
    match j
    case JString(s) => WordInQuote(s, rest, w);
    case JArray(e) => ArrayWords(e, rest, w);
    case JObject(f) => ObjectWords(f, rest, w);
    case _ => WordBefore(Stringify(j), rest, w);
  }

  lemma {:induction false} ArrayWords(e: Elems, rest: string, w: string)
    requires IsWord(w) && StartsOutside(rest)
    ensures Contains(Stringify(JArray(e)) + rest, w) <==> ElemsMention(e, w) || Contains(rest, w)
    decreases e, 1
  {
    match e
    case Nil =>
      WordInFront('[', "]" + rest, w);
      WordInFront(']', rest, w);
      assert Stringify(JArray(e)) + rest == ['['] + ([']'] + rest);
    case Cons(h, t) =>
      TailsStartOutside(t, NoFields, rest);
      TextWords(h, ElemsTail(t) + rest, w);
      ElemsWords(t, rest, w);
      WordInFront('[', Stringify(h) + (ElemsTail(t) + rest), w);
      assert Stringify(JArray(e)) + rest == ['['] + (Stringify(h) + (ElemsTail(t) + rest));
  }

  lemma {:induction false} ElemsWords(e: Elems, rest: string, w: string)
    requires IsWord(w) && StartsOutside(rest)
    ensures Contains(ElemsTail(e) + rest, w) <==> ElemsMention(e, w) || Contains(rest, w)
    decreases e, 0
  {
    match e
    case Nil => WordInFront(']', rest, w);
    case Cons(h, t) =>
      TailsStartOutside(t, NoFields, rest);
      TextWords(h, ElemsTail(t) + rest, w);
      ElemsWords(t, rest, w);
      WordInFront(',', Stringify(h) + (ElemsTail(t) + rest), w);
      assert ElemsTail(e) + rest == [','] + (Stringify(h) + (ElemsTail(t) + rest));
  }

  lemma Nested(open: char, q: string, v: string, t: string, rest: string)
    ensures [open] + (q + ":" + v + t) + rest == [open] + (q + ([':'] + (v + (t + rest))))
    ensures [open] + q + ":" + v + t + rest == [open] + (q + ([':'] + (v + (t + rest))))
  {
  }

  lemma {:induction false} ObjectWords(f: Fields, rest: string, w: string)
    requires IsWord(w) && StartsOutside(rest)
    ensures Contains(Stringify(JObject(f)) + rest, w) <==> FieldsMention(f, w) || Contains(rest, w)
    decreases f, 1
  {
    match f
    case NoFields =>
      WordInFront('{', "}" + rest, w);
      WordInFront('}', rest, w);
      assert Stringify(JObject(f)) + rest == ['{'] + (['}'] + rest);
    case Field(n, v, r) =>
      OneFieldWords(n, v, r, rest, w);
      var text := Quote(n) + ([':'] + (Stringify(v) + (FieldsTail(r) + rest)));
      WordInFront('{', text, w);
      Nested('{', Quote(n), Stringify(v), FieldsTail(r), rest);
  }

  lemma {:induction false} FieldsWords(f: Fields, rest: string, w: string)
    requires IsWord(w) && StartsOutside(rest)
    ensures Contains(FieldsTail(f) + rest, w) <==> FieldsMention(f, w) || Contains(rest, w)
    decreases f, 1
  {
    match f
    case NoFields => WordInFront('}', rest, w);
    case Field(n, v, r) =>
      OneFieldWords(n, v, r, rest, w);
      var text := Quote(n) + ([':'] + (Stringify(v) + (FieldsTail(r) + rest)));
      WordInFront(',', text, w);
      Nested(',', Quote(n), Stringify(v), FieldsTail(r), rest);
  }

  lemma {:induction false} OneFieldWords(n: string, v: Json, r: Fields, rest: string, w: string)
    requires IsWord(w) && StartsOutside(rest)
    ensures Contains(Quote(n) + ([':'] + (Stringify(v) + (FieldsTail(r) + rest))), w)
            <==> Contains(Escape(n), w) || Mentions(v, w) || FieldsMention(r, w) || Contains(rest, w)
    decreases Field(n, v, r), 0
  {
    TailsStartOutside(Nil, r, rest);
    TextWords(v, FieldsTail(r) + rest, w);
    FieldsWords(r, rest, w);
    WordInFront(':', Stringify(v) + (FieldsTail(r) + rest), w);
    WordInQuote(n, [':'] + (Stringify(v) + (FieldsTail(r) + rest)), w);
  }

  // ---------- reading a string back ----------

  function HexDigit(c: char): int {
    if '0' <= c <= '9' then c as int - '0' as int else if 'a' <= c <= 'f' then c as int - 'a' as int + 10 else 0
  }

  /** What a JSON reader makes of the inside of a string (section 7 of RFC 8259), for codes below 256. */
  function Unescape(t: string): string {
    if t == "" then ""
    else if t[0] != '\\' || |t| < 2 then [t[0]] + Unescape(t[1..])
    else if t[1] == 'b' then [8 as char] + Unescape(t[2..])
    else if t[1] == 'f' then [12 as char] + Unescape(t[2..])
    else if t[1] == 'n' then ['\n'] + Unescape(t[2..])
    else if t[1] == 'r' then ['\r'] + Unescape(t[2..])
    else if t[1] == 't' then ['\t'] + Unescape(t[2..])
    else if t[1] == 'u' && |t| >= 6 then [(HexDigit(t[4]) * 16 + HexDigit(t[5])) as char] + Unescape(t[6..])
    else [t[1]] + Unescape(t[2..])
  }

  lemma DigitsRead(n: nat)
    requires n < 16
    ensures HexDigit(DIGITS[n]) == n
  {
  }

  lemma UnescapeCode(c: char, rest: string)
    requires c < ' '
    ensures var t := ['\\', 'u', '0', '0', DIGITS[c as int / 16], DIGITS[c as int % 16]];
            Unescape(t + rest) == [c] + Unescape(rest)
  {
    var n := c as int;
    DigitsRead(n / 16);
    DigitsRead(n % 16);
    var t := ['\\', 'u', '0', '0', DIGITS[n / 16], DIGITS[n % 16]];
    assert (t + rest)[6..] == rest && (t + rest)[4] == t[4] && (t + rest)[5] == t[5];
    assert n / 16 * 16 + n % 16 == n;
  }

  lemma UnescapePair(c: char, rest: string)
    requires c != 'u'
    ensures Unescape(['\\', c] + rest) ==
              [if c == 'b' then 8 as char else if c == 'f' then 12 as char else if c == 'n' then '\n'
               else if c == 'r' then '\r' else if c == 't' then '\t' else c] + Unescape(rest)
  {
    assert (['\\', c] + rest)[2..] == rest;
  }

  lemma UnescapeChar(c: char, rest: string)
    ensures Unescape(EscapeChar(c) + rest) == [c] + Unescape(rest)
  {
    if c == '"' || c == '\\' {
      UnescapePair(c, rest);
    } else if c == 8 as char {
      UnescapePair('b', rest);
    } else if c == 12 as char {
      UnescapePair('f', rest);
    } else if c == '\n' {
      UnescapePair('n', rest);
    } else if c == '\r' {
      UnescapePair('r', rest);
    } else if c == '\t' {
      UnescapePair('t', rest);
    } else if c < ' ' {
      UnescapeCode(c, rest);
    } else {
      assert ([c] + rest)[1..] == rest;
    }
  }

  /** Escaping a string loses nothing. */
  lemma {:induction false} EscapeReadsBack(s: string)
    ensures Unescape(Escape(s)) == s
  {
    if s != "" {
      EscapeReadsBack(s[1..]);
      UnescapeChar(s[0], Escape(s[1..]));
      assert s == [s[0]] + s[1..];
    }
  }

  /** The text of each kind of value (section 25.5.2 of ECMA-262); numbers and strings read back. */
  lemma TextOfKinds(b: bool, n: nat, s: string)
    ensures Stringify(JNull) == "null" && Stringify(JBool(b)) == (if b then "true" else "false")
    ensures DigitsValue(Stringify(JInt(n))) == n && Stringify(JNegative(n)) == "-" + Stringify(JInt(n))
    ensures forall i :: 0 <= i < |Stringify(JInt(n))| ==> '0' <= Stringify(JInt(n))[i] <= '9'
    ensures var t := Stringify(JString(s));
            |t| >= 2 && t[0] == '"' == t[|t| - 1] && Unescape(t[1..|t| - 1]) == s
  {
    DecimalRead(n);
    EscapeReadsBack(s);
    assert Quote(s)[1..|Quote(s)| - 1] == Escape(s);
  }

  lemma ListShape(h: string, x: string, y: string)
    ensures "[" + (h + ("," + x + y)) == "[" + h + "," + ("[" + (x + y))[1..]
  {
    assert ("[" + (x + y))[1..] == x + y;
  }

  /** The texts of the elements, in order, between brackets. */
  lemma TextOfArrays(h: Json, t: Elems)
    ensures Stringify(JArray(Nil)) == "[]"
    ensures Stringify(JArray(Cons(h, t)))
            == if t.Nil? then "[" + (Stringify(h) + "]") else "[" + Stringify(h) + "," + Stringify(JArray(t))[1..]
  {
    if t.Cons? { ListShape(Stringify(h), Stringify(t.head), ElemsTail(t.tail)); }
  }

  lemma FieldShape(q: string, v: string, p: string, u: string, y: string)
    ensures "{" + (q + ":" + v + ("," + p + ":" + u + y)) == "{" + q + ":" + v + "," + ("{" + (p + ":" + u + y))[1..]
  {
    assert ("{" + (p + ":" + u + y))[1..] == p + ":" + u + y;
  }

  /** The texts of the properties, in order, between braces, each after its quoted name. */
  lemma TextOfObjects(n: string, v: Json, r: Fields)
    ensures Stringify(JObject(NoFields)) == "{}"
    ensures Stringify(JObject(Field(n, v, r)))
            == if r.NoFields? then "{" + (Stringify(JString(n)) + ":" + Stringify(v) + "}")
               else "{" + Stringify(JString(n)) + ":" + Stringify(v) + "," + Stringify(JObject(r))[1..]
  {
    if r.Field? { FieldShape(Quote(n), Stringify(v), Quote(r.name), Stringify(r.value), FieldsTail(r.rest)); }
  }
}
