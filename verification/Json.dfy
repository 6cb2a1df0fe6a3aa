/**
 The text JSON.stringify makes of a value, and the proof that different values have different texts,
 even when more text follows.  Numbers are integers; JNegative(m) is -m.
 */
module Json {
  import opened Common

  datatype Json =
    | JNull
    | JBool(b: bool)
    | JInt(n: nat)
    | JNegative(m: nat)
    | JString(s: string)
    | JArray(elems: Elems)
    | JObject(fields: Fields)

  datatype Elems = Nil | Cons(head: Json, tail: Elems)

  /** Properties in insertion order; a property whose value is undefined is not one of them. */
  datatype Fields = NoFields | Field(name: string, value: Json, rest: Fields)

  // ---------- printing ----------

  const DIGITS := "0123456789abcdef"

  function Decimal(n: nat): (s: string)
    ensures |s| > 0
  {
    if n < 10 then [DIGITS[n]] else Decimal(n / 10) + [DIGITS[n % 10]]
  }

  function EscapeChar(c: char): (s: string)
    ensures |s| > 0 && s[0] != '"'
  {
    if c == '"' then "\\\""
    else if c == '\\' then "\\\\"
    else if c == 8 as char then "\\b"
    else if c == 12 as char then "\\f"
    else if c == '\n' then "\\n"
    else if c == '\r' then "\\r"
    else if c == '\t' then "\\t"
    else if c < ' ' then ['\\', 'u', '0', '0', DIGITS[c as int / 16], DIGITS[c as int % 16]]
    else [c]
  }

  function Escape(s: string): string {
    if s == "" then "" else EscapeChar(s[0]) + Escape(s[1..])
  }

  function Quote(s: string): string { "\"" + Escape(s) + "\"" }

  function Stringify(j: Json): (s: string)
    ensures |s| > 0
  {
    match j
    case JNull => "null"
    case JBool(b) => if b then "true" else "false"
    case JInt(n) => Decimal(n)
    case JNegative(m) => "-" + Decimal(m)
    case JString(s) => Quote(s)
    case JArray(e) => "[" + (match e case Nil => "]" case Cons(h, t) => Stringify(h) + ElemsTail(t))
    case JObject(f) =>
      "{" + (match f case NoFields => "}" case Field(n, v, r) => Quote(n) + ":" + Stringify(v) + FieldsTail(r))
  }

  /** What follows the first element of an array. */
  function ElemsTail(e: Elems): string {
    match e
    case Nil => "]"
    case Cons(h, t) => "," + Stringify(h) + ElemsTail(t)
  }

  function FieldsTail(f: Fields): string {
    match f
    case NoFields => "}"
    case Field(n, v, r) => "," + Quote(n) + ":" + Stringify(v) + FieldsTail(r)
  }

  // ---------- numbers ----------

  predicate IsDigit(c: char) { '0' <= c <= '9' }

  function DigitsValue(s: string): int {
    if s == "" then 0 else DigitsValue(s[..|s| - 1]) * 10 + (s[|s| - 1] as int - '0' as int)
  }

  lemma {:induction false} DecimalRead(n: nat)
    ensures forall i :: 0 <= i < |Decimal(n)| ==> IsDigit(Decimal(n)[i])
    ensures DigitsValue(Decimal(n)) == n
  {
    if n >= 10 {
      DecimalRead(n / 10);
      var s := Decimal(n);
      assert s[..|s| - 1] == Decimal(n / 10);
    } else {
      assert Decimal(n)[..0] == "";
    }
  }

  /** Text after a value: nothing, or something no number goes on with. */
  predicate Ends(x: string) { x != "" ==> !IsDigit(x[0]) }

  lemma LongerContinues(s: string, x: string, t: string, y: string)
    requires s + x == t + y && |s| < |t|
    ensures x != "" && x[0] == t[|s|]
  {
    assert (s + x)[|s|] == (t + y)[|s|];
  }

  lemma DigitsSplit(s: string, x: string, t: string, y: string)
    requires s + x == t + y && Ends(x) && Ends(y)
    requires forall i :: 0 <= i < |s| ==> IsDigit(s[i])
    requires forall i :: 0 <= i < |t| ==> IsDigit(t[i])
    ensures s == t && x == y
  {
    if |s| < |t| {
      LongerContinues(s, x, t, y);
    } else if |t| < |s| {
      LongerContinues(t, y, s, x);
    } else {
      assert s == (s + x)[..|s|] == t && x == (s + x)[|s|..] == y;
    }
  }

  lemma DecimalUnique(m: nat, x: string, n: nat, y: string)
    requires Decimal(m) + x == Decimal(n) + y && Ends(x) && Ends(y)
    ensures m == n && x == y
  {
    DecimalRead(m);
    DecimalRead(n);
    DigitsSplit(Decimal(m), x, Decimal(n), y);
  }

  // ---------- strings ----------

  lemma DigitsDiffer(i: nat, j: nat)
    requires i < 16 && j < 16 && DIGITS[i] == DIGITS[j]
    ensures i == j
  {
  }

  lemma SameLength(s: string, x: string, t: string, y: string)
    requires s + x == t + y && |s| == |t|
    ensures s == t && x == y
  {
    assert s == (s + x)[..|s|] && t == (t + y)[..|t|];
    assert x == (s + x)[|s|..] && y == (t + y)[|t|..];
  }

  lemma Regroup4(a: string, b: string, c: string, d: string)
    ensures a + b + c + d == a + (b + (c + d))
  {
  }

  lemma Regroup6(a: string, b: string, c: string, d: string, e: string, f: string)
    ensures a + b + c + d + e + f == a + (b + (c + (d + (e + f))))
  {
  }

  lemma EscapeCharUnique(c: char, x: string, d: char, y: string)
    requires EscapeChar(c) + x == EscapeChar(d) + y
    ensures c == d && x == y
  {
    var s, t := EscapeChar(c), EscapeChar(d);
    assert s[0] == (s + x)[0] == (t + y)[0] == t[0];
    if |s| > 1 && |t| > 1 {
      assert s[1] == (s + x)[1] == (t + y)[1] == t[1];
    }
    assert |s| == |t|;
    SameLength(s, x, t, y);
    if |s| == 6 {
      DigitsDiffer(c as int / 16, d as int / 16);
      DigitsDiffer(c as int % 16, d as int % 16);
    }
  }

  /** The closing quote comes first only when nothing is left of the string. */
  lemma QuoteFirst(s: string, x: string)
    ensures (Escape(s) + ("\"" + x))[0] == '"' <==> s == ""
  {
    if s != "" {
      assert (Escape(s) + ("\"" + x))[0] == EscapeChar(s[0])[0];
    }
  }

  lemma {:induction false} EscapeUnique(s: string, x: string, t: string, y: string)
    requires Escape(s) + ("\"" + x) == Escape(t) + ("\"" + y)
    ensures s == t && x == y
  {
    QuoteFirst(s, x);
    QuoteFirst(t, y);
    if s == "" {
      assert Escape(s) + ("\"" + x) == "\"" + x && Escape(t) + ("\"" + y) == "\"" + y;
      SameLength("\"", x, "\"", y);
    } else {
      Regroup(EscapeChar(s[0]), Escape(s[1..]), "\"" + x);
      Regroup(EscapeChar(t[0]), Escape(t[1..]), "\"" + y);
      EscapeCharUnique(s[0], Escape(s[1..]) + ("\"" + x), t[0], Escape(t[1..]) + ("\"" + y));
      EscapeUnique(s[1..], x, t[1..], y);
      assert s == [s[0]] + s[1..] && t == [t[0]] + t[1..];
    }
  }

  lemma QuoteUnique(s: string, x: string, t: string, y: string)
    requires Quote(s) + x == Quote(t) + y
    ensures s == t && x == y
  {
    Regroup4("\"", Escape(s), "\"", x);
    Regroup4("\"", Escape(t), "\"", y);
    SameLength("\"", Escape(s) + ("\"" + x), "\"", Escape(t) + ("\"" + y));
    EscapeUnique(s, x, t, y);
  }

  // ---------- values ----------

  /** The first character of a text tells the kind of the value. */
  function Kind(c: char): int {
    if c == 'n' then 0 else if c == 't' then 1 else if c == 'f' then 2 else if c == '"' then 3
    else if c == '[' then 4 else if c == '{' then 5 else if c == '-' then 6 else if IsDigit(c) then 7 else 8
  }

  lemma StartsWithKind(j: Json)
    ensures Kind(Stringify(j)[0]) ==
            match j
            case JNull => 0
            case JBool(b) => (if b then 1 else 2)
            case JInt(_) => 7
            case JNegative(_) => 6
            case JString(_) => 3
            case JArray(_) => 4
            case JObject(_) => 5
  {
    if j.JInt? {
      DecimalRead(j.n);
    }
  }

  lemma NegativeUnique(p: string, x: string, q: string, y: string)
    requires "-" + p + x == "-" + q + y
    ensures p + x == q + y
  {
    Regroup("-", p, x);
    Regroup("-", q, y);
    SameLength("-", p + x, "-", q + y);
  }

  lemma NegativeIntUnique(m: nat, x: string, n: nat, y: string)
    requires "-" + Decimal(m) + x == "-" + Decimal(n) + y && Ends(x) && Ends(y)
    ensures m == n && x == y
  {
    NegativeUnique(Decimal(m), x, Decimal(n), y);
    DecimalUnique(m, x, n, y);
  }

  lemma SameKind(a: Json, x: string, b: Json, y: string)
    requires Stringify(a) + x == Stringify(b) + y
    ensures Kind(Stringify(a)[0]) == Kind(Stringify(b)[0])
  {
    assert (Stringify(a) + x)[0] == Stringify(a)[0] && (Stringify(b) + y)[0] == Stringify(b)[0];
  }

  /** Stringify is injective, and where a text ends is decided by the text itself. */
  lemma {:induction false} StringifyUnique(a: Json, x: string, b: Json, y: string)
    requires Stringify(a) + x == Stringify(b) + y && Ends(x) && Ends(y)
    ensures a == b && x == y
    decreases a, 1
  {
    SameKind(a, x, b, y);
    StartsWithKind(a);
    StartsWithKind(b);
    match a
    case JNull => SameLength("null", x, "null", y);
    case JBool(v) => SameLength(Stringify(a), x, Stringify(b), y);
    case JInt(n) => DecimalUnique(n, x, b.n, y);
    case JNegative(m) => NegativeIntUnique(m, x, b.m, y);
    case JString(s) => QuoteUnique(s, x, b.s, y);
    case JArray(e) => ArrayUnique(e, x, b.elems, y);
    case JObject(f) => ObjectUnique(f, x, b.fields, y);
  }

  /** A value never starts like the end of an array or an object. */
  lemma StartsValue(j: Json, x: string)
    ensures (Stringify(j) + x)[0] != ']' && (Stringify(j) + x)[0] != '}'
  {
    StartsWithKind(j);
    assert (Stringify(j) + x)[0] == Stringify(j)[0];
  }

  lemma {:induction false} ArrayUnique(a: Elems, x: string, b: Elems, y: string)
    requires Stringify(JArray(a)) + x == Stringify(JArray(b)) + y
    ensures a == b && x == y
    decreases a, 2
  {
    var s := match a case Nil => "]" + x case Cons(h, t) => Stringify(h) + (ElemsTail(t) + x);
    var t := match b case Nil => "]" + y case Cons(h, t) => Stringify(h) + (ElemsTail(t) + y);
    assert Stringify(JArray(a)) + x == "[" + s by {
      if a.Cons? { Regroup(Stringify(a.head), ElemsTail(a.tail), x); }
      Regroup("[", match a case Nil => "]" case Cons(h, t) => Stringify(h) + ElemsTail(t), x);
    }
    assert Stringify(JArray(b)) + y == "[" + t by {
      if b.Cons? { Regroup(Stringify(b.head), ElemsTail(b.tail), y); }
      Regroup("[", match b case Nil => "]" case Cons(h, t) => Stringify(h) + ElemsTail(t), y);
    }
    SameLength("[", s, "[", t);
    ElemsUnique(a, x, b, y, s);
  }

  lemma {:induction false} ElemsUnique(a: Elems, x: string, b: Elems, y: string, s: string)
    requires s == match a case Nil => "]" + x case Cons(h, t) => Stringify(h) + (ElemsTail(t) + x)
    requires s == match b case Nil => "]" + y case Cons(h, t) => Stringify(h) + (ElemsTail(t) + y)
    ensures a == b && x == y
    decreases a, 1
  {
    if a.Cons? && b.Cons? {
      ElemsTailEnds(a.tail, x);
      ElemsTailEnds(b.tail, y);
      StringifyUnique(a.head, ElemsTail(a.tail) + x, b.head, ElemsTail(b.tail) + y);
      ElemsTailUnique(a.tail, x, b.tail, y);
    } else if a.Cons? {
      StartsValue(a.head, ElemsTail(a.tail) + x);
    } else if b.Cons? {
      StartsValue(b.head, ElemsTail(b.tail) + y);
    } else {
      SameLength("]", x, "]", y);
    }
  }

  lemma ElemsTailEnds(e: Elems, x: string)
    ensures Ends(ElemsTail(e) + x) && ElemsTail(e) != "" && ElemsTail(e)[0] == (if e.Nil? then ']' else ',')
    ensures (ElemsTail(e) + x)[0] == ElemsTail(e)[0]
  {
  }

  lemma {:induction false} ElemsTailUnique(a: Elems, x: string, b: Elems, y: string)
    requires ElemsTail(a) + x == ElemsTail(b) + y
    ensures a == b && x == y
    decreases a
  {
    ElemsTailEnds(a, x);
    ElemsTailEnds(b, y);
    if a.Cons? {
      var u, v := ElemsTail(a.tail) + x, ElemsTail(b.tail) + y;
      Regroup4(",", Stringify(a.head), ElemsTail(a.tail), x);
      Regroup4(",", Stringify(b.head), ElemsTail(b.tail), y);
      SameLength(",", Stringify(a.head) + u, ",", Stringify(b.head) + v);
      ElemsTailEnds(a.tail, x);
      ElemsTailEnds(b.tail, y);
      StringifyUnique(a.head, u, b.head, v);
      ElemsTailUnique(a.tail, x, b.tail, y);
    } else {
      SameLength("]", x, "]", y);
    }
  }

  /** One property and what follows it. */
  lemma {:induction false} PropertyUnique(m: string, v: Json, x: string, n: string, w: Json, y: string)
    requires Quote(m) + (":" + (Stringify(v) + x)) == Quote(n) + (":" + (Stringify(w) + y)) && Ends(x) && Ends(y)
    ensures m == n && v == w && x == y
    decreases v, 2
  {
    QuoteUnique(m, ":" + (Stringify(v) + x), n, ":" + (Stringify(w) + y));
    SameLength(":", Stringify(v) + x, ":", Stringify(w) + y);
    StringifyUnique(v, x, w, y);
  }

  /** The text of an object after its brace, with what follows the object. */
  function FieldsText(f: Fields, x: string): string {
    match f
    case NoFields => "}" + x
    case Field(n, v, r) => Quote(n) + (":" + (Stringify(v) + (FieldsTail(r) + x)))
  }

  lemma ObjectText(f: Fields, x: string)
    ensures Stringify(JObject(f)) + x == "{" + FieldsText(f, x)
  {
    match f
    case NoFields => Regroup("{", "}", x);
    case Field(n, v, r) =>
      var body := Quote(n) + ":" + Stringify(v) + FieldsTail(r);
      Regroup("{", body, x);
      Regroup5(Quote(n), ":", Stringify(v), FieldsTail(r), x);
  }

  lemma Regroup5(a: string, b: string, c: string, d: string, e: string)
    ensures a + b + c + d + e == a + (b + (c + (d + e)))
  {
  }

  lemma {:induction false} ObjectUnique(a: Fields, x: string, b: Fields, y: string)
    requires Stringify(JObject(a)) + x == Stringify(JObject(b)) + y
    ensures a == b && x == y
    decreases a, 2
  {
    ObjectText(a, x);
    ObjectText(b, y);
    SameLength("{", FieldsText(a, x), "{", FieldsText(b, y));
    FieldsUnique(a, x, b, y);
  }

  lemma FieldsStart(f: Fields, x: string)
    ensures FieldsText(f, x) != "" && FieldsText(f, x)[0] == (if f.NoFields? then '}' else '"')
  {
  }

  lemma {:induction false} FieldsUnique(a: Fields, x: string, b: Fields, y: string)
    requires FieldsText(a, x) == FieldsText(b, y)
    ensures a == b && x == y
    decreases a, 1
  {
    FieldsStart(a, x);
    FieldsStart(b, y);
    if a.Field? {
      FieldsTailEnds(a.rest, x);
      FieldsTailEnds(b.rest, y);
      PropertyUnique(a.name, a.value, FieldsTail(a.rest) + x, b.name, b.value, FieldsTail(b.rest) + y);
      FieldsTailUnique(a.rest, x, b.rest, y);
    } else {
      SameLength("}", x, "}", y);
    }
  }

  lemma FieldsTailEnds(f: Fields, x: string)
    ensures Ends(FieldsTail(f) + x) && FieldsTail(f) != "" && FieldsTail(f)[0] == (if f.NoFields? then '}' else ',')
    ensures (FieldsTail(f) + x)[0] == FieldsTail(f)[0]
  {
  }

  lemma {:induction false} FieldsTailUnique(a: Fields, x: string, b: Fields, y: string)
    requires FieldsTail(a) + x == FieldsTail(b) + y
    ensures a == b && x == y
    decreases a
  {
    FieldsTailEnds(a, x);
    FieldsTailEnds(b, y);
    if a.Field? {
      Regroup6(",", Quote(a.name), ":", Stringify(a.value), FieldsTail(a.rest), x);
      Regroup6(",", Quote(b.name), ":", Stringify(b.value), FieldsTail(b.rest), y);
      SameLength(",", FieldsText(a, x), ",", FieldsText(b, y));
      FieldsTailEnds(a.rest, x);
      FieldsTailEnds(b.rest, y);
      PropertyUnique(a.name, a.value, FieldsTail(a.rest) + x, b.name, b.value, FieldsTail(b.rest) + y);
      FieldsTailUnique(a.rest, x, b.rest, y);
    } else {
      SameLength("}", x, "}", y);
    }
  }
}
