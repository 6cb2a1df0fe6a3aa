/** The signed text does not depend on insertion order, and a form decoder reads the parameters back. */
module PaymentTheorems {
  import opened Common
  import opened UriEncoding
  import opened PaymentService
  import StringOrder

  // ---------- sorting ----------

  ghost predicate Ascending(s: seq<string>) { forall i, j :: 0 <= i < j < |s| ==> StringOrder.Less(s[i], s[j]) }

  lemma {:induction false} InsertIs(x: string, s: seq<string>)
    requires Ascending(s) && x !in s
    ensures Ascending(Insert(x, s))
    ensures forall y :: y in Insert(x, s) <==> y == x || y in s
  {
    if s != [] {
      StringOrder.Total(s[0], x);
      if StringOrder.Less(s[0], x) {
        InsertIs(x, s[1..]);
        var t := Insert(x, s[1..]);
        forall j | 0 <= j < |t| ensures StringOrder.Less(s[0], t[j]) {
          assert t[j] in t;
        }
      } else {
        forall j | 0 <= j < |s| ensures StringOrder.Less(x, s[j]) {
          if j > 0 { StringOrder.Transitive(x, s[0], s[j]); }
        }
      }
    }
  }

  lemma {:induction false} SortIs(s: seq<string>)
    requires Distinct(s)
    ensures Ascending(Sort(s))
    ensures forall y :: y in Sort(s) <==> y in s
  {
    if s != [] {
      SortIs(s[1..]);
      InsertIs(s[0], Sort(s[1..]));
    }
  }

  lemma HasFirst(s: seq<string>)
    requires s != []
    ensures s[0] in s
  {
  }

  lemma {:induction false} AscendingUnique(a: seq<string>, b: seq<string>)
    requires Ascending(a) && Ascending(b) && forall y :: y in a <==> y in b
    ensures a == b
  {
    if a == [] {
      if b != [] { HasFirst(b); }
    } else {
      assert a[0] in b;
      var i :| 0 <= i < |b| && b[i] == a[0];
      assert b[0] in a;
      var j :| 0 <= j < |a| && a[j] == b[0];
      if i > 0 && j > 0 {
        StringOrder.Transitive(a[0], b[0], a[0]);
        StringOrder.Irreflexive(a[0]);
      }
      assert a[0] == b[0];
      forall y
        ensures y in a[1..] <==> y in b[1..]
      {
        StringOrder.Irreflexive(y);
        assert y in a <==> y == a[0] || y in a[1..];
        assert y in b <==> y == b[0] || y in b[1..];
      }
      AscendingUnique(a[1..], b[1..]);
    }
  }

  // ---------- canonical text ----------

  lemma EncodeInjective(a: string, b: string)
    requires EncodeURIComponent(a) == EncodeURIComponent(b)
    ensures a == b
  {
    NameRoundTrip(a);
    NameRoundTrip(b);
  }

  lemma EncodedDistinct(o: Object)
    requires Distinct(KeysOf(o))
    ensures Distinct(EncodedKeys(o))
    ensures forall y :: y in EncodedKeys(o) <==> exists k :: k in KeysOf(o) && y == EncodeURIComponent(k)
  {
    forall i, j | 0 <= i < j < |o| ensures EncodedKeys(o)[i] != EncodedKeys(o)[j] {
      assert KeysOf(o)[i] != KeysOf(o)[j];
      if EncodedKeys(o)[i] == EncodedKeys(o)[j] { EncodeInjective(o[i].0, o[j].0); }
    }
    forall y
      ensures y in EncodedKeys(o) <==> exists k :: k in KeysOf(o) && y == EncodeURIComponent(k)
    {
      if y in EncodedKeys(o) {
        var i :| 0 <= i < |o| && EncodedKeys(o)[i] == y;
        assert KeysOf(o)[i] in KeysOf(o);
      }
      if k :| k in KeysOf(o) && y == EncodeURIComponent(k) {
        var i :| 0 <= i < |o| && KeysOf(o)[i] == k;
        assert EncodedKeys(o)[i] == y;
      }
    }
  }

  lemma {:induction false} MissingIsUndefined(o: Object, k: string)
    requires k !in KeysOf(o)
    ensures Lookup(o, k) == "undefined"
  {
    if o != [] {
      assert KeysOf(o)[0] in KeysOf(o);
      assert KeysOf(o[1..]) == KeysOf(o)[1..];
      MissingIsUndefined(o[1..], k);
    }
  }

  lemma SameLookups(a: Object, b: Object, k: string)
    requires ToMap(a) == ToMap(b)
    ensures Lookup(a, k) == Lookup(b, k)
  {
    if k in KeysOf(a) {
      assert k in ToMap(a);
    } else {
      assert k !in ToMap(a);
      MissingIsUndefined(a, k);
      MissingIsUndefined(b, k);
    }
  }

  /** Two objects with the same properties, inserted in any order, are signed alike. */
  lemma SignDataIsCanonical(a: Object, b: Object)
    requires Distinct(KeysOf(a)) && Distinct(KeysOf(b)) && ToMap(a) == ToMap(b)
    ensures SignData(a) == SignData(b)
  {
    EncodedDistinct(a);
    EncodedDistinct(b);
    SortIs(EncodedKeys(a));
    SortIs(EncodedKeys(b));
    assert forall k :: k in KeysOf(a) <==> k in ToMap(a);
    assert forall k :: k in KeysOf(b) <==> k in ToMap(b);
    AscendingUnique(Sort(EncodedKeys(a)), Sort(EncodedKeys(b)));
    forall k { SameLookups(a, b, k); }
    assert SortedObject(a) == SortedObject(b);
  }

  // ---------- reading the text back ----------

  /** The text up to the first c, and what follows it. */
  function Cut(t: string, c: char): (r: (string, Option<string>))
    ensures r.1.Some? ==> |r.1.value| < |t|
  {
    if t == "" then ("", None)
    else if t[0] == c then ("", Some(t[1..]))
    else var (a, rest) := Cut(t[1..], c); ([t[0]] + a, rest)
  }

  function Read(m: map<string, string>, field: string): map<string, string> {
    var (k, v) := Cut(field, '=');
    var key, value := FormDecode(k), FormDecode(if v.Some? then v.value else "");
    if key.Some? && value.Some? then m[key.value := value.value] else m
  }

  function ReadFields(m: map<string, string>, t: string): map<string, string>
    decreases |t|
  {
    var (field, rest) := Cut(t, '&');
    if rest.None? then Read(m, field) else ReadFields(Read(m, field), rest.value)
  }

  /** A form decoder: fields between &, names and values around the first =. */
  function ParseForm(t: string): map<string, string> { if t == "" then map[] else ReadFields(map[], t) }

  lemma {:induction false} CutNone(a: string, c: char)
    requires c !in a
    ensures Cut(a, c) == (a, None)
  {
    if a != "" {
      CutNone(a[1..], c);
      assert a == [a[0]] + a[1..];
    }
  }

  lemma {:induction false} CutAt(a: string, c: char, b: string)
    requires c !in a
    ensures Cut(a + ([c] + b), c) == (a, Some(b))
  {
    var t := a + ([c] + b);
    if a == "" {
      assert t == [c] + b && t[1..] == b;
    } else {
      CutAt(a[1..], c, b);
      assert t[1..] == a[1..] + ([c] + b);
      assert a == [a[0]] + a[1..];
    }
  }

  function EncodeAll(names: seq<string>): seq<string> {
    seq(|names|, i requires 0 <= i < |names| => EncodeURIComponent(names[i]))
  }

  lemma ReadDecoded(m: map<string, string>, name: string, value: string, k: string, v: string)
    requires '=' !in name && FormDecode(name) == Some(k) && FormDecode(value) == Some(v)
    ensures Read(m, name + "=" + value) == m[k := v]
  {
    assert name + "=" + value == name + (['='] + value);
    CutAt(name, '=', value);
  }

  lemma EncodedValue(v: string)
    ensures NoSeparator(EncodeValue(v)) && FormDecode(EncodeValue(v)) == Some(v)
  {
    OnePass(v);
    ValueNoSeparator(v);
    ValueRoundTrip(v);
  }

  lemma ReadField(m: map<string, string>, k: string, v: string)
    ensures Read(m, EncodeURIComponent(k) + "=" + EncodeValue(v)) == m[k := v]
    ensures '&' !in EncodeURIComponent(k) + "=" + EncodeValue(v)
  {
    FormBytesName(k);
    NameRoundTrip(k);
    EncodedValue(v);
    ReadDecoded(m, EncodeURIComponent(k), EncodeValue(v), k, v);
  }

  /** What sortObject looks up for each name: the property called by the encoded name. */
  function Looked(o: Object, names: seq<string>): map<string, string> {
    map k | k in names :: Lookup(o, EncodeURIComponent(k))
  }

  lemma LookedFirst(o: Object, names: seq<string>, m: map<string, string>)
    requires names != []
    ensures m[names[0] := Lookup(o, EncodeURIComponent(names[0]))] + Looked(o, names[1..]) == m + Looked(o, names)
  {
    FirstOver(m, names, Looked(o, names), Looked(o, names[1..]));
  }

  lemma FirstOver(m: map<string, string>, names: seq<string>, all: map<string, string>, rest: map<string, string>)
    requires names != [] && all.Keys == (set k | k in names) && rest.Keys == (set k | k in names[1..])
    requires forall k :: k in rest ==> k in all && rest[k] == all[k]
    ensures m[names[0] := all[names[0]]] + rest == m + all
  {
    assert forall k :: k in names <==> k == names[0] || k in names[1..];
  }

  lemma ReadFirst(m: map<string, string>, field: string, after: string)
    requires '&' !in field
    ensures ReadFields(m, field) == Read(m, field)
    ensures ReadFields(m, field + "&" + after) == ReadFields(Read(m, field), after)
  {
    CutNone(field, '&');
    CutAt(field, '&', after);
    assert field + "&" + after == field + (['&'] + after);
  }

  function Field(o: Object, name: string): string {
    EncodeURIComponent(name) + "=" + EncodeValue(Lookup(o, EncodeURIComponent(name)))
  }

  lemma EntriesFirst(o: Object, names: seq<string>)
    requires names != []
    ensures QueryString(Entries(o, EncodeAll(names)))
            == if |names| == 1 then Field(o, names[0])
               else Field(o, names[0]) + "&" + QueryString(Entries(o, EncodeAll(names[1..])))
  {
    assert EncodeAll(names)[1..] == EncodeAll(names[1..]);
    assert Entries(o, EncodeAll(names))[1..] == Entries(o, EncodeAll(names[1..]));
  }

  lemma {:induction false} ReadEntries(o: Object, names: seq<string>, m: map<string, string>)
    requires names != []
    ensures ReadFields(m, QueryString(Entries(o, EncodeAll(names)))) == m + Looked(o, names)
  {
    var value := Lookup(o, EncodeURIComponent(names[0]));
    EntriesFirst(o, names);
    ReadField(m, names[0], value);
    LookedFirst(o, names, m);
    ReadFirst(m, Field(o, names[0]), QueryString(Entries(o, EncodeAll(names[1..]))));
    if |names| == 1 {
      assert m[names[0] := value] + Looked(o, names[1..]) == m[names[0] := value];
    } else {
      ReadEntries(o, names[1..], m[names[0] := value]);
    }
  }

  lemma ParseEntries(o: Object, names: seq<string>)
    ensures ParseForm(QueryString(Entries(o, EncodeAll(names)))) == Looked(o, names)
  {
    if names != [] {
      NotEmpty(Entries(o, EncodeAll(names)));
      ReadEntries(o, names, map[]);
      assert map[] + Looked(o, names) == Looked(o, names);
    }
  }

  /** The names in the order of their encodings. */
  lemma SortedNames(o: Object) returns (names: seq<string>)
    requires Distinct(KeysOf(o))
    ensures EncodeAll(names) == Sort(EncodedKeys(o))
    ensures forall k :: k in names <==> k in KeysOf(o)
  {
    var keys := Sort(EncodedKeys(o));
    EncodedDistinct(o);
    SortIs(EncodedKeys(o));
    names := seq(|keys|, i requires 0 <= i < |keys| => match FormDecode(keys[i]) case Some(k) => k case None => "");
    forall i | 0 <= i < |keys| ensures names[i] in KeysOf(o) && keys[i] == EncodeURIComponent(names[i]) {
      assert keys[i] in keys;
      var k :| k in KeysOf(o) && keys[i] == EncodeURIComponent(k);
      NameRoundTrip(k);
    }
    forall k | k in KeysOf(o) ensures k in names {
      assert EncodeURIComponent(k) in keys;
      var i :| 0 <= i < |keys| && keys[i] == EncodeURIComponent(k);
      NameRoundTrip(k);
      assert names[i] == k;
    }
  }

  /**
   What the signed text of any parameters says, to a form decoder: every name, each with the value of the
   property that is called by the name's encoding.
   */
  lemma SignDataReads(o: Object)
    requires Distinct(KeysOf(o))
    ensures ParseForm(SignData(o)) == map k | k in KeysOf(o) :: Lookup(o, EncodeURIComponent(k))
  {
    var names := SortedNames(o);
    ParseEntries(o, names);
  }

  /** The parameters are read back exactly when each name's encoding, if it is another name, has the same value. */
  lemma ReadBackExactly(o: Object)
    requires Distinct(KeysOf(o))
    ensures ParseForm(SignData(o)) == ToMap(o) <==>
              forall k :: k in KeysOf(o) && EncodeURIComponent(k) != k ==>
                Lookup(o, EncodeURIComponent(k)) == Lookup(o, k)
  {
    SignDataReads(o);
    var read := ParseForm(SignData(o));
    assert read.Keys == ToMap(o).Keys;
    if read == ToMap(o) {
      forall k | k in KeysOf(o) ensures Lookup(o, EncodeURIComponent(k)) == Lookup(o, k) {
        assert read[k] == ToMap(o)[k];
      }
    }
  }

  /** Names that encode to themselves. */
  ghost predicate SelfEncodingNames(o: Object) {
    forall i :: 0 <= i < |o| ==> EncodeURIComponent(o[i].0) == o[i].0
  }

  /**
   Every parameter object whose names encode to themselves can be read back from the signed text: all
   names and all values, whatever characters the values have.
   */
  lemma SignDataIsInvertible(o: Object)
    requires Distinct(KeysOf(o)) && SelfEncodingNames(o)
    ensures ParseForm(SignData(o)) == ToMap(o)
  {
    ReadBackExactly(o);
    forall k | k in KeysOf(o) ensures EncodeURIComponent(k) == k {
      var i :| 0 <= i < |o| && KeysOf(o)[i] == k;
    }
  }

  /** In particular, a name whose encoding is no name of the object is read back as `undefined`. */
  lemma EncodedNameLosesValue(o: Object, k: string)
    requires Distinct(KeysOf(o)) && k in KeysOf(o) && EncodeURIComponent(k) !in KeysOf(o)
    ensures k in ParseForm(SignData(o)) && ParseForm(SignData(o))[k] == "undefined"
    ensures ParseForm(SignData(o)) == ToMap(o) ==> Lookup(o, k) == "undefined"
  {
    SignDataReads(o);
    MissingIsUndefined(o, EncodeURIComponent(k));
    if ParseForm(SignData(o)) == ToMap(o) {
      assert ToMap(o)[k] == "undefined";
    }
  }

  lemma NotEmpty(o: Object)
    requires o != []
    ensures QueryString(o) != ""
  {
    assert o[0].0 + "=" + o[0].1 != "";
  }

  // ---------- the payment URL ----------

  /** A query without its last field. */
  function WithoutLastField(t: string): string {
    if t == "" then "" else if t[|t| - 1] == '&' then t[..|t| - 1] else WithoutLastField(t[..|t| - 1])
  }

  lemma {:induction false} LastField(a: string, field: string)
    requires '&' !in field
    ensures WithoutLastField(a + "&" + field) == a
  {
    var t := a + "&" + field;
    if field == "" {
      assert t[..|t| - 1] == a;
    } else {
      var f := field[..|field| - 1];
      LastField(a, f);
      assert t[..|t| - 1] == a + "&" + f;
    }
  }

  /** A signed query without its last field is the signed text, which gives back exactly the parameters. */
  lemma SignedQueryReadsBack(o: Object, hash: string)
    requires Distinct(KeysOf(o)) && SelfEncodingNames(o) && '&' !in hash
    ensures var query := SignData(o) + "&" + SECURE_HASH + "=" + hash;
            WithoutLastField(query) == SignData(o) && ParseForm(WithoutLastField(query)) == ToMap(o)
  {
    var field := SECURE_HASH + "=" + hash;
    assert SignData(o) + "&" + SECURE_HASH + "=" + hash == SignData(o) + "&" + field;
    LastField(SignData(o), field);
    SignDataIsInvertible(o);
  }

  const PAY_NAMES := ["vnp_Version", "vnp_Command", "vnp_TmnCode", "vnp_TxnRef", "vnp_OrderInfo", "vnp_Amount",
                      "vnp_IpAddr", "vnp_CreateDate", "vnp_ReturnUrl", "vnp_OrderType", "vnp_Locale", "vnp_CurrCode"]
  const REFUND_NAMES := ["vnp_Version", "vnp_Command", "vnp_TmnCode", "vnp_TxnRef", "vnp_OrderInfo", "vnp_Amount",
                         "vnp_IpAddr", "vnp_CreateDate", "vnp_TransactionNo", "vnp_TransactionType", "vnp_RequestId",
                         "vnp_CreateBy", "vnp_TransactionDate"]

  lemma {:induction false} UnreservedEncodes(k: string)
    requires forall i :: 0 <= i < |k| ==> IsUnreserved(k[i])
    ensures EncodeURIComponent(k) == k
  {
    if k != "" {
      UnreservedEncodes(k[1..]);
      assert k == [k[0]] + k[1..];
    }
  }

  /** A name of letters, with enough of them. */
  predicate Letters(k: string) {
    |k| >= 10 && forall i :: 0 <= i < |k| ==> 'A' <= k[i] <= 'Z' || 'a' <= k[i] <= 'z' || k[i] == '_'
  }

  /** The position of a name among those of its request, from its length, its fifth and its last but one character. */
  function Position(k: string): nat
    requires |k| >= 10
  {
    var c, d := k[4], k[|k| - 2];
    match |k|
    case 10 => (match c case 'T' => 3 case 'A' => 5 case 'I' => 6 case _ => 10)
    case 11 => (match c case 'V' => 0 case 'C' => 1 case _ => 2)
    case 12 => 11
    case 13 => (match d case 'f' => 4 case 'r' => 8 case 'p' => 9 case _ => 10)
    case 14 => 7
    case 17 => 8
    case _ => if d == 'p' then 9 else 12
  }

  ghost predicate ToldApart(names: seq<string>) {
    forall i :: 0 <= i < |names| ==> Letters(names[i]) && Position(names[i]) == i
  }

  lemma PayToldApart()
    ensures ToldApart(PAY_NAMES)
  {
    assert forall i :: 0 <= i < 12 ==> Letters(PAY_NAMES[i]);
  }

  lemma RefundLetters()
    ensures forall i :: 0 <= i < 13 ==> Letters(REFUND_NAMES[i])
  {
  }

  lemma RefundToldApart()
    ensures ToldApart(REFUND_NAMES)
  {
    RefundLetters();
  }

  lemma ToldApartArePlain(o: Object)
    requires ToldApart(KeysOf(o))
    ensures Distinct(KeysOf(o)) && SelfEncodingNames(o)
  {
    forall i | 0 <= i < |o| ensures EncodeURIComponent(o[i].0) == o[i].0 {
      assert Letters(KeysOf(o)[i]);
      UnreservedEncodes(o[i].0);
    }
  }

  /** The names of a payment request are distinct and encode to themselves. */
  lemma PayNamesPlain(c: Config, amount: real, orderId: string, orderType: string, orderDescription: string,
                      ipAddr: string, createDate: string, text: real -> string)
    ensures var o := PayParams(c, amount, orderId, orderType, orderDescription, ipAddr, createDate, text);
            KeysOf(o) == PAY_NAMES && Distinct(KeysOf(o)) && SelfEncodingNames(o)
  {
    var o := PayParams(c, amount, orderId, orderType, orderDescription, ipAddr, createDate, text);
    assert KeysOf(o) == PAY_NAMES;
    PayToldApart();
    ToldApartArePlain(o);
  }

  /** So are those of a refund request. */
  lemma RefundNamesPlain(c: Config, amount: real, orderId: string, ipAddr: string, createDate: string,
                         transactionType: string, requestId: string, payDate: string, text: real -> string)
    ensures var o := RefundParams(c, amount, orderId, ipAddr, createDate, transactionType, requestId, payDate, text);
            KeysOf(o) == REFUND_NAMES && Distinct(KeysOf(o)) && SelfEncodingNames(o)
  {
    var o := RefundParams(c, amount, orderId, ipAddr, createDate, transactionType, requestId, payDate, text);
    assert KeysOf(o) == REFUND_NAMES;
    RefundToldApart();
    ToldApartArePlain(o);
  }

  // ---------- what VNPay reads ----------

  lemma {:induction false} LookupAt(o: Object, i: nat)
    requires i < |o| && Distinct(KeysOf(o))
    ensures Lookup(o, o[i].0) == o[i].1
  {
    if i > 0 {
      assert KeysOf(o)[0] != KeysOf(o)[i];
      assert KeysOf(o[1..]) == KeysOf(o)[1..];
      LookupAt(o[1..], i - 1);
    }
  }

  lemma {:induction false} DistinctCount(keys: seq<string>)
    requires Distinct(keys)
    ensures |set k | k in keys| == |keys|
  {
    if keys == [] {
      assert (set k | k in keys) == {};
    } else {
      DistinctCount(keys[1..]);
      assert keys[0] !in keys[1..];
      assert (set k | k in keys) == {keys[0]} + set k | k in keys[1..];
    }
  }

  /** How a signed query is read: the signature fits the rest, and the rest has these fields and no more. */
  ghost predicate Understood(query: string, fields: seq<(string, string)>, hmac: string -> string) {
    var signed, read := WithoutLastField(query), ParseForm(WithoutLastField(query));
    && query == signed + "&" + "vnp_SecureHash" + "=" + hmac(signed)
    && |read| == |fields|
    && forall i :: 0 <= i < |fields| ==> fields[i].0 in read && read[fields[i].0] == fields[i].1
  }

  lemma QueryUnderstood(o: Object, hmac: string -> string)
    requires Distinct(KeysOf(o)) && SelfEncodingNames(o) && '&' !in hmac(SignData(o))
    ensures Understood(SignedQuery(o, hmac), o, hmac)
  {
    SignedQueryReadsBack(o, hmac(SignData(o)));
    assert ToMap(o).Keys == set k | k in KeysOf(o);
    DistinctCount(KeysOf(o));
    forall i | 0 <= i < |o| ensures o[i].0 in ToMap(o) && ToMap(o)[o[i].0] == o[i].1 {
      assert KeysOf(o)[i] in KeysOf(o);
      LookupAt(o, i);
    }
  }

  /** What a payment is to tell VNPay: a hundred times the amount, the order as reference, the rest as it is. */
  function PaymentFields(c: Config, amount: real, orderId: string, orderType: string, orderDescription: string,
                         ipAddr: string, createDate: string, text: real -> string): seq<(string, string)>
  {
    [("vnp_Version", c.version), ("vnp_Command", "pay"), ("vnp_TmnCode", c.tmnCode), ("vnp_TxnRef", orderId),
     ("vnp_OrderInfo", orderDescription), ("vnp_Amount", text(100.0 * amount)), ("vnp_IpAddr", ipAddr),
     ("vnp_CreateDate", createDate), ("vnp_ReturnUrl", c.returnUrl), ("vnp_OrderType", orderType),
     ("vnp_Locale", c.locale), ("vnp_CurrCode", "VND")]
  }

  /** What a refund is to tell it: a hundred times the amount, the order, and the date of its payment. */
  function RepaymentFields(c: Config, amount: real, orderId: string, ipAddr: string, createDate: string,
                           transactionType: string, requestId: string, payDate: string, text: real -> string)
    : seq<(string, string)>
  {
    [("vnp_Version", c.version), ("vnp_Command", "refund"), ("vnp_TmnCode", c.tmnCode), ("vnp_TxnRef", orderId),
     ("vnp_OrderInfo", "Refund transaction"), ("vnp_Amount", text(100.0 * amount)), ("vnp_IpAddr", ipAddr),
     ("vnp_CreateDate", createDate), ("vnp_TransactionNo", "0"), ("vnp_TransactionType", transactionType),
     ("vnp_RequestId", requestId), ("vnp_CreateBy", "System"), ("vnp_TransactionDate", payDate)]
  }

  lemma PaymentFieldsSent(c: Config, amount: real, orderId: string, orderType: string, orderDescription: string,
                          ipAddr: string, createDate: string, text: real -> string)
    ensures PayParams(c, amount, orderId, orderType, orderDescription, ipAddr, createDate, text)
            == PaymentFields(c, amount, orderId, orderType, orderDescription, ipAddr, createDate, text)
  {
    assert amount * 100.0 == 100.0 * amount;
  }

  lemma RepaymentFieldsSent(c: Config, amount: real, orderId: string, ipAddr: string, createDate: string,
                            transactionType: string, requestId: string, payDate: string, text: real -> string)
    ensures RefundParams(c, amount, orderId, ipAddr, createDate, transactionType, requestId, payDate, text)
            == RepaymentFields(c, amount, orderId, ipAddr, createDate, transactionType, requestId, payDate, text)
  {
    assert amount * 100.0 == 100.0 * amount;
  }

  /** VNPay reads the fields of a payment from its URL: a signed query of these twelve fields. */
  lemma PaymentUnderstood(c: Config, amount: real, orderId: string, orderType: string, orderDescription: string,
                          ipAddr: string, createDate: string, text: real -> string, hmac: string -> string)
    requires forall t :: '&' !in hmac(t)
    ensures Understood(
              SignedQuery(PayParams(c, amount, orderId, orderType, orderDescription, ipAddr, createDate, text), hmac),
              PaymentFields(c, amount, orderId, orderType, orderDescription, ipAddr, createDate, text), hmac)
  {
    PayNamesPlain(c, amount, orderId, orderType, orderDescription, ipAddr, createDate, text);
    PaymentFieldsSent(c, amount, orderId, orderType, orderDescription, ipAddr, createDate, text);
    QueryUnderstood(PayParams(c, amount, orderId, orderType, orderDescription, ipAddr, createDate, text), hmac);
  }

  /** And those of a refund from the signed text of the object that is posted: these thirteen. */
  lemma RefundUnderstood(c: Config, amount: real, orderId: string, ipAddr: string, createDate: string,
                         transactionType: string, requestId: string, payDate: string, text: real -> string,
                         hmac: string -> string)
    requires forall t :: '&' !in hmac(t)
    ensures Understood(
              SignedQuery(RefundParams(c, amount, orderId, ipAddr, createDate, transactionType, requestId, payDate,
                                       text), hmac),
              RepaymentFields(c, amount, orderId, ipAddr, createDate, transactionType, requestId, payDate, text), hmac)
  {
    RefundNamesPlain(c, amount, orderId, ipAddr, createDate, transactionType, requestId, payDate, text);
    RepaymentFieldsSent(c, amount, orderId, ipAddr, createDate, transactionType, requestId, payDate, text);
    QueryUnderstood(RefundParams(c, amount, orderId, ipAddr, createDate, transactionType, requestId, payDate, text),
                    hmac);
  }
}
