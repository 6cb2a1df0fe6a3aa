/**
 VNPay requests: the parameters are sorted and encoded, signed as text, and sent with their signature
 as the last field.  An object is the sequence of its properties in insertion order; names that look
 like array indices, which JavaScript would enumerate first, do not occur.
 */
module PaymentService {
  import opened Common
  import opened UriEncoding
  import StringOrder

  type Object = seq<(string, string)>

  function KeysOf(o: Object): seq<string> { seq(|o|, i requires 0 <= i < |o| => o[i].0) }

  /** `${o[k]}` */
  function Lookup(o: Object, k: string): string {
    if o == [] then "undefined" else if o[0].0 == k then o[0].1 else Lookup(o[1..], k)
  }

  /** The object as a map from names to values. */
  function ToMap(o: Object): map<string, string> { map k | k in KeysOf(o) :: Lookup(o, k) }

  // ---------- sortObject ----------

  function Insert(x: string, s: seq<string>): seq<string> {
    if s == [] then [x] else if StringOrder.Less(s[0], x) then [s[0]] + Insert(x, s[1..]) else [x] + s
  }

  /** `Array.prototype.sort` without a comparator. */
  function Sort(s: seq<string>): seq<string> {
    if s == [] then [] else Insert(s[0], Sort(s[1..]))
  }

  function EncodedKeys(o: Object): seq<string> {
    seq(|o|, i requires 0 <= i < |o| => EncodeURIComponent(o[i].0))
  }

  function Entries(o: Object, keys: seq<string>): Object {
    seq(|keys|, i requires 0 <= i < |keys| => (keys[i], EncodeValue(Lookup(o, keys[i]))))
  }

  /** The sorted object; note that values are looked up under the encoded names. */
  function SortedObject(o: Object): Object { Entries(o, Sort(EncodedKeys(o))) }

  method SortObject(o: Object) returns (sorted: Object)
    ensures sorted == SortedObject(o)
  {
    var str: seq<string> := [];
    for i := 0 to |o|
      invariant str == EncodedKeys(o)[..i]
    {
      str := str + [EncodeURIComponent(o[i].0)];
    }
    assert str == EncodedKeys(o);
    str := Sort(str);
    sorted := [];
    for i := 0 to |str|
      invariant sorted == Entries(o, str)[..i]
    {
      sorted := sorted + [(str[i], EncodeValue(Lookup(o, str[i])))];
    }
  }

  /** qs.stringify without encoding. */
  function QueryString(o: Object): string {
    if o == [] then "" else
    var first := o[0].0 + "=" + o[0].1;
    if |o| == 1 then first else first + "&" + QueryString(o[1..])
  }

  /** The text that is signed. */
  function SignData(o: Object): string { QueryString(SortedObject(o)) }

  // ---------- createPaymentUrl ----------

  const SECURE_HASH := "vnp_SecureHash"

  datatype Config = Config(tmnCode: string, version: string, vnpUrl: string, returnUrl: string, locale: string)

  /** The fields every request has; `text` prints a number. */
  function BaseParams(c: Config, command: string, amount: real, orderId: string, orderDescription: string,
                      ipAddr: string, createDate: string, text: real -> string): Object
  {
    [("vnp_Version", c.version), ("vnp_Command", command), ("vnp_TmnCode", c.tmnCode), ("vnp_TxnRef", orderId),
     ("vnp_OrderInfo", orderDescription), ("vnp_Amount", text(amount * 100.0)), ("vnp_IpAddr", ipAddr),
     ("vnp_CreateDate", createDate)]
  }

  function PayFields(c: Config, orderType: string): Object {
    [("vnp_ReturnUrl", c.returnUrl), ("vnp_OrderType", orderType), ("vnp_Locale", c.locale), ("vnp_CurrCode", "VND")]
  }

  function RefundFields(transactionType: string, requestId: string, payDate: string): Object {
    [("vnp_TransactionNo", "0"), ("vnp_TransactionType", transactionType), ("vnp_RequestId", requestId),
     ("vnp_CreateBy", "System"), ("vnp_TransactionDate", payDate)]
  }

  /** buildVnpBaseParams: sort, sign, and append the signature. */
  method BuildVnpParams(params: Object, hmac: string -> string) returns (signed: Object)
    ensures signed == SortedObject(params) + [(SECURE_HASH, hmac(SignData(params)))]
  {
    var sortedParams := SortObject(params);
    var signData := QueryString(sortedParams);
    signed := sortedParams + [(SECURE_HASH, hmac(signData))];
  }

  /** A signed query: the text that is signed, and the signature as its last field. */
  function SignedQuery(params: Object, hmac: string -> string): string {
    SignData(params) + "&" + SECURE_HASH + "=" + hmac(SignData(params))
  }

  function PayParams(c: Config, amount: real, orderId: string, orderType: string, orderDescription: string,
                     ipAddr: string, createDate: string, text: real -> string): Object
  {
    BaseParams(c, "pay", amount, orderId, orderDescription, ipAddr, createDate, text) + PayFields(c, orderType)
  }

  method CreatePaymentUrl(c: Config, amount: real, orderId: string, orderType: string, orderDescription: string,
                          ipAddr: string, createDate: string, text: real -> string, hmac: string -> string)
    returns (url: string)
    ensures url == c.vnpUrl + "?" + SignedQuery(PayParams(c, amount, orderId, orderType, orderDescription, ipAddr,
                                                          createDate, text), hmac)
  {
    var params := PayParams(c, amount, orderId, orderType, orderDescription, ipAddr, createDate, text);
    var vnpPayParams := BuildVnpParams(params, hmac);
    SortLength(EncodedKeys(params));
    QueryAppend(SortedObject(params), SECURE_HASH, hmac(SignData(params)));
    url := c.vnpUrl + "?" + QueryString(vnpPayParams);
  }

  // ---------- refundTransaction ----------

  function RefundParams(c: Config, amount: real, orderId: string, ipAddr: string, createDate: string,
                        transactionType: string, requestId: string, payDate: string, text: real -> string): Object
  {
    BaseParams(c, "refund", amount, orderId, "Refund transaction", ipAddr, createDate, text)
    + RefundFields(transactionType, requestId, payDate)
  }

  /** The object that is posted to VNPay, as the text it is signed with. */
  method BuildRefund(c: Config, amount: real, orderId: string, ipAddr: string, createDate: string,
                     transactionType: string, requestId: string, payDate: string, text: real -> string,
                     hmac: string -> string) returns (posted: Object)
    ensures QueryString(posted) == SignedQuery(RefundParams(c, amount, orderId, ipAddr, createDate, transactionType,
                                                            requestId, payDate, text), hmac)
  {
    var params := RefundParams(c, amount, orderId, ipAddr, createDate, transactionType, requestId, payDate, text);
    posted := BuildVnpParams(params, hmac);
    SortLength(EncodedKeys(params));
    QueryAppend(SortedObject(params), SECURE_HASH, hmac(SignData(params)));
  }

  lemma {:induction false} InsertLength(x: string, s: seq<string>)
    ensures |Insert(x, s)| == |s| + 1
  {
    if s != [] { InsertLength(x, s[1..]); }
  }

  lemma {:induction false} SortLength(s: seq<string>)
    ensures |Sort(s)| == |s|
  {
    if s != [] {
      SortLength(s[1..]);
      InsertLength(s[0], Sort(s[1..]));
    }
  }

  lemma {:induction false} QueryAppend(o: Object, k: string, v: string)
    requires o != []
    ensures QueryString(o + [(k, v)]) == QueryString(o) + "&" + k + "=" + v
  {
    var all := o + [(k, v)];
    var first := o[0].0 + "=" + o[0].1;
    if |o| == 1 {
      assert all[1..] == [(k, v)];
      assert QueryString(all[1..]) == k + "=" + v;
      assert first + "&" + (k + "=" + v) == first + "&" + k + "=" + v;
    } else {
      QueryAppend(o[1..], k, v);
      assert all[1..] == o[1..] + [(k, v)];
      var rest := QueryString(o[1..]);
      assert first + "&" + (rest + "&" + k + "=" + v) == first + "&" + rest + "&" + k + "=" + v;
    }
  }
}
