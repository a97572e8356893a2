/**
 * `VnPayService`: the signed payment URL sent to the VNPay gateway and the
 * check of the signature on the parameters it sends back.  Both sides sign
 * the same canonical string: the parameters in ascending name order, each
 * non-empty one as `name=encode(value)`, joined by `&`.
 *
 * URL encoding (`URLEncoder.encode` with US-ASCII) and the raw HMAC-SHA512
 * digest over the UTF-8 bytes of key and data are parameters; the hex
 * rendering of the digest is modelled.
 */
module VnPayService {
  import opened Wrappers
  import opened Text
  import opened Entities

  newtype Byte = x: int | 0 <= x < 256

  /** A HMAC-SHA512 digest: 64 bytes. */
  type Digest = s: seq<Byte> | |s| == 64 witness seq(64, _ => 0 as Byte)

  type Encoder = string -> string

  type Mac = (string, string) -> Digest

  /** The `app.vnpay.*` configuration values. */
  datatype VnPayConfig = VnPayConfig(tmnCode: string, hashSecret: string, returnUrl: string)

  const PayUrl: string := "https://sandbox.vnpayment.vn/paymentv2/vpcpay.html"
  const SecureHashKey: string := "vnp_SecureHash"

  // ----- hex rendering of the digest ----------------------------------------

  function HexDigit(n: int): char
    requires 0 <= n < 16
  {
    if n < 10 then ('0' as int + n) as char else ('a' as int + n - 10) as char
  }

  predicate IsLowerHex(c: char) {
    '0' <= c <= '9' || 'a' <= c <= 'f'
  }

  /** `String.format("%02x", b)` for each byte, concatenated. */
  function Hex(bytes: seq<Byte>): string {
    if bytes == [] then []
    else
      var b := bytes[|bytes| - 1] as int;
      Hex(bytes[..|bytes| - 1]) + [HexDigit(b / 16), HexDigit(b % 16)]
  }

  /** Two lower-case hex digits per byte. */
  lemma {:induction false} HexShape(bytes: seq<Byte>)
    ensures |Hex(bytes)| == 2 * |bytes|
    ensures forall i :: 0 <= i < |Hex(bytes)| ==> IsLowerHex(Hex(bytes)[i])
  {
    if bytes != [] {
      HexShape(bytes[..|bytes| - 1]);
    }
  }

  method HexOf(bytes: seq<Byte>) returns (s: string)
    ensures s == Hex(bytes)
  {
    s := [];
    var i := 0;
    while i < |bytes|
      invariant 0 <= i <= |bytes|
      invariant s == Hex(bytes[..i])
    {
      assert bytes[..i + 1][..i] == bytes[..i];
      var b := bytes[i] as int;
      s := s + [HexDigit(b / 16), HexDigit(b % 16)];
      i := i + 1;
    }
    assert bytes[..i] == bytes;
  }

  /**
   * `HmacSHA512`: the hex digest, or `OperationFailed` when the JCE refuses
   * the key, which it does for an empty key.
   */
  function HmacHex(key: string, data: string, mac: Mac): Result<string> {
    if key == [] then Err(OperationFailed("hash")) else Ok(Hex(mac(key, data)))
  }

  method HmacSHA512(key: string, data: string, mac: Mac) returns (r: Result<string>)
    ensures r == HmacHex(key, data, mac)
    ensures r.Ok? ==> |r.value| == 128
  {
    if key == [] {
      return Err(OperationFailed("hash"));
    }
    var hex := HexOf(mac(key, data));
    HexShape(mac(key, data));
    return Ok(hex);
  }

  // ----- parameter names in ascending order ------------------------------------

  predicate StrictlySorted(ks: seq<string>) {
    forall i, j :: 0 <= i < j < |ks| ==> Less(ks[i], ks[j])
  }

  /** `ks` lists the members of `s`, each once, in ascending order. */
  ghost predicate SortedListOf(ks: seq<string>, s: set<string>) {
    StrictlySorted(ks) && forall k :: k in ks <==> k in s
  }

  predicate IsMinimum(m: string, s: set<string>) {
    m in s && forall o :: o in s && o != m ==> Less(m, o)
  }

  lemma HasMember(s: set<string>)
    requires s != {}
    ensures exists x :: x in s
  {
    if forall x :: x !in s {
      assert false;
    }
  }

  lemma {:induction false} MinimumExists(s: set<string>)
    requires s != {}
    ensures exists m :: IsMinimum(m, s)
    decreases |s|
  {
    HasMember(s);
    var x :| x in s;
    if s - {x} == {} {
      forall o | o in s
        ensures o == x
      {
        assert o !in s - {x};
      }
      assert IsMinimum(x, s);
    } else {
      MinimumExists(s - {x});
      var m :| IsMinimum(m, s - {x});
      LessTotal(x, m);
      if Less(x, m) {
        forall o | o in s && o != x
          ensures Less(x, o)
        {
          if o != m {
            LessTransitive(x, m, o);
          }
        }
        assert IsMinimum(x, s);
      } else {
        assert IsMinimum(m, s);
      }
    }
  }

  /** A strictly sorted list of a set's members is unique. */
  lemma {:induction false} SortedListUnique(a: seq<string>, b: seq<string>, s: set<string>)
    requires SortedListOf(a, s) && SortedListOf(b, s)
    ensures a == b
    decreases |a|
  {
    assert a == [] <==> s == {} by {
      if a != [] {
        assert a[0] in s;
      }
    }
    assert b == [] <==> s == {} by {
      if b != [] {
        assert b[0] in s;
      }
    }
    if a != [] && b != [] {
      assert a[0] in s && b[0] in s;
      if a[0] != b[0] {
        var i :| 0 <= i < |b| && b[i] == a[0];
        var j :| 0 <= j < |a| && a[j] == b[0];
        assert Less(b[0], a[0]) by { assert 0 < i; }
        assert Less(a[0], b[0]) by { assert 0 < j; }
        LessTransitive(a[0], b[0], a[0]);
        LessIrreflexive(a[0]);
      }
      var s' := s - {a[0]};
      forall k
        ensures k in a[1..] <==> k in s'
      {
        if k in a[1..] {
          var i :| 1 <= i < |a| && a[i] == k;
          assert Less(a[0], a[i]);
          LessIrreflexive(a[0]);
        }
        if k in s' {
          assert k in a;
        }
      }
      forall k
        ensures k in b[1..] <==> k in s'
      {
        if k in b[1..] {
          var i :| 1 <= i < |b| && b[i] == k;
          assert Less(b[0], b[i]);
          LessIrreflexive(b[0]);
        }
        if k in s' {
          assert k in b;
        }
      }
      SortedListUnique(a[1..], b[1..], s');
      assert a == [a[0]] + a[1..] && b == [b[0]] + b[1..];
    }
  }

  lemma {:induction false} SortedListExists(s: set<string>)
    ensures exists ks :: SortedListOf(ks, s)
    decreases |s|
  {
    if s == {} {
      assert SortedListOf([], s);
    } else {
      MinimumExists(s);
      var m :| IsMinimum(m, s);
      SortedListExists(s - {m});
      var rest :| SortedListOf(rest, s - {m});
      var ks := [m] + rest;
      forall i, j | 0 <= i < j < |ks|
        ensures Less(ks[i], ks[j])
      {
        if i > 0 {
          assert ks[i] == rest[i - 1] && ks[j] == rest[j - 1];
        } else {
          assert ks[j] in rest;
        }
      }
      assert SortedListOf(ks, s);
    }
  }

  /** The parameter names in the order `Collections.sort` puts them. */
  ghost function SortedKeys(s: set<string>): (ks: seq<string>)
    ensures SortedListOf(ks, s)
  {
    SortedListExists(s);
    var ks :| SortedListOf(ks, s);
    ks
  }

  /** `Collections.sort` over the names, modelled as a selection of the least remaining name. */
  method SortKeys(s: set<string>) returns (ks: seq<string>)
    ensures ks == SortedKeys(s)
  {
    ks := [];
    var rest := s;
    while rest != {}
      invariant rest <= s
      invariant StrictlySorted(ks)
      invariant forall k :: k in ks <==> k in s && k !in rest
      invariant forall i, o :: 0 <= i < |ks| && o in rest ==> Less(ks[i], o)
      decreases |rest|
    {
      MinimumExists(rest);
      var m :| IsMinimum(m, rest);
      ghost var before := ks;
      ks := ks + [m];
      rest := rest - {m};
      forall i, o | 0 <= i < |ks| && o in rest
        ensures Less(ks[i], o)
      {
        if i < |ks| - 1 {
          assert ks[i] == before[i];
        }
      }
    }
    SortedListUnique(ks, SortedKeys(s), s);
  }

  // ----- the canonical strings ------------------------------------------------------

  /** What key `j` contributes to the signed string; an `&` follows when another key comes after it. */
  function HashSegment(ks: seq<string>, m: map<string, string>, enc: Encoder, j: nat): string
    requires j < |ks| && ks[j] in m
  {
    if m[ks[j]] == [] then []
    else ks[j] + "=" + enc(m[ks[j]]) + (if j + 1 < |ks| then "&" else "")
  }

  /** What key `j` contributes to the query string: the name is encoded too. */
  function QuerySegment(ks: seq<string>, m: map<string, string>, enc: Encoder, j: nat): string
    requires j < |ks| && ks[j] in m
  {
    if m[ks[j]] == [] then []
    else enc(ks[j]) + "=" + enc(m[ks[j]]) + (if j + 1 < |ks| then "&" else "")
  }

  predicate KeysIn(ks: seq<string>, m: map<string, string>) {
    forall j :: 0 <= j < |ks| ==> ks[j] in m
  }

  /** The signed string built from the first `i` keys. */
  function HashPrefix(ks: seq<string>, m: map<string, string>, enc: Encoder, i: nat): string
    requires i <= |ks| && KeysIn(ks, m)
  {
    if i == 0 then [] else HashPrefix(ks, m, enc, i - 1) + HashSegment(ks, m, enc, i - 1)
  }

  function QueryPrefix(ks: seq<string>, m: map<string, string>, enc: Encoder, i: nat): string
    requires i <= |ks| && KeysIn(ks, m)
  {
    if i == 0 then [] else QueryPrefix(ks, m, enc, i - 1) + QuerySegment(ks, m, enc, i - 1)
  }

  /** The string both sides sign for a parameter map. */
  ghost function HashData(m: map<string, string>, enc: Encoder): string {
    var ks := SortedKeys(m.Keys);
    HashPrefix(ks, m, enc, |ks|)
  }

  ghost function QueryString(m: map<string, string>, enc: Encoder): string {
    var ks := SortedKeys(m.Keys);
    QueryPrefix(ks, m, enc, |ks|)
  }

  /** The loop shared by both methods: the signed string and the query string, key by key in sorted order. */
  method BuildStrings(m: map<string, string>, enc: Encoder) returns (hashData: string, query: string)
    ensures hashData == HashData(m, enc) && query == QueryString(m, enc)
  {
    var ks := SortKeys(m.Keys);
    assert KeysIn(ks, m);
    hashData, query := JoinSegments(ks, m, enc);
  }

  /** The loop itself, over names already sorted. */
  method JoinSegments(ks: seq<string>, m: map<string, string>, enc: Encoder) returns (hashData: string, query: string)
    requires KeysIn(ks, m)
    ensures hashData == HashPrefix(ks, m, enc, |ks|) && query == QueryPrefix(ks, m, enc, |ks|)
  {
    hashData, query := [], [];
    for i := 0 to |ks|
      invariant hashData == HashPrefix(ks, m, enc, i)
      invariant query == QueryPrefix(ks, m, enc, i)
    {
      // An empty value is skipped; the separator depends only on the position.
      hashData := hashData + HashSegment(ks, m, enc, i);
      query := query + QuerySegment(ks, m, enc, i);
    }
  }

  /**
   * The separator is written before it is known whether the next key is
   * skipped: a last key with an empty value leaves a trailing `&`, and the
   * skipped key itself contributes nothing.
   */
  lemma TrailingSeparator(enc: Encoder)
    ensures HashData(map["vnp_Amount" := "100", "vnp_IpAddr" := ""], enc) == "vnp_Amount=" + enc("100") + "&"
  {
    var m := map["vnp_Amount" := "100", "vnp_IpAddr" := ""];
    var ks := ["vnp_Amount", "vnp_IpAddr"];
    assert Less(ks[0], ks[1]) by {
      assert ks[0][..4] == ks[1][..4] && ks[0][4] < ks[1][4];
      assert ks[0][1..][1..][1..][1..] == ks[0][4..] && ks[1][1..][1..][1..][1..] == ks[1][4..];
    }
    assert SortedListOf(ks, m.Keys);
    SortedListUnique(ks, SortedKeys(m.Keys), m.Keys);
    assert HashPrefix(ks, m, enc, 1) == "vnp_Amount=" + enc("100") + "&";
  }

  // ----- createPaymentUrl --------------------------------------------------------------

  /**
   * The parameters of a payment request.  The amount is the total in
   * hundredths of a dong, which is what multiplying a two-decimal total by 100
   * gives; a missing client address is sent as nothing, like a null value.
   */
  function PaymentParams(orderId: int, totalAmount: Money, ipAddr: Option<string>, cfg: VnPayConfig,
                         createDate: string, expireDate: string): map<string, string> {
    map[
      "vnp_Version" := "2.1.0",
      "vnp_Command" := "pay",
      "vnp_TmnCode" := cfg.tmnCode,
      "vnp_Amount" := IntToString(totalAmount),
      "vnp_CurrCode" := "VND",
      "vnp_TxnRef" := IntToString(orderId),
      "vnp_OrderInfo" := "Thanh toan don hang " + IntToString(orderId),
      "vnp_OrderType" := "other",
      "vnp_Locale" := "vn",
      "vnp_ReturnUrl" := cfg.returnUrl,
      "vnp_IpAddr" := if ipAddr.Some? then ipAddr.value else "",
      "vnp_CreateDate" := createDate,
      "vnp_ExpireDate" := expireDate]
  }

  /** The URL `createPaymentUrl` returns, or the failure of the hash. */
  ghost function PaymentUrl(params: map<string, string>, secret: string, enc: Encoder, mac: Mac): Result<string> {
    match HmacHex(secret, HashData(params, enc), mac)
    case Err(e) => Err(e)
    case Ok(hash) => Ok(PayUrl + "?" + QueryString(params, enc) + "&" + SecureHashKey + "=" + hash)
  }

  /**
   * `createPaymentUrl`.  The two time stamps (now and fifteen minutes later in
   * GMT+7, formatted yyyyMMddHHmmss) come from the clock and are inputs.
   */
  method CreatePaymentUrl(orderId: int, totalAmount: Money, ipAddr: Option<string>, cfg: VnPayConfig,
                          createDate: string, expireDate: string, enc: Encoder, mac: Mac) returns (r: Result<string>)
    ensures r == PaymentUrl(PaymentParams(orderId, totalAmount, ipAddr, cfg, createDate, expireDate), cfg.hashSecret, enc, mac)
  {
    var params := PaymentParams(orderId, totalAmount, ipAddr, cfg, createDate, expireDate);
    var hashData, query := BuildStrings(params, enc);
    var hash := HmacSHA512(cfg.hashSecret, hashData, mac);
    if hash.Err? {
      return Err(hash.error);
    }
    return Ok(PayUrl + "?" + query + "&" + SecureHashKey + "=" + hash.value);
  }

  // ----- validateReturnSignature ---------------------------------------------------------

  /**
   * The verdict on returned parameters: false when the hash is missing or
   * empty, otherwise whether the HMAC of the other parameters' canonical
   * string equals the supplied hash up to letter case.
   */
  ghost function SignatureVerdict(params: map<string, string>, secret: string, enc: Encoder, mac: Mac): Result<bool> {
    if SecureHashKey !in params || params[SecureHashKey] == [] then Ok(false)
    else match HmacHex(secret, HashData(params - {SecureHashKey}, enc), mac)
      case Err(e) => Err(e)
      case Ok(hash) => Ok(EqualsIgnoreCase(hash, params[SecureHashKey]))
  }

  /** `validateReturnSignature`; it removes the hash from the caller's map, returned as `rest`. */
  method ValidateReturnSignature(params: map<string, string>, secret: string, enc: Encoder, mac: Mac)
    returns (r: Result<bool>, rest: map<string, string>)
    ensures rest == params - {SecureHashKey}
    ensures r == SignatureVerdict(params, secret, enc, mac)
  {
    rest := params - {SecureHashKey};
    if SecureHashKey !in params || params[SecureHashKey] == [] {
      return Ok(false), rest;
    }
    var hashData, _ := BuildStrings(rest, enc);
    var hash := HmacSHA512(secret, hashData, mac);
    if hash.Err? {
      return Err(hash.error), rest;
    }
    return Ok(EqualsIgnoreCase(hash.value, params[SecureHashKey])), rest;
  }

  /** Parameters signed with the shared secret pass validation, whatever the case of the hex digits. */
  lemma SignThenValidate(m: map<string, string>, secret: string, enc: Encoder, mac: Mac, supplied: string)
    requires SecureHashKey !in m && secret != []
    requires EqualsIgnoreCase(supplied, Hex(mac(secret, HashData(m, enc))))
    ensures SignatureVerdict(m[SecureHashKey := supplied], secret, enc, mac) == Ok(true)
  {
    var signed := m[SecureHashKey := supplied];
    assert signed - {SecureHashKey} == m;
    HexShape(mac(secret, HashData(m, enc)));
    assert supplied != [];
    EqualsIgnoreCaseSymmetric(supplied, Hex(mac(secret, HashData(m, enc))));
  }

  /** With the reference secret, any supplied hash that is not the signed one up to case is refused. */
  lemma WrongHashRefused(m: map<string, string>, secret: string, enc: Encoder, mac: Mac, supplied: string)
    requires SecureHashKey !in m && secret != []
    requires !EqualsIgnoreCase(Hex(mac(secret, HashData(m, enc))), supplied)
    ensures SignatureVerdict(m[SecureHashKey := supplied], secret, enc, mac) == Ok(false)
  {
    var signed := m[SecureHashKey := supplied];
    assert signed - {SecureHashKey} == m;
  }

  /** The gateway's order reference parses back to the order id. */
  lemma TxnRefRoundTrip(orderId: int, totalAmount: Money, ipAddr: Option<string>, cfg: VnPayConfig,
                        createDate: string, expireDate: string)
    requires IntMin <= orderId <= IntMax
    ensures ParseInt(Some(PaymentParams(orderId, totalAmount, ipAddr, cfg, createDate, expireDate)["vnp_TxnRef"])) == Some(orderId)
  {
    ParseIntToString(orderId);
  }
}
