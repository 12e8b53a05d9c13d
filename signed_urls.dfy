/** Presigned object URLs (python/choirless_lib/choirless_lib/signed_urls.py):
    the query-string form of AWS Signature Version 4 that the object store
    accepts. The request is put in canonical form, its SHA-256 is signed
    with a key derived from the secret by a chain of HMAC-SHA256 over the
    date, the region, the service and `aws4_request`, and the hex signature is
    appended to the URL as its last parameter. The two hash functions and the
    current time are parameters. */
module SignedUrls {
  import opened Strings

  newtype byte = b: int | 0 <= b < 256

  // ---------------------------------------------------------------------------
  // str.encode('utf-8')

  /** The UTF-8 bytes of one code point: one byte below 0x80, otherwise a
      lead byte that tells the length followed by continuation bytes. */
  function Utf8Char(c: char): (r: seq<byte>)
    ensures 1 <= |r| <= 4
    ensures |r| == 1 <==> c as int < 0x80
    ensures |r| == 1 ==> r[0] as int == c as int
    ensures |r| > 1 ==> r[0] >= 0xC0
    ensures forall i :: 1 <= i < |r| ==> 0x80 <= r[i] < 0xC0
  {
    var cp := c as int;
    if cp < 0x80 then [cp as byte]
    else if cp < 0x800 then [(0xC0 + cp / 64) as byte, (0x80 + cp % 64) as byte]
    else if cp < 0x10000 then
      [(0xE0 + cp / 4096) as byte, (0x80 + cp / 64 % 64) as byte, (0x80 + cp % 64) as byte]
    else
      [(0xF0 + cp / 262144) as byte, (0x80 + cp / 4096 % 64) as byte, (0x80 + cp / 64 % 64) as byte, (0x80 + cp % 64) as byte]
  }

  function Utf8(s: string): seq<byte> {
    if |s| == 0 then [] else Utf8Char(s[0]) + Utf8(s[1..])
  }

  /** Encoding distributes over concatenation. */
  lemma {:induction false} Utf8Concat(a: string, b: string)
    ensures Utf8(a + b) == Utf8(a) + Utf8(b)
  {
    if |a| > 0 {
      assert (a + b)[1..] == a[1..] + b;
      Utf8Concat(a[1..], b);
    } else {
      assert a + b == b;
    }
  }

  // ---------------------------------------------------------------------------
  // hex digits: hexdigest() in lower case, percent escapes in upper case

  function HexDigit(d: nat, upper: bool): (c: char)
    requires d < 16
  {
    if d < 10 then ('0' as int + d) as char
    else ((if upper then 'A' else 'a') as int + d - 10) as char
  }

  predicate IsLowerHex(c: char) {
    '0' <= c <= '9' || 'a' <= c <= 'f'
  }

  predicate IsUpperHex(c: char) {
    '0' <= c <= '9' || 'A' <= c <= 'F'
  }

  function HexValue(c: char): nat
    requires IsLowerHex(c)
  {
    if c <= '9' then c as int - '0' as int else c as int - 'a' as int + 10
  }

  /** `digest.hex()`: two lower-case digits per byte, high half first. */
  function Hex(bytes: seq<byte>): (r: string)
    ensures |r| == 2 * |bytes|
    ensures forall i :: 0 <= i < |r| ==> IsLowerHex(r[i])
  {
    if |bytes| == 0 then ""
    else
      var b := bytes[|bytes| - 1] as int;
      Hex(bytes[..|bytes| - 1]) + [HexDigit(b / 16, false), HexDigit(b % 16, false)]
  }

  /** Reading lower-case hex text back into bytes. */
  function UnHex(s: string): seq<byte>
    requires |s| % 2 == 0 && forall i :: 0 <= i < |s| ==> IsLowerHex(s[i])
  {
    if |s| == 0 then []
    else
      var n := |s|;
      UnHex(s[..n - 2]) + [(HexValue(s[n - 2]) * 16 + HexValue(s[n - 1])) as byte]
  }

  /** The hex text of a digest determines the digest. */
  lemma {:induction false} HexRoundTrip(bytes: seq<byte>)
    ensures UnHex(Hex(bytes)) == bytes
  {
    if |bytes| > 0 {
      var init, b := bytes[..|bytes| - 1], bytes[|bytes| - 1] as int;
      var h := Hex(bytes);
      assert h[..|h| - 2] == Hex(init);
      assert HexValue(h[|h| - 2]) == b / 16 && HexValue(h[|h| - 1]) == b % 16;
      HexRoundTrip(init);
      assert bytes == init + [b as byte];
    }
  }

  // ---------------------------------------------------------------------------
  // requests.utils.quote, i.e. urllib.parse.quote

  /** The characters quote() never escapes: ASCII letters and digits and "_.-~". */
  predicate AlwaysSafe(c: char) {
    'A' <= c <= 'Z' || 'a' <= c <= 'z' || '0' <= c <= '9' || c == '_' || c == '.' || c == '-' || c == '~'
  }

  /** `%XX` for each byte, in upper-case hex. */
  function PercentEncode(bytes: seq<byte>): (r: string)
    ensures |r| == 3 * |bytes|
    ensures forall i :: 0 <= i < |r| ==> r[i] == '%' || IsUpperHex(r[i])
  {
    seq(3 * |bytes|, i requires 0 <= i < 3 * |bytes| =>
      var b := bytes[i / 3] as int;
      if i % 3 == 0 then '%' else if i % 3 == 1 then HexDigit(b / 16, true) else HexDigit(b % 16, true))
  }

  function QuoteChar(c: char, safe: set<char>): string {
    if AlwaysSafe(c) || c in safe then [c] else PercentEncode(Utf8Char(c))
  }

  /** `quote(s, safe=...)`: safe characters are kept, every other character
      is replaced by the percent escapes of its UTF-8 bytes. */
  function Quote(s: string, safe: set<char>): string {
    if |s| == 0 then "" else QuoteChar(s[0], safe) + Quote(s[1..], safe)
  }

  lemma {:induction false} QuoteConcat(a: string, b: string, safe: set<char>)
    ensures Quote(a + b, safe) == Quote(a, safe) + Quote(b, safe)
  {
    if |a| > 0 {
      assert (a + b)[1..] == a[1..] + b;
      QuoteConcat(a[1..], b, safe);
    } else {
      assert a + b == b;
    }
  }

  /** Text made of safe characters only is left as it is. */
  lemma {:induction false} QuoteKeeps(s: string, safe: set<char>)
    requires forall i :: 0 <= i < |s| ==> AlwaysSafe(s[i]) || s[i] in safe
    ensures Quote(s, safe) == s
  {
    if |s| > 0 {
      QuoteKeeps(s[1..], safe);
    }
  }

  /** Quoting adds no character other than '%' and upper-case hex digits. */
  lemma {:induction false} QuoteIntroducesNo(s: string, safe: set<char>, c: char)
    requires c != '%' && !IsUpperHex(c) && c !in s
    ensures c !in Quote(s, safe)
  {
    if |s| > 0 {
      QuoteIntroducesNo(s[1..], safe, c);
      assert c !in QuoteChar(s[0], safe);
    }
  }

  // ---------------------------------------------------------------------------
  // datetime.utcnow() and strftime

  datatype Clock = Clock(year: nat, month: nat, day: nat, hour: nat, minute: nat, second: nat)

  predicate ValidClock(t: Clock) {
    1000 <= t.year <= 9999 && 1 <= t.month <= 12 && 1 <= t.day <= 31
    && t.hour < 24 && t.minute < 60 && t.second < 60
  }

  /** A UTC time as datetime holds it (the years with four digits). */
  type UtcTime = t: Clock | ValidClock(t) witness Clock(1970, 1, 1, 0, 0, 0)

  function Pow10(w: nat): nat {
    if w == 0 then 1 else 10 * Pow10(w - 1)
  }

  /** The last `w` decimal digits of `n`, zero-filled as strftime writes them. */
  function Pad(n: nat, w: nat): (r: string)
    ensures |r| == w && AllDigits(r)
  {
    if w == 0 then "" else Pad(n / 10, w - 1) + [DigitChar(n % 10)]
  }

  /** A field that fits its width reads back as its value. */
  lemma {:induction false} PadValue(n: nat, w: nat)
    requires n < Pow10(w)
    ensures DigitsValue(Pad(n, w)) == n
  {
    if w > 0 {
      assert n / 10 < Pow10(w - 1);
      PadValue(n / 10, w - 1);
      var r := Pad(n, w);
      assert r[..|r| - 1] == Pad(n / 10, w - 1);
    }
  }

  /** `strftime('%Y%m%d')`. */
  function Datestamp(t: UtcTime): string {
    Pad(t.year, 4) + Pad(t.month, 2) + Pad(t.day, 2)
  }

  /** `strftime('%Y%m%dT%H%M%SZ')`. */
  function Timestamp(t: UtcTime): string {
    Datestamp(t) + "T" + Pad(t.hour, 2) + Pad(t.minute, 2) + Pad(t.second, 2) + "Z"
  }

  /** Both stamps have fixed widths, the timestamp starts with the datestamp,
      and each field reads back as the time's own. */
  lemma StampFields(t: UtcTime)
    ensures |Datestamp(t)| == 8 && AllDigits(Datestamp(t))
    ensures DigitsValue(Datestamp(t)[..4]) == t.year
    ensures DigitsValue(Datestamp(t)[4..6]) == t.month && DigitsValue(Datestamp(t)[6..]) == t.day
    ensures |Timestamp(t)| == 16 && Timestamp(t)[..8] == Datestamp(t)
    ensures Timestamp(t)[8] == 'T' && Timestamp(t)[15] == 'Z'
    ensures AllDigits(Timestamp(t)[9..15])
    ensures DigitsValue(Timestamp(t)[9..11]) == t.hour
    ensures DigitsValue(Timestamp(t)[11..13]) == t.minute && DigitsValue(Timestamp(t)[13..15]) == t.second
  {
    DateFields(t);
    TimeFields(t);
  }

  /** `%Y%m%d` reads back as the year, the month and the day. */
  lemma DateFields(t: UtcTime)
    ensures |Datestamp(t)| == 8 && AllDigits(Datestamp(t))
    ensures DigitsValue(Datestamp(t)[..4]) == t.year
    ensures DigitsValue(Datestamp(t)[4..6]) == t.month && DigitsValue(Datestamp(t)[6..]) == t.day
  {
    var d := Datestamp(t);
    assert Pow10(2) == 100 && Pow10(4) == 10000;
    PadValue(t.year, 4);
    PadValue(t.month, 2);
    PadValue(t.day, 2);
    assert d[..4] == Pad(t.year, 4) && d[4..6] == Pad(t.month, 2) && d[6..] == Pad(t.day, 2);
  }

  /** Where the pieces of a timestamp lie in it. */
  lemma StampSlices(d: string, sepT: string, h: string, m: string, c: string, sepZ: string)
    requires |d| == 8 && |sepT| == 1 && |h| == 2 && |m| == 2 && |c| == 2 && |sepZ| == 1
    ensures var s := d + sepT + h + m + c + sepZ;
      && |s| == 16 && s[..8] == d && s[8] == sepT[0] && s[15] == sepZ[0]
      && s[9..15] == h + m + c && s[9..11] == h && s[11..13] == m && s[13..15] == c
  {
    var s := d + sepT + h + m + c + sepZ;
    assert s[..8] == d;
    assert s[9..15] == h + m + c;
  }

  /** After the date, `T%H%M%SZ` reads back as the hour, the minute and the
      second. */
  lemma TimeFields(t: UtcTime)
    ensures |Timestamp(t)| == 16 && Timestamp(t)[..8] == Datestamp(t)
    ensures Timestamp(t)[8] == 'T' && Timestamp(t)[15] == 'Z'
    ensures AllDigits(Timestamp(t)[9..15])
    ensures DigitsValue(Timestamp(t)[9..11]) == t.hour
    ensures DigitsValue(Timestamp(t)[11..13]) == t.minute && DigitsValue(Timestamp(t)[13..15]) == t.second
  {
    assert Pow10(2) == 100;
    PadValue(t.hour, 2);
    PadValue(t.minute, 2);
    PadValue(t.second, 2);
    DateFields(t);
    StampSlices(Datestamp(t), "T", Pad(t.hour, 2), Pad(t.minute, 2), Pad(t.second, 2), "Z");
  }

  // ---------------------------------------------------------------------------
  // The signature

  /** HMAC-SHA256 as `hmac.new(key, msg, hashlib.sha256).digest()` computes it. */
  type Mac = (seq<byte>, seq<byte>) -> seq<byte>

  /** The two primitives the signature is built from. */
  datatype Crypto = Crypto(mac: Mac, sha256: seq<byte> -> seq<byte>)

  /** `hash(key, msg)`: the MAC of the message's UTF-8 bytes. */
  function Hash(mac: Mac, key: seq<byte>, msg: string): seq<byte> {
    mac(key, Utf8(msg))
  }

  /** `createSignatureKey`: the secret prefixed with "AWS4" keys the MAC of the
      date, that MAC keys the region's, then the service's, then
      "aws4_request"'s. */
  function SignatureKey(mac: Mac, key: string, datestamp: string, region: string, service: string): seq<byte> {
    var keyDate := Hash(mac, Utf8("AWS4" + key), datestamp);
    var keyRegion := Hash(mac, keyDate, region);
    var keyService := Hash(mac, keyRegion, service);
    Hash(mac, keyService, "aws4_request")
  }

  /** The MAC chain: each piece's MAC is keyed by the MAC before it. */
  function ChainMac(mac: Mac, key: seq<byte>, pieces: seq<string>): seq<byte>
    decreases |pieces|
  {
    if |pieces| == 0 then key else ChainMac(mac, Hash(mac, key, pieces[0]), pieces[1..])
  }

  /** The credential scope splits at '/' into the date, the region, the
      service and "aws4_request" when the first two hold no '/'. */
  lemma ScopePieces(datestamp: string, region: string)
    requires '/' !in datestamp && '/' !in region
    ensures Split(CredentialScope(datestamp, region), '/') == [datestamp, region, "s3", "aws4_request"]
  {
    var pieces := [datestamp, region, "s3", "aws4_request"];
    assert Join(pieces[3..], '/') == "aws4_request";
    assert Join(pieces[2..], '/') == "s3" + "/" + "aws4_request";
    assert Join(pieces[1..], '/') == region + "/" + "s3" + "/" + "aws4_request";
    assert CredentialScope(datestamp, region) == Join(pieces, '/');
    SplitJoin(pieces, '/');
  }

  /** The signing key is the MAC chain over the pieces of the credential
      scope, in the order the scope lists them, started from the secret
      prefixed with "AWS4". */
  lemma SignatureKeyChainsScope(mac: Mac, secretKey: string, datestamp: string, region: string)
    requires '/' !in datestamp && '/' !in region
    ensures SignatureKey(mac, secretKey, datestamp, region, "s3")
      == ChainMac(mac, Utf8("AWS4" + secretKey), Split(CredentialScope(datestamp, region), '/'))
  {
    ScopePieces(datestamp, region);
    var pieces := [datestamp, region, "s3", "aws4_request"];
    var k0 := Utf8("AWS4" + secretKey);
    var k1 := Hash(mac, k0, datestamp);
    var k2 := Hash(mac, k1, region);
    var k3 := Hash(mac, k2, "s3");
    assert ChainMac(mac, k0, pieces) == ChainMac(mac, k1, pieces[1..]);
    assert ChainMac(mac, k1, pieces[1..]) == ChainMac(mac, k2, pieces[2..]);
    assert ChainMac(mac, k2, pieces[2..]) == ChainMac(mac, k3, pieces[3..]);
    assert ChainMac(mac, k3, pieces[3..]) == ChainMac(mac, Hash(mac, k3, "aws4_request"), []);
  }

  /** `60 * 60`: one hour. */
  const Expiration: nat := 60 * 60

  /** The characters the query string keeps unescaped besides the always-safe ones. */
  const QuerySafe: set<char> := {'&', '='}

  /** `host` with a single leading "https://" removed. */
  function StripScheme(host: string): string {
    if StartsWith(host, "https://") then host[8..] else host
  }

  /** The https endpoint of the host, with one scheme prefix removed. */
  function Endpoint(host: string): (r: string)
    ensures StartsWith(r, "https://")
    ensures forall c :: c in r ==> c in "https://" || c in host
  {
    "https://" + StripScheme(host)
  }

  function CredentialScope(datestamp: string, region: string): string {
    datestamp + "/" + region + "/" + "s3" + "/" + "aws4_request"
  }

  /** `X-Amz-Credential`'s value: the access key, then the date, the region,
      the service and "aws4_request", separated by '/'. */
  function Credential(accessKey: string, datestamp: string, region: string): string {
    accessKey + "/" + datestamp + "/" + region + "/s3/aws4_request"
  }

  /** The fixed text of the query parameters. */
  const AlgorithmParam := "X-Amz-Algorithm=AWS4-HMAC-SHA256"
  const CredentialName := "X-Amz-Credential="
  const DateName := "X-Amz-Date="
  const ExpiresName := "X-Amz-Expires="
  const HeadersParam := "X-Amz-SignedHeaders=host"

  /** The query parameters before encoding, in the order they are written. */
  function QueryParams(accessKey: string, datestamp: string, region: string, timestamp: string): seq<string> {
    [AlgorithmParam,
     CredentialName + Credential(accessKey, datestamp, region),
     DateName + timestamp,
     ExpiresName + NatToStr(Expiration),
     HeadersParam]
  }

  /** The standardized query string: the parameters joined by '&', escaped
      with '&' and '=' kept. */
  function EncodedQuery(accessKey: string, region: string, now: UtcTime): string {
    Quote(Join(QueryParams(accessKey, Datestamp(now), region, Timestamp(now)), '&'), QuerySafe)
  }

  /** The canonical request: method, resource, query, the host header, an
      empty line, the signed header names and the payload marker, one per
      line. */
  function CanonicalRequest(httpMethod: string, resource: string, query: string, host: string): string {
    Join([httpMethod, resource, query, "host:" + host, "", "host", "UNSIGNED-PAYLOAD"], '\n')
  }

  function StringToSign(timestamp: string, scope: string, requestHash: string): string {
    Join(["AWS4-HMAC-SHA256", timestamp, scope, requestHash], '\n')
  }

  /** `'&X-Amz-Signature=' + signature`'s parameter. */
  const SignatureName := "X-Amz-Signature="

  function SignatureParam(signature: string): string {
    SignatureName + signature
  }

  /** `endpoint/bucket/key?query&X-Amz-Signature=signature`. */
  function RequestUrl(endpoint: string, bucket: string, objectKey: string, query: string, signature: string): string {
    endpoint + "/" + bucket + "/" + objectKey + "?" + query + "&" + SignatureParam(signature)
  }

  /** The URL with the two texts it signs and the signature. */
  datatype Signing = Signing(url: string, canonicalRequest: string, stringToSign: string, signature: string)

  /** `hmac.new(signature_key, sts, sha256).hexdigest()`: hex text that reads
      back as the MAC of the string to sign under the signing key. */
  function Signature(mac: Mac, signingKey: seq<byte>, sts: string): (sig: string)
    ensures |sig| % 2 == 0 && forall i :: 0 <= i < |sig| ==> IsLowerHex(sig[i])
    ensures UnHex(sig) == mac(signingKey, Utf8(sts))
  {
    HexRoundTrip(mac(signingKey, Utf8(sts)));
    Hex(mac(signingKey, Utf8(sts)))
  }

  /** `create_signed_url`, with the current time and the hash functions as
      parameters. The URL-encoded resource the source also computes is never
      used; the canonical request carries the resource as it is. */
  function SignedUrl(host: string, httpMethod: string, accessKey: string, secretKey: string, region: string,
                     bucket: string, objectKey: string, now: UtcTime, crypto: Crypto): Signing
  {
    var h := StripScheme(host);
    var query := EncodedQuery(accessKey, region, now);
    var request := CanonicalRequest(httpMethod, "/" + bucket + "/" + objectKey, query, h);
    var sts := StringToSign(Timestamp(now), CredentialScope(Datestamp(now), region), Hex(crypto.sha256(Utf8(request))));
    var signature := Signature(crypto.mac, SignatureKey(crypto.mac, secretKey, Datestamp(now), region, "s3"), sts);
    Signing(RequestUrl(Endpoint(host), bucket, objectKey, query, signature), request, sts, signature)
  }

  // ---------------------------------------------------------------------------
  // What the assembly guarantees

  /** The endpoint is always https, and a host given with or without the
      scheme yields the same endpoint; only one scheme prefix is removed. */
  lemma EndpointScheme(host: string)
    ensures StartsWith(Endpoint(host), "https://")
    ensures !StartsWith(host, "https://") ==> Endpoint("https://" + host) == Endpoint(host) == "https://" + host
    ensures StartsWith(host, "https://") ==> Endpoint(host) == "https://" + host[8..]
  {
    assert ("https://" + host)[..8] == "https://";
  }

  lemma ExpiresText()
    ensures NatToStr(Expiration) == "3600"
  {
    assert NatToStr(3) == "3";
    assert NatToStr(36) == NatToStr(3) + "6";
    assert NatToStr(360) == NatToStr(36) + "0";
    assert NatToStr(3600) == NatToStr(360) + "0";
  }

  /** Every character is one quote() keeps. */
  predicate Safe(s: string) {
    forall i :: 0 <= i < |s| ==> AlwaysSafe(s[i])
  }

  lemma DigitsSafe(s: string)
    requires AllDigits(s)
    ensures Safe(s)
  {
  }

  lemma SafeConcat(a: string, b: string)
    requires Safe(a) && Safe(b)
    ensures Safe(a + b)
  {
  }

  /** Both stamps are made of digits and the letters 'T' and 'Z' only. */
  lemma StampsSafe(t: UtcTime)
    ensures Safe(Datestamp(t)) && Safe(Timestamp(t))
  {
    DigitsSafe(Pad(t.year, 4));
    DigitsSafe(Pad(t.month, 2));
    DigitsSafe(Pad(t.day, 2));
    DigitsSafe(Pad(t.hour, 2));
    DigitsSafe(Pad(t.minute, 2));
    DigitsSafe(Pad(t.second, 2));
    SafeConcat(Pad(t.year, 4), Pad(t.month, 2));
    SafeConcat(Pad(t.year, 4) + Pad(t.month, 2), Pad(t.day, 2));
    SafeConcat(Datestamp(t), "T");
    SafeConcat(Datestamp(t) + "T", Pad(t.hour, 2));
    SafeConcat(Datestamp(t) + "T" + Pad(t.hour, 2), Pad(t.minute, 2));
    SafeConcat(Datestamp(t) + "T" + Pad(t.hour, 2) + Pad(t.minute, 2), Pad(t.second, 2));
    SafeConcat(Datestamp(t) + "T" + Pad(t.hour, 2) + Pad(t.minute, 2) + Pad(t.second, 2), "Z");
  }

  /** The credential is the access key followed by the credential scope. */
  lemma CredentialHasScope(accessKey: string, datestamp: string, region: string)
    ensures Credential(accessKey, datestamp, region) == accessKey + "/" + CredentialScope(datestamp, region)
  {
    assert "/s3/aws4_request" == "/" + "s3" + "/" + "aws4_request";
  }

  /** Each piece quoted on its own. */
  function QuoteAll(parts: seq<string>, safe: set<char>): (r: seq<string>)
    ensures |r| == |parts|
    ensures forall i :: 0 <= i < |parts| ==> r[i] == Quote(parts[i], safe)
  {
    if |parts| == 0 then [] else [Quote(parts[0], safe)] + QuoteAll(parts[1..], safe)
  }

  /** Quoting with the separator kept quotes each piece of a join. */
  lemma {:induction false} QuoteJoin(parts: seq<string>, sep: char, safe: set<char>)
    requires sep in safe
    ensures Quote(Join(parts, sep), safe) == Join(QuoteAll(parts, safe), sep)
  {
    if |parts| > 1 {
      var q := QuoteAll(parts, safe);
      assert q[1..] == QuoteAll(parts[1..], safe);
      QuoteJoin(parts[1..], sep, safe);
      QuoteConcat(parts[0] + [sep], Join(parts[1..], sep), safe);
      QuoteConcat(parts[0], [sep], safe);
      assert Quote([sep], safe) == [sep];
    }
  }

  /** Quoting a join of pieces without the separator, with the separator
      kept, splits back into the quoted pieces. */
  lemma SplitQuotedJoin(parts: seq<string>, sep: char, safe: set<char>)
    requires |parts| >= 1 && sep in safe && sep != '%' && !IsUpperHex(sep)
    requires forall i :: 0 <= i < |parts| ==> sep !in parts[i]
    ensures Split(Quote(Join(parts, sep), safe), sep) == QuoteAll(parts, safe)
  {
    QuoteJoin(parts, sep, safe);
    var qs := QuoteAll(parts, safe);
    forall i | 0 <= i < |qs| ensures sep !in qs[i] {
      QuoteIntroducesNo(parts[i], safe, sep);
    }
    SplitJoin(qs, sep);
  }

  /** The fixed parameters are left as they are by quote(). */
  lemma AlgorithmKept()
    ensures Quote(AlgorithmParam, QuerySafe) == AlgorithmParam
  {
    QuoteKeeps(AlgorithmParam, QuerySafe);
  }

  lemma ExpiresNameKept()
    ensures Quote(ExpiresName, QuerySafe) == ExpiresName
  {
    QuoteKeeps(ExpiresName, QuerySafe);
  }

  lemma DigitsKept(s: string)
    requires AllDigits(s)
    ensures Quote(s, QuerySafe) == s
  {
    QuoteKeeps(s, QuerySafe);
  }

  lemma ExpiresKept(e: nat)
    ensures Quote(ExpiresName + NatToStr(e), QuerySafe) == ExpiresName + NatToStr(e)
  {
    NatToStrValue(e);
    DigitsKept(NatToStr(e));
    ExpiresNameKept();
    QuoteConcat(ExpiresName, NatToStr(e), QuerySafe);
  }

  lemma SignedHeadersKept()
    ensures Quote(HeadersParam, QuerySafe) == HeadersParam
  {
    QuoteKeeps(HeadersParam, QuerySafe);
  }

  lemma DateKept(ts: string)
    requires Safe(ts)
    ensures Quote(DateName + ts, QuerySafe) == DateName + ts
  {
    DateNameKept();
    QuoteKeeps(ts, QuerySafe);
    QuoteConcat(DateName, ts, QuerySafe);
  }

  lemma CredentialNameKept()
    ensures Quote(CredentialName, QuerySafe) == CredentialName
  {
    QuoteKeeps(CredentialName, QuerySafe);
  }

  lemma DateNameKept()
    ensures Quote(DateName, QuerySafe) == DateName
  {
    QuoteKeeps(DateName, QuerySafe);
  }

  lemma CredentialQuoted(credential: string)
    ensures Quote(CredentialName + credential, QuerySafe) == CredentialName + Quote(credential, QuerySafe)
  {
    CredentialNameKept();
    QuoteConcat(CredentialName, credential, QuerySafe);
  }

  /** A character quote() keeps that is neither '=' nor a letter of the
      fixed names is in a parameter only through the key, the region or the
      stamps. */
  lemma QueryParamsExclude(accessKey: string, datestamp: string, region: string, timestamp: string, c: char)
    requires c == '&' || c == '\n'
    requires c !in accessKey && c !in datestamp && c !in region && c !in timestamp
    ensures forall i :: 0 <= i < 5 ==> c !in QueryParams(accessKey, datestamp, region, timestamp)[i]
  {
    NatToStrValue(Expiration);
    NamesPlain();
    var ps := QueryParams(accessKey, datestamp, region, timestamp);
    assert ps[1] == CredentialName + Credential(accessKey, datestamp, region);
    assert ps[2] == DateName + timestamp;
    assert ps[3] == ExpiresName + NatToStr(Expiration);
  }

  /** Neither '&' nor a line break occurs in `s`. */
  predicate Plain(s: string) {
    forall i :: 0 <= i < |s| ==> s[i] != '&' && s[i] != '\n'
  }

  /** The fixed text of the parameters is plain. */
  lemma NamesPlain()
    ensures Plain(AlgorithmParam) && Plain(HeadersParam)
    ensures Plain(CredentialName) && Plain(DateName) && Plain(ExpiresName)
    ensures Plain("/s3/aws4_request")
  {
  }

  /** No parameter holds '&' when neither the access key nor the region does. */
  lemma QueryParamsSeparable(accessKey: string, region: string, now: UtcTime)
    requires '&' !in accessKey && '&' !in region
    ensures forall i :: 0 <= i < 5 ==> '&' !in QueryParams(accessKey, Datestamp(now), region, Timestamp(now))[i]
  {
    StampsSafe(now);
    QueryParamsExclude(accessKey, Datestamp(now), region, Timestamp(now), '&');
  }

  /** The encoded query splits at '&' into the parameters, each quoted on
      its own. */
  lemma QueryFields(accessKey: string, region: string, now: UtcTime)
    requires '&' !in accessKey && '&' !in region
    ensures Split(EncodedQuery(accessKey, region, now), '&') == QuoteAll(QueryParams(accessKey, Datestamp(now), region, Timestamp(now)), QuerySafe)
  {
    QueryParamsSeparable(accessKey, region, now);
    SplitQuotedJoin(QueryParams(accessKey, Datestamp(now), region, Timestamp(now)), '&', QuerySafe);
  }

  /** The expiry reaches the URL unescaped, as 3600 seconds. */
  lemma QueryExpires(accessKey: string, region: string, now: UtcTime)
    requires '&' !in accessKey && '&' !in region
    ensures var q := Split(EncodedQuery(accessKey, region, now), '&');
      |q| == 5 && q[3] == ExpiresName + NatToStr(Expiration) && NatToStr(Expiration) == "3600"
  {
    QueryFields(accessKey, region, now);
    ExpiresKept(Expiration);
    ExpiresText();
  }

  /** The timestamp reaches the URL unescaped. */
  lemma QueryDate(accessKey: string, region: string, now: UtcTime)
    requires '&' !in accessKey && '&' !in region
    ensures var q := Split(EncodedQuery(accessKey, region, now), '&');
      |q| == 5 && q[2] == DateName + Timestamp(now)
  {
    QueryFields(accessKey, region, now);
    StampsSafe(now);
    DateKept(Timestamp(now));
  }

  /** The algorithm and the signed header names reach the URL unescaped as
      the first and the last query parameter. */
  lemma QueryAlgorithmAndHeaders(accessKey: string, region: string, now: UtcTime)
    requires '&' !in accessKey && '&' !in region
    ensures var q := Split(EncodedQuery(accessKey, region, now), '&');
      |q| == 5 && q[0] == AlgorithmParam && q[4] == HeadersParam
  {
    var ps := QueryParams(accessKey, Datestamp(now), region, Timestamp(now));
    QueryFields(accessKey, region, now);
    QuotedFixed(QuoteAll(ps, QuerySafe), ps);
  }

  /** Quoted parameters whose first and last are the fixed ones keep them. */
  lemma QuotedFixed(q: seq<string>, ps: seq<string>)
    requires |ps| == 5 && ps[0] == AlgorithmParam && ps[4] == HeadersParam
    requires |q| == 5 && q[0] == Quote(ps[0], QuerySafe) && q[4] == Quote(ps[4], QuerySafe)
    ensures q[0] == AlgorithmParam && q[4] == HeadersParam
  {
    AlgorithmKept();
    SignedHeadersKept();
  }

  /** Quoting the query leaves no line break in it. */
  lemma QueryOneLine(accessKey: string, region: string, now: UtcTime)
    requires '\n' !in accessKey && '\n' !in region
    ensures '\n' !in EncodedQuery(accessKey, region, now)
  {
    var ps := QueryParams(accessKey, Datestamp(now), region, Timestamp(now));
    StampsSafe(now);
    QueryParamsExclude(accessKey, Datestamp(now), region, Timestamp(now), '\n');
    JoinExcludes(ps, '&', '\n');
    QuoteIntroducesNo(Join(ps, '&'), QuerySafe, '\n');
  }

  /** The canonical request splits back into its seven lines when none of
      its parts holds a line break. */
  lemma CanonicalRequestLines(httpMethod: string, resource: string, query: string, host: string)
    requires '\n' !in httpMethod && '\n' !in resource && '\n' !in query && '\n' !in host
    ensures Split(CanonicalRequest(httpMethod, resource, query, host), '\n')
      == [httpMethod, resource, query, "host:" + host, "", "host", "UNSIGNED-PAYLOAD"]
  {
    SplitJoin([httpMethod, resource, query, "host:" + host, "", "host", "UNSIGNED-PAYLOAD"], '\n');
  }

  /** The string to sign splits back into its four lines when the credential
      scope holds no line break. */
  lemma StringToSignLines(now: UtcTime, region: string, requestHash: seq<byte>)
    requires '\n' !in region
    ensures Split(StringToSign(Timestamp(now), CredentialScope(Datestamp(now), region), Hex(requestHash)), '\n')
      == ["AWS4-HMAC-SHA256", Timestamp(now), CredentialScope(Datestamp(now), region), Hex(requestHash)]
  {
    StampsSafe(now);
    assert '\n' !in CredentialScope(Datestamp(now), region);
    SplitJoin(["AWS4-HMAC-SHA256", Timestamp(now), CredentialScope(Datestamp(now), region), Hex(requestHash)], '\n');
  }

  /** The credential scope of the string to sign is the one the query's
      credential parameter carries after the access key. */
  lemma ScopeShared(accessKey: string, region: string, now: UtcTime)
    requires '&' !in accessKey && '&' !in region
    ensures var q := Split(EncodedQuery(accessKey, region, now), '&');
      |q| == 5 && q[1] == CredentialName + Quote(accessKey + "/" + CredentialScope(Datestamp(now), region), QuerySafe)
  {
    QueryFields(accessKey, region, now);
    CredentialQuoted(Credential(accessKey, Datestamp(now), region));
    CredentialHasScope(accessKey, Datestamp(now), region);
  }

  lemma SignatureParamSeparable(signature: string)
    requires forall i :: 0 <= i < |signature| ==> IsLowerHex(signature[i])
    ensures '&' !in SignatureParam(signature)
  {
  }

  /** The signature is appended last, so it is the URL's final parameter
      whatever the bucket, the key or the query hold. */
  lemma SignatureLast(endpoint: string, bucket: string, objectKey: string, query: string, signature: string)
    requires forall i :: 0 <= i < |signature| ==> IsLowerHex(signature[i])
    ensures var pieces := Split(RequestUrl(endpoint, bucket, objectKey, query, signature), '&');
      pieces[|pieces| - 1] == SignatureParam(signature)
  {
    var a, b := endpoint + "/" + bucket + "/" + objectKey + "?" + query, SignatureParam(signature);
    assert RequestUrl(endpoint, bucket, objectKey, query, signature) == a + ['&'] + b;
    SignatureParamSeparable(signature);
    SplitAppend(a, '&', b);
    SplitBeforeFirst(b, '&', "");
  }

  /** The signed URL is the request URL of the encoded query, and its
      signature is the hex MAC of the string to sign under the derived key,
      so by `SignatureLast` the signature is its final parameter. */
  lemma SignedUrlAssembly(host: string, httpMethod: string, accessKey: string, secretKey: string, region: string,
                          bucket: string, objectKey: string, now: UtcTime, crypto: Crypto)
    ensures var s := SignedUrl(host, httpMethod, accessKey, secretKey, region, bucket, objectKey, now, crypto);
      && s.url == RequestUrl(Endpoint(host), bucket, objectKey, EncodedQuery(accessKey, region, now), s.signature)
      && s.signature == Signature(crypto.mac, SignatureKey(crypto.mac, secretKey, Datestamp(now), region, "s3"), s.stringToSign)
      && forall i :: 0 <= i < |s.signature| ==> IsLowerHex(s.signature[i])
  {
  }

  /** Split at '&', a request URL whose endpoint, bucket and key hold no '&'
      is the address with the query's first piece, the query's other pieces,
      and the signature parameter last. */
  lemma RequestUrlPieces(endpoint: string, bucket: string, objectKey: string, query: string, signature: string)
    requires '&' !in endpoint && '&' !in bucket && '&' !in objectKey
    requires forall i :: 0 <= i < |signature| ==> IsLowerHex(signature[i])
    ensures var q := Split(query, '&');
      Split(RequestUrl(endpoint, bucket, objectKey, query, signature), '&')
        == [endpoint + "/" + bucket + "/" + objectKey + "?" + q[0]] + q[1..] + [SignatureParam(signature)]
  {
    var address := endpoint + "/" + bucket + "/" + objectKey + "?";
    var b := SignatureParam(signature);
    assert RequestUrl(endpoint, bucket, objectKey, query, signature) == (address + query) + ['&'] + b;
    assert '&' !in address;
    SignatureParamSeparable(signature);
    SplitAppend(address + query, '&', b);
    SplitBeforeFirst(b, '&', "");
    SplitPrefixed(address, query, '&');
  }

  /** The request URL of the encoded query, split at '&': the address with
      the algorithm parameter, the other query parameters each quoted on its
      own, and the signature parameter. */
  lemma EncodedRequestPieces(host: string, bucket: string, objectKey: string, accessKey: string, region: string,
                             now: UtcTime, signature: string)
    requires '&' !in host && '&' !in bucket && '&' !in objectKey && '&' !in accessKey && '&' !in region
    requires forall i :: 0 <= i < |signature| ==> IsLowerHex(signature[i])
    ensures var q := QuoteAll(QueryParams(accessKey, Datestamp(now), region, Timestamp(now)), QuerySafe);
      Split(RequestUrl(Endpoint(host), bucket, objectKey, EncodedQuery(accessKey, region, now), signature), '&')
        == [Endpoint(host) + "/" + bucket + "/" + objectKey + "?" + AlgorithmParam] + q[1..] + [SignatureParam(signature)]
  {
    assert '&' !in StripScheme(host);
    RequestUrlPieces(Endpoint(host), bucket, objectKey, EncodedQuery(accessKey, region, now), signature);
    QueryFields(accessKey, region, now);
    QueryAlgorithmAndHeaders(accessKey, region, now);
  }

  /** The signed URL's '&' pieces: the address of the object followed by the
      algorithm parameter, then the credential, the date, the expiry and the
      signed headers each quoted on its own, and the signature last. */
  lemma SignedUrlQueryPieces(host: string, httpMethod: string, accessKey: string, secretKey: string, region: string,
                             bucket: string, objectKey: string, now: UtcTime, crypto: Crypto)
    requires '&' !in host && '&' !in bucket && '&' !in objectKey && '&' !in accessKey && '&' !in region
    ensures var s := SignedUrl(host, httpMethod, accessKey, secretKey, region, bucket, objectKey, now, crypto);
      var q := QuoteAll(QueryParams(accessKey, Datestamp(now), region, Timestamp(now)), QuerySafe);
      Split(s.url, '&')
        == [Endpoint(host) + "/" + bucket + "/" + objectKey + "?" + AlgorithmParam] + q[1..] + [SignatureParam(s.signature)]
  {
    var s := SignedUrl(host, httpMethod, accessKey, secretKey, region, bucket, objectKey, now, crypto);
    SignedUrlAssembly(host, httpMethod, accessKey, secretKey, region, bucket, objectKey, now, crypto);
    EncodedRequestPieces(host, bucket, objectKey, accessKey, region, now, s.signature);
  }

  /** The signed request's canonical form has its seven lines, the resource
      being `/bucket/key` as given. */
  lemma SignedRequestLines(host: string, httpMethod: string, accessKey: string, secretKey: string, region: string,
                           bucket: string, objectKey: string, now: UtcTime, crypto: Crypto)
    requires '\n' !in host && '\n' !in httpMethod && '\n' !in bucket && '\n' !in objectKey
    requires '\n' !in accessKey && '\n' !in region
    ensures Split(SignedUrl(host, httpMethod, accessKey, secretKey, region, bucket, objectKey, now, crypto).canonicalRequest, '\n')
      == [httpMethod, "/" + bucket + "/" + objectKey, EncodedQuery(accessKey, region, now),
          "host:" + StripScheme(host), "", "host", "UNSIGNED-PAYLOAD"]
  {
    QueryOneLine(accessKey, region, now);
    assert '\n' !in StripScheme(host);
    CanonicalRequestLines(httpMethod, "/" + bucket + "/" + objectKey, EncodedQuery(accessKey, region, now), StripScheme(host));
  }

  /** The signed string has its four lines, the third being the scope the
      query's credential carries. */
  lemma SignedStringLines(host: string, httpMethod: string, accessKey: string, secretKey: string, region: string,
                          bucket: string, objectKey: string, now: UtcTime, crypto: Crypto)
    requires '\n' !in region
    ensures var s := SignedUrl(host, httpMethod, accessKey, secretKey, region, bucket, objectKey, now, crypto);
      Split(s.stringToSign, '\n')
        == ["AWS4-HMAC-SHA256", Timestamp(now), CredentialScope(Datestamp(now), region), Hex(crypto.sha256(Utf8(s.canonicalRequest)))]
  {
    var s := SignedUrl(host, httpMethod, accessKey, secretKey, region, bucket, objectKey, now, crypto);
    StringToSignLines(now, region, crypto.sha256(Utf8(s.canonicalRequest)));
  }
}
