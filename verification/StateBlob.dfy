/** The signed state blob that travels through the browser, and the URL that carries it. */
module StateBlob {
  import opened Basics
  import opened Text
  import Decimal
  import Base64

  datatype StatePayload = StatePayload(sid: string, iat: int, exp: int)

  /** An abstract MAC; verification recomputes it. */
  datatype Signer = Signer(sign: string -> string)

  predicate Verify(signer: Signer, data: string, mac: string) {
    signer.sign(data) == mac
  }

  /** HMAC-SHA256 in base64url: 43 characters of the alphabet. */
  ghost predicate MacShape(signer: Signer) {
    forall d :: |signer.sign(d)| == 43 && Base64.AllInAlphabet(signer.sign(d))
  }

  predicate ValidPayload(p: StatePayload) {
    && Base64.AllInAlphabet(p.sid)
    && -Decimal.INT64_LIMIT <= p.iat < Decimal.INT64_LIMIT
    && -Decimal.INT64_LIMIT <= p.exp < Decimal.INT64_LIMIT
  }

  // ----- JSON of the payload -----

  const OPEN := "{\"sid\":\""
  const MIDDLE := "\",\"iat\":"
  const LAST := ",\"exp\":"

  function Marshal(p: StatePayload): string {
    OPEN + p.sid + MIDDLE + Decimal.PrintInt(p.iat) + LAST + Decimal.PrintInt(p.exp) + "}"
  }

  /** The JSON text of a payload, as it travels. */
  lemma MarshalText(p: StatePayload)
    ensures Marshal(p) ==
              "{\"sid\":\"" + p.sid + "\",\"iat\":" + Decimal.PrintInt(p.iat) +
              ",\"exp\":" + Decimal.PrintInt(p.exp) + "}"
  {
  }

  /** The text before the first `c`, and the rest after the marker `m` that must stand there. */
  function Until(s: string, c: char, m: string): Option<(string, string)> {
    var i := Index(s, c);
    if HasPrefix(s[i..], m) then Some((s[..i], s[i + |m|..])) else None
  }

  function Unmarshal(s: string): Option<StatePayload> {
    if !HasPrefix(s, OPEN) then None
    else match Until(s[|OPEN|..], '\"', MIDDLE)
      case None => None
      case Some((sid, r)) =>
        match Until(r, ',', LAST)
        case None => None
        case Some((iat, q)) =>
          match Until(q, '}', "}")
          case None => None
          case Some((exp, end)) =>
            var i, e := Decimal.ParseInt(iat), Decimal.ParseInt(exp);
            if end == "" && i.Some? && e.Some? then Some(StatePayload(sid, i.value, e.value)) else None
  }

  lemma UntilMarker(a: string, c: char, m: string, b: string)
    requires c !in a && m != "" && m[0] == c
    ensures Until(a + m + b, c, m) == Some((a, b))
  {
    var s := a + m + b;
    assert s[..|a|] == a && s[|a|] == c;
    IndexUnique(s, c, |a|);
    assert s[|a|..][..|m|] == m;
    assert s[|a| + |m|..] == b;
  }

  lemma NumberLacks(n: int, c: char)
    requires !Decimal.IsDigit(c) && c != '-'
    ensures c !in Decimal.PrintInt(n)
  {
    if n < 0 {
      assert Decimal.AllDigits(Decimal.Print(-n));
    } else {
      assert Decimal.AllDigits(Decimal.Print(n));
    }
  }

  lemma UnmarshalMarshal(p: StatePayload)
    requires ValidPayload(p)
    ensures Unmarshal(Marshal(p)) == Some(p)
  {
    hide Decimal.PrintInt, Decimal.ParseInt, Until;
    var i, e := Decimal.PrintInt(p.iat), Decimal.PrintInt(p.exp);
    var q := e + "}";
    var r := i + LAST + q;
    var t := p.sid + MIDDLE + r;
    assert Marshal(p) == OPEN + t;
    assert (OPEN + t)[..|OPEN|] == OPEN && (OPEN + t)[|OPEN|..] == t;
    assert '\"' !in p.sid;
    UntilMarker(p.sid, '\"', MIDDLE, r);
    NumberLacks(p.iat, ',');
    UntilMarker(i, ',', LAST, q);
    NumberLacks(p.exp, '}');
    UntilMarker(e, '}', "}", "");
    assert e + "}" + "" == q;
    Decimal.ParseIntPrint(p.iat);
    Decimal.ParseIntPrint(p.exp);
  }

  // ----- bytes of ASCII text -----

  predicate Ascii(s: string) {
    forall i :: 0 <= i < |s| ==> s[i] as int < 128
  }

  function Bytes(s: string): seq<Base64.byte>
    requires Ascii(s)
  {
    seq(|s|, i requires 0 <= i < |s| => s[i] as int as Base64.byte)
  }

  function FromBytes(b: seq<Base64.byte>): string {
    seq(|b|, i requires 0 <= i < |b| => b[i] as int as char)
  }

  lemma FromBytesBytes(s: string)
    requires Ascii(s)
    ensures FromBytes(Bytes(s)) == s
  {
  }

  lemma MarshalAscii(p: StatePayload)
    requires ValidPayload(p)
    ensures Ascii(Marshal(p))
  {
    var iat, exp := Decimal.PrintInt(p.iat), Decimal.PrintInt(p.exp);
    var a := OPEN + p.sid;
    var b := a + MIDDLE;
    var c := b + iat;
    var d := c + LAST;
    var e := d + exp;
    assert Marshal(p) == e + "}";
    LiteralsAscii();
    SidAscii(p.sid);
    PrintAscii(p.iat);
    PrintAscii(p.exp);
    hide Ascii, Decimal.PrintInt, Marshal, Base64.AllInAlphabet;
    AsciiConcat(OPEN, p.sid);
    AsciiConcat(a, MIDDLE);
    AsciiConcat(b, iat);
    AsciiConcat(c, LAST);
    AsciiConcat(d, exp);
    AsciiConcat(e, "}");
  }

  lemma LiteralsAscii()
    ensures Ascii(OPEN) && Ascii(MIDDLE) && Ascii(LAST) && Ascii("}")
  {
  }

  lemma SidAscii(sid: string)
    requires Base64.AllInAlphabet(sid)
    ensures Ascii(sid)
  {
  }

  lemma AsciiConcat(a: string, b: string)
    requires Ascii(a) && Ascii(b)
    ensures Ascii(a + b)
  {
  }

  lemma PrintAscii(n: int)
    ensures Ascii(Decimal.PrintInt(n))
  {
    if n < 0 {
      assert Decimal.AllDigits(Decimal.Print(-n));
    } else {
      assert Decimal.AllDigits(Decimal.Print(n));
    }
  }

  // ----- EncodeState and DecodeState -----

  function EncodeState(p: StatePayload, signer: Signer): string
    requires ValidPayload(p)
  {
    MarshalAscii(p);
    var encoded := Base64.Encode(Bytes(Marshal(p)));
    encoded + "." + signer.sign(encoded)
  }

  datatype StateError = InvalidFormat | InvalidSignature | InvalidEncoding | InvalidJSON | Expired

  function DecodeState(state: string, signer: Signer, now: int): Result<StatePayload, StateError> {
    var i := Index(state, '.');
    if i == |state| then Err(InvalidFormat)
    else if !Verify(signer, state[..i], state[i + 1..]) then Err(InvalidSignature)
    else match Base64.Decode(state[..i])
      case None => Err(InvalidEncoding)
      case Some(data) =>
        match Unmarshal(FromBytes(data))
        case None => Err(InvalidJSON)
        case Some(p) => if now > p.exp then Err(Expired) else Ok(p)
  }

  /** A blob decodes to its own payload up to and including its expiry second, and to nothing after it. */
  lemma DecodeEncodeState(p: StatePayload, signer: Signer, now: int)
    requires ValidPayload(p)
    ensures DecodeState(EncodeState(p, signer), signer, now) == if now > p.exp then Err(Expired) else Ok(p)
  {
    hide Unmarshal, Marshal, Base64.Decode;
    MarshalAscii(p);
    var data := Bytes(Marshal(p));
    var encoded := Base64.Encode(data);
    var state := EncodeState(p, signer);
    assert state[..|encoded|] == encoded && state[|encoded|] == '.' && state[|encoded| + 1..] == signer.sign(encoded);
    assert '.' !in encoded;
    IndexUnique(state, '.', |encoded|);
    Base64.DecodeEncode(data);
    FromBytesBytes(Marshal(p));
    UnmarshalMarshal(p);
  }

  /** Whatever decodes carries the signer's own MAC over the part that was decoded. */
  lemma DecodedIsSigned(state: string, signer: Signer, now: int)
    requires DecodeState(state, signer, now).Ok?
    ensures exists encoded :: '.' !in encoded && state == encoded + "." + signer.sign(encoded)
    ensures now <= DecodeState(state, signer, now).value.exp
  {
    hide Unmarshal, Base64.Decode, FromBytes;
    var i := Index(state, '.');
    var encoded := state[..i];
    assert state == encoded + "." + state[i + 1..];
  }

  // ----- the trailing artefacts that terminals add -----

  function TrimState(raw: string): string {
    TrimSuffix(TrimSuffix(raw, "%27"), "'")
  }

  /** Trimming maps the blob and its three quoted forms back to the blob. */
  lemma TrimStateRestores(p: StatePayload, signer: Signer)
    requires ValidPayload(p) && MacShape(signer)
    ensures var s := EncodeState(p, signer);
            TrimState(s) == s && TrimState(s + "'") == s && TrimState(s + "%27") == s && TrimState(s + "'%27") == s
  {
    hide Marshal;
    MarshalAscii(p);
    var encoded := Base64.Encode(Bytes(Marshal(p)));
    var s, mac := EncodeState(p, signer), signer.sign(encoded);
    assert s[|s| - 1] == mac[42] && s[|s| - 3] == mac[40];
    assert Base64.InAlphabet(s[|s| - 1]) && Base64.InAlphabet(s[|s| - 3]);
    TrimQuotes(s);
  }

  lemma TrimQuotes(s: string)
    requires |s| >= 3 && s[|s| - 1] != '\'' && s[|s| - 3] != '%'
    ensures TrimState(s) == s && TrimState(s + "'") == s && TrimState(s + "%27") == s && TrimState(s + "'%27") == s
  {
    assert !HasSuffix(s, "%27") by { assert s[|s| - 3..][0] == s[|s| - 3]; }
    assert !HasSuffix(s, "'") by { assert s[|s| - 1..][0] == s[|s| - 1]; }
    var t := s + "'";
    assert !HasSuffix(t, "%27") by { assert t[|t| - 3..][2] == '\''; }
    assert HasSuffix(t, "'") && t[..|t| - 1] == s;
    SuffixRemoved(s, "%27");
    assert s + "'%27" == t + "%27";
    SuffixRemoved(t, "%27");
  }

  lemma SuffixRemoved(s: string, p: string)
    ensures TrimSuffix(s + p, p) == s
  {
    assert (s + p)[|s|..] == p && (s + p)[..|s|] == s;
  }

  // ----- the length budget -----

  const MAX_WEB_AUTH_URL := 229

  function TrimSlashes(url: string): (r: string)
    ensures r <= url && (r != "" ==> r[|r| - 1] != '/')
    ensures forall i :: |r| <= i < |url| ==> url[i] == '/'
  {
    if url != "" && url[|url| - 1] == '/' then TrimSlashes(url[..|url| - 1]) else url
  }

  function AuthUrl(callbackUrl: string, blob: string): string {
    TrimSlashes(callbackUrl) + (if '?' in callbackUrl then "&" else "?") + "state=" + blob
  }

  /** The first value of a query parameter, as a server reads it from a URL. */
  function QueryValue(url: string, key: string): Option<string> {
    var i := Index(url, '?');
    if i == |url| then None else FirstValue(Split(url[i + 1..], '&'), key + "=")
  }

  function FirstValue(parts: seq<string>, prefix: string): Option<string> {
    if parts == [] then None
    else if HasPrefix(parts[0], prefix) then Some(parts[0][|prefix|..])
    else FirstValue(parts[1..], prefix)
  }

  lemma {:induction false} FirstValueLast(parts: seq<string>, prefix: string, value: string)
    requires forall k :: 0 <= k < |parts| ==> !HasPrefix(parts[k], prefix)
    ensures FirstValue(parts + [prefix + value], prefix) == Some(value)
    decreases |parts|
  {
    var all := parts + [prefix + value];
    if parts == [] {
      assert all[0][..|prefix|] == prefix && all[0][|prefix|..] == value;
    } else {
      assert all[1..] == parts[1..] + [prefix + value];
      FirstValueLast(parts[1..], prefix, value);
    }
  }

  /** The callback URL brings no `state` parameter of its own. */
  predicate NoOwnState(callbackUrl: string) {
    QueryValue(TrimSlashes(callbackUrl), "state").None?
  }

  lemma {:induction false} NoneMeans(parts: seq<string>, prefix: string)
    requires FirstValue(parts, prefix).None?
    ensures forall k :: 0 <= k < |parts| ==> !HasPrefix(parts[k], prefix)
    decreases |parts|
  {
    if parts != [] {
      NoneMeans(parts[1..], prefix);
      assert forall k :: 0 < k < |parts| ==> parts[k] == parts[1..][k - 1];
    }
  }

  lemma StateFirst(base: string, blob: string)
    requires '&' !in blob && '?' !in base
    ensures QueryValue(base + "?" + ("state=" + blob), "state") == Some(blob)
  {
    var last := "state=" + blob;
    var url := base + "?" + last;
    assert url[..|base|] == base && url[|base| + 1..] == last;
    IndexUnique(url, '?', |base|);
    SplitWhole(last, '&');
    FirstValueLast([], "state=", blob);
    assert [] + [last] == [last] && "state" + "=" == "state=";
    hide Split, FirstValue;
  }

  lemma StateLater(base: string, blob: string)
    requires '&' !in blob && '?' in base && QueryValue(base, "state").None?
    ensures QueryValue(base + "&" + ("state=" + blob), "state") == Some(blob)
  {
    hide Split, FirstValue;
    var i, last := Index(base, '?'), "state=" + blob;
    var query, url := base[i + 1..], base + "&" + last;
    assert url[..i] == base[..i] && url[i + 1..] == query + ['&'] + last;
    IndexUnique(url, '?', i);
    SplitMore(query, '&', last);
    assert "state" + "=" == "state=";
    NoneMeans(Split(query, '&'), "state=");
    FirstValueLast(Split(query, '&'), "state=", blob);
  }

  lemma QuestionMarkStays(url: string)
    ensures '?' in TrimSlashes(url) <==> '?' in url
  {
    if k :| 0 <= k < |url| && url[k] == '?' {
      assert TrimSlashes(url)[k] == '?';
    }
  }

  /** The URL leads to the callback, and its `state` parameter is the blob. */
  lemma UrlCarriesState(callbackUrl: string, blob: string)
    requires '&' !in blob && NoOwnState(callbackUrl)
    ensures TrimSlashes(callbackUrl) <= AuthUrl(callbackUrl, blob)
    ensures QueryValue(AuthUrl(callbackUrl, blob), "state") == Some(blob)
  {
    hide QueryValue, TrimSlashes;
    var base, url := TrimSlashes(callbackUrl), AuthUrl(callbackUrl, blob);
    QuestionMarkStays(callbackUrl);
    if '?' in callbackUrl {
      assert url == base + "&" + ("state=" + blob);
      StateLater(base, blob);
    } else {
      assert url == base + "?" + ("state=" + blob);
      StateFirst(base, blob);
    }
  }

  /** The length that startup validation assumes, and whether it warns. */
  predicate EstimateWarns(callbackUrl: string) {
    9 + |callbackUrl| + 7 + 128 > 229
  }

  /** A callback URL that production accepts, and about which startup says nothing. */
  predicate StartsSilently(callbackUrl: string) {
    HasPrefix(callbackUrl, "https://") && !EstimateWarns(callbackUrl)
  }

  /** The exact length of the URL, from the lengths of the session ID and of the two timestamps. */
  lemma AuthUrlLength(callbackUrl: string, p: StatePayload, signer: Signer)
    requires ValidPayload(p) && MacShape(signer)
    ensures var json := 24 + |p.sid| + |Decimal.PrintInt(p.iat)| + |Decimal.PrintInt(p.exp)|;
            |AuthUrl(callbackUrl, EncodeState(p, signer))| == |TrimSlashes(callbackUrl)| + 7 + (4 * json + 2) / 3 + 44
  {
    MarshalAscii(p);
    assert |Bytes(Marshal(p))| == |Marshal(p)|;
  }

  /** Session IDs are 16 random bytes in base64url. */
  predicate TokenShape(sid: string) {
    |sid| == 22 && Base64.AllInAlphabet(sid)
  }

  lemma TokenFromBytes(b: seq<Base64.byte>)
    requires |b| == 16
    ensures TokenShape(Base64.Encode(b))
  {
  }

  /** With no startup warning and timestamps below 10^11 the too-long denial cannot fire. */
  lemma UrlFitsBudget(callbackUrl: string, p: StatePayload, signer: Signer)
    requires !EstimateWarns(callbackUrl) && TokenShape(p.sid) && MacShape(signer)
    requires 0 <= p.iat < Decimal.Pow10(11) && 0 <= p.exp < Decimal.Pow10(11) && ValidPayload(p)
    ensures |AuthUrl(callbackUrl, EncodeState(p, signer))| <= MAX_WEB_AUTH_URL
  {
    AuthUrlLength(callbackUrl, p, signer);
    Decimal.PrintLength(p.iat, 11);
    Decimal.PrintLength(p.exp, 11);
  }

  /** A timestamp of today has ten digits, and the blob has 132 characters rather than the assumed 128. */
  lemma BlobLengthToday(p: StatePayload, signer: Signer)
    requires TokenShape(p.sid) && MacShape(signer) && ValidPayload(p)
    requires Decimal.Pow10(9) <= p.iat < Decimal.Pow10(10) && Decimal.Pow10(9) <= p.exp < Decimal.Pow10(10)
    ensures |EncodeState(p, signer)| == 132
  {
    AuthUrlLength("", p, signer);
    Decimal.PrintLength(p.iat, 10);
    Decimal.PrintLength(p.iat, 9);
    Decimal.PrintLength(p.exp, 10);
    Decimal.PrintLength(p.exp, 9);
  }

  /** The characters that the two timestamps take. */
  function StampLength(p: StatePayload): nat {
    |Decimal.PrintInt(p.iat)| + |Decimal.PrintInt(p.exp)|
  }

  /**
   Every callback URL that startup accepts in silence fits exactly when the timestamps have 23 characters or fewer.
   */
  lemma SilentUrlsFitIff(p: StatePayload, signer: Signer)
    requires TokenShape(p.sid) && MacShape(signer) && ValidPayload(p)
    ensures (forall url :: !EstimateWarns(url) ==> |AuthUrl(url, EncodeState(p, signer))| <= MAX_WEB_AUTH_URL)
              <==> StampLength(p) <= 23
    ensures (forall url :: StartsSilently(url) ==> |AuthUrl(url, EncodeState(p, signer))| <= MAX_WEB_AUTH_URL)
              <==> StampLength(p) <= 23
  {
    hide AuthUrl, EncodeState, Decimal.PrintInt;
    forall url
      ensures |AuthUrl(url, EncodeState(p, signer))| == |TrimSlashes(url)| + 51 + (4 * (46 + StampLength(p)) + 2) / 3
    {
      AuthUrlLength(url, p, signer);
    }
    var longest := "https://" + seq(77, _ => 'x');
    assert longest[..8] == "https://" && StartsSilently(longest);
    assert TrimSlashes(longest) == longest;
    assert |AuthUrl(longest, EncodeState(p, signer))| == 136 + (4 * (46 + StampLength(p)) + 2) / 3;
  }

  /** So a silent startup does not promise it: twelve-digit timestamps are too long. */
  lemma TwelveDigitsDoNotFit(p: StatePayload, signer: Signer)
    requires TokenShape(p.sid) && MacShape(signer) && ValidPayload(p)
    requires Decimal.Pow10(11) <= p.iat < Decimal.Pow10(12) && Decimal.Pow10(11) <= p.exp < Decimal.Pow10(12)
    ensures exists url :: StartsSilently(url) && |AuthUrl(url, EncodeState(p, signer))| > MAX_WEB_AUTH_URL
  {
    hide AuthUrl, EncodeState;
    SilentUrlsFitIff(p, signer);
    Decimal.PrintLength(p.iat, 12);
    Decimal.PrintLength(p.iat, 11);
    Decimal.PrintLength(p.exp, 12);
    Decimal.PrintLength(p.exp, 11);
  }
}
