/** src/shared/services/url-builder.service.ts: `buildApiUrl` and `buildAuthUrl`. */
module UrlBuilder {
  import opened Wrappers
  import opened Text

  /** The configuration values the service reads; None is an unset key. */
  datatype UrlConfig = UrlConfig(appUrl: Option<string>, apiPrefix: Option<string>, defaultVersion: Option<string>)

  // ---- replace(/\/+/g, '/') ----

  predicate NoDoubleSlash(s: string) {
    forall i :: 0 <= i < |s| - 1 ==> !(s[i] == '/' && s[i + 1] == '/')
  }

  /** Every run of '/' becomes a single '/'. */
  function CollapseSlashes(s: string): (r: string)
    ensures |r| <= |s|
    ensures NoDoubleSlash(r)
    ensures |s| > 0 ==> |r| > 0 && r[0] == s[0]
    decreases |s|
  {
    if |s| == 0 then ""
    else if |s| >= 2 && s[0] == '/' && s[1] == '/' then CollapseSlashes(s[1..])
    else
      var rest := CollapseSlashes(s[1..]);
      assert |s| >= 2 && s[0] == '/' ==> s[1] != '/';
      [s[0]] + rest
  }

  /** A string with no doubled slash is left as it is; so collapsing twice is collapsing once. */
  lemma {:induction false} CollapseFixpoint(s: string)
    requires NoDoubleSlash(s)
    ensures CollapseSlashes(s) == s
    decreases |s|
  {
    if |s| > 0 {
      CollapseFixpoint(s[1..]);
    }
  }

  lemma CollapseIdempotent(s: string)
    ensures CollapseSlashes(CollapseSlashes(s)) == CollapseSlashes(s)
  {
    CollapseFixpoint(CollapseSlashes(s));
  }

  /** Removing one slash of a doubled pair does not change the result. */
  lemma {:induction false} CollapseRun(a: string, b: string)
    ensures CollapseSlashes(a + "//" + b) == CollapseSlashes(a + "/" + b)
    decreases |a|
  {
    var l := a + "//" + b;
    var r := a + "/" + b;
    if |a| == 0 {
      assert l[1..] == r;
    } else {
      assert l[0] == r[0] && l[1] == r[1];
      assert l[1..] == a[1..] + "//" + b;
      assert r[1..] == a[1..] + "/" + b;
      CollapseRun(a[1..], b);
    }
  }

  /** A slash-free prefix is kept as it is. */
  lemma {:induction false} CollapsePrefix(a: string, b: string)
    requires '/' !in a
    ensures CollapseSlashes(a + b) == a + CollapseSlashes(b)
    decreases |a|
  {
    if |a| > 0 {
      assert (a + b)[0] == a[0] != '/';
      assert (a + b)[1..] == a[1..] + b;
      CollapsePrefix(a[1..], b);
      assert a + CollapseSlashes(b) == [a[0]] + (a[1..] + CollapseSlashes(b));
      assert CollapseSlashes(a + b) == [a[0]] + CollapseSlashes((a + b)[1..]);
    } else {
      assert a + b == b;
    }
  }

  /** The non-slash characters are kept, in order. */
  function DropSlashes(s: string): string {
    if |s| == 0 then "" else (if s[0] == '/' then "" else [s[0]]) + DropSlashes(s[1..])
  }

  lemma {:induction false} CollapseKeepsText(s: string)
    ensures DropSlashes(CollapseSlashes(s)) == DropSlashes(s)
    decreases |s|
  {
    if |s| > 0 {
      CollapseKeepsText(s[1..]);
      if !(|s| >= 2 && s[0] == '/' && s[1] == '/') {
        var rest := CollapseSlashes(s[1..]);
        assert ([s[0]] + rest)[1..] == rest;
      }
    }
  }

  // ---- buildApiUrl ----

  /** `${baseUrl}`: an unset APP_URL prints as "undefined". */
  function BaseUrl(cfg: UrlConfig): string {
    if cfg.appUrl.Some? then cfg.appUrl.value else "undefined"
  }

  /** `configService.get('API.PREFIX', 'api')`. */
  function ApiPrefix(cfg: UrlConfig): string {
    cfg.apiPrefix.GetOr("api")
  }

  /** `version || configService.get('API.DEFAULT_VERSION', 'v1')`: an empty version counts as none. */
  function ApiVersion(cfg: UrlConfig, version: Option<string>): string {
    if version.Some? && version.value != "" then version.value else cfg.defaultVersion.GetOr("v1")
  }

  function BuildApiUrl(cfg: UrlConfig, path: string, version: Option<string>): (url: string)
    ensures NoDoubleSlash(url)
    ensures DropSlashes(url) == DropSlashes(BaseUrl(cfg) + "/" + ApiPrefix(cfg) + "/" + ApiVersion(cfg, version) + "/" + path)
  {
    CollapseKeepsText(BaseUrl(cfg) + "/" + ApiPrefix(cfg) + "/" + ApiVersion(cfg, version) + "/" + path);
    CollapseSlashes(BaseUrl(cfg) + "/" + ApiPrefix(cfg) + "/" + ApiVersion(cfg, version) + "/" + path)
  }

  /** Every URL it builds is free of doubled slashes, and rebuilding it changes nothing. */
  lemma ApiUrlShape(cfg: UrlConfig, path: string, version: Option<string>)
    ensures NoDoubleSlash(BuildApiUrl(cfg, path, version))
    ensures CollapseSlashes(BuildApiUrl(cfg, path, version)) == BuildApiUrl(cfg, path, version)
    ensures DropSlashes(BuildApiUrl(cfg, path, version)) ==
            DropSlashes(BaseUrl(cfg) + "/" + ApiPrefix(cfg) + "/" + ApiVersion(cfg, version) + "/" + path)
  {
    CollapseIdempotent(BaseUrl(cfg) + "/" + ApiPrefix(cfg) + "/" + ApiVersion(cfg, version) + "/" + path);
    CollapseKeepsText(BaseUrl(cfg) + "/" + ApiPrefix(cfg) + "/" + ApiVersion(cfg, version) + "/" + path);
  }

  /** The scheme's "//" is collapsed too: an APP_URL `scheme://host` comes out as `scheme:/host`. */
  lemma SchemeSlashCollapsed(scheme: string, host: string, rest: string)
    requires '/' !in scheme && |host| > 0 && host[0] != '/'
    ensures CollapseSlashes(scheme + "://" + host + rest) == scheme + ":/" + CollapseSlashes(host + rest)
  {
    var a := scheme + ":";
    assert '/' !in a;
    assert scheme + "://" + host + rest == a + "//" + (host + rest);
    CollapseRun(a, host + rest);
    assert a + "/" + (host + rest) == a + ("/" + (host + rest));
    CollapsePrefix(a, "/" + (host + rest));
    assert ("/" + (host + rest))[1..] == host + rest;
    assert scheme + ":/" + CollapseSlashes(host + rest) == a + ("/" + CollapseSlashes(host + rest));
  }

  /** A non-empty explicit version is used as if it were the configured default. */
  lemma ExplicitVersionOverrides(cfg: UrlConfig, path: string, v: string)
    requires v != ""
    ensures BuildApiUrl(cfg, path, Some(v)) == BuildApiUrl(cfg.(defaultVersion := Some(v)), path, None)
  {
  }

  /** Unset prefix and version mean "api" and "v1"; an empty explicit version means none. */
  lemma ConfigFallbacks(cfg: UrlConfig, path: string)
    ensures BuildApiUrl(cfg.(apiPrefix := None, defaultVersion := None), path, None) ==
            BuildApiUrl(cfg.(apiPrefix := Some("api"), defaultVersion := Some("v1")), path, None)
    ensures BuildApiUrl(cfg, path, Some("")) == BuildApiUrl(cfg, path, None)
  {
  }

  // ---- buildAuthUrl and the URLSearchParams serializer ----

  /** The bytes the form serializer leaves as they are: `*-._`, digits and ASCII letters. */
  predicate Unreserved(b: int) {
    b == 0x2A || b == 0x2D || b == 0x2E || b == 0x5F || (0x30 <= b <= 0x39) || (0x41 <= b <= 0x5A) || (0x61 <= b <= 0x7A)
  }

  function UpperHexDigit(d: int): char
    requires 0 <= d < 16
  {
    if d < 10 then ('0' as int + d) as char else ('A' as int + d - 10) as char
  }

  /** One byte: itself when unreserved, '+' for a space, `%XX` otherwise. */
  function EncodeByte(b: int): string
    requires 0 <= b < 256
  {
    if Unreserved(b) then [b as char]
    else if b == 0x20 then "+"
    else "%" + [UpperHexDigit(b / 16), UpperHexDigit(b % 16)]
  }

  function EncodeBytes(bs: seq<int>): string
    requires forall i :: 0 <= i < |bs| ==> 0 <= bs[i] < 256
  {
    if |bs| == 0 then "" else EncodeByte(bs[0]) + EncodeBytes(bs[1..])
  }

  /** The form-urlencoded byte serializer applied to the UTF-8 encoding of `s`. */
  function FormEncode(s: string): string {
    if |s| == 0 then ""
    else
      Utf8Bytes(s[0]);
      EncodeBytes(Utf8(s[0])) + FormEncode(s[1..])
  }

  /** `new URLSearchParams(params).toString()`: `name=value` pairs joined by '&'. */
  function Serialize(params: seq<(string, string)>): (q: string)
    ensures q == "" <==> |params| == 0
  {
    JoinWith(Pieces(params), "&")
  }

  function Pieces(params: seq<(string, string)>): seq<string> {
    if |params| == 0 then [] else [FormEncode(params[0].0) + "=" + FormEncode(params[0].1)] + Pieces(params[1..])
  }

  function BuildAuthUrl(cfg: UrlConfig, path: string, params: Option<seq<(string, string)>>, version: Option<string>): (url: string)
    ensures var api := BuildApiUrl(cfg, "auth/" + path, version);
            && |url| >= |api| && url[..|api|] == api
            && (params.None? <==> |url| == |api|)
            && (params.Some? ==> url[|api|] == '?')
  {
    var url := BuildApiUrl(cfg, "auth/" + path, version);
    if params.Some? then url + "?" + Serialize(params.value) else url
  }

  /**
   * Without params the auth URL is the API URL of "auth/" + path; with
   * params, even an empty set, it is that URL, a '?' and the query string.
   */
  lemma AuthUrlShape(cfg: UrlConfig, path: string, params: Option<seq<(string, string)>>, version: Option<string>)
    ensures params.None? ==> BuildAuthUrl(cfg, path, params, version) == BuildApiUrl(cfg, "auth/" + path, version)
    ensures params.Some? ==> BuildAuthUrl(cfg, path, params, version) ==
                             BuildApiUrl(cfg, "auth/" + path, version) + "?" + Serialize(params.value)
    ensures params == Some([]) ==> BuildAuthUrl(cfg, path, params, version) == BuildApiUrl(cfg, "auth/" + path, version) + "?"
  {
  }

  /** The characters the serializer can produce. */
  predicate QueryChar(c: char) {
    Unreserved(c as int) || c == '+' || c == '%'
  }

  lemma EncodeByteChars(b: int)
    requires 0 <= b < 256
    ensures forall i :: 0 <= i < |EncodeByte(b)| ==> QueryChar(EncodeByte(b)[i])
  {
  }

  lemma {:induction false} EncodeBytesChars(bs: seq<int>)
    requires forall i :: 0 <= i < |bs| ==> 0 <= bs[i] < 256
    ensures forall i :: 0 <= i < |EncodeBytes(bs)| ==> QueryChar(EncodeBytes(bs)[i])
    decreases |bs|
  {
    if |bs| > 0 {
      EncodeByteChars(bs[0]);
      EncodeBytesChars(bs[1..]);
    }
  }

  /** An encoded name or value holds only unreserved characters, '+' and '%': never '&' or '='. */
  lemma {:induction false} FormEncodeChars(s: string)
    ensures forall i :: 0 <= i < |FormEncode(s)| ==> QueryChar(FormEncode(s)[i])
    decreases |s|
  {
    if |s| > 0 {
      Utf8Bytes(s[0]);
      EncodeBytesChars(Utf8(s[0]));
      FormEncodeChars(s[1..]);
    }
  }

  function HexValue(c: char): int {
    if '0' <= c <= '9' then c as int - '0' as int
    else if 'A' <= c <= 'F' then c as int - 'A' as int + 10
    else 0
  }

  /** The form decoder for ASCII text: '+' is a space and `%XX` a byte. */
  function FormDecode(s: string): string
    decreases |s|
  {
    if |s| == 0 then ""
    else if s[0] == '+' then " " + FormDecode(s[1..])
    else if s[0] == '%' && |s| >= 3 then [(16 * HexValue(s[1]) + HexValue(s[2])) as char] + FormDecode(s[3..])
    else [s[0]] + FormDecode(s[1..])
  }

  /** An ASCII character is one byte. */
  lemma AsciiEncoding(c: char)
    requires c as int < 0x80
    ensures EncodeBytes(Utf8(c)) == EncodeByte(c as int)
  {
    assert Utf8(c) == [c as int];
    assert EncodeBytes([c as int]) == EncodeByte(c as int) + EncodeBytes([]);
  }

  lemma DecodeByte(b: int, rest: string)
    requires 0 <= b < 0x80
    ensures FormDecode(EncodeByte(b) + rest) == [b as char] + FormDecode(rest)
  {
    var e := EncodeByte(b);
    var h := e + rest;
    if !Unreserved(b) && b != 0x20 {
      assert h[0] == '%' && h[3..] == rest;
      assert HexValue(h[1]) == b / 16;
      assert HexValue(h[2]) == b % 16;
    } else {
      assert h[1..] == rest;
    }
  }

  /** Round trip: decoding the encoding of ASCII text gives the text back. */
  lemma {:induction false} FormEncodeRoundTrip(s: string)
    requires Ascii(s)
    ensures FormDecode(FormEncode(s)) == s
    decreases |s|
  {
    if |s| > 0 {
      assert Ascii(s[1..]);
      FormEncodeRoundTrip(s[1..]);
      AsciiEncoding(s[0]);
      assert FormEncode(s) == EncodeByte(s[0] as int) + FormEncode(s[1..]);
      DecodeByte(s[0] as int, FormEncode(s[1..]));
      assert s == [s[0]] + s[1..];
    }
  }

  /** The query string splits back at '&' into one `name=value` piece per parameter, each splitting at '=' into two. */
  lemma SerializeSplits(params: seq<(string, string)>)
    requires |params| >= 1
    ensures |Split(Serialize(params), '&')| == |params|
    ensures forall i :: 0 <= i < |params| ==>
              Split(Split(Serialize(params), '&')[i], '=') == [FormEncode(params[i].0), FormEncode(params[i].1)]
  {
    PiecesShape(params);
    JoinWithChar(Pieces(params), '&');
    SplitJoin(Pieces(params), '&');
    forall i | 0 <= i < |params|
      ensures Split(Pieces(params)[i], '=') == [FormEncode(params[i].0), FormEncode(params[i].1)]
    {
      FormEncodeChars(params[i].0);
      FormEncodeChars(params[i].1);
      var n, v := FormEncode(params[i].0), FormEncode(params[i].1);
      assert '=' !in n && '=' !in v;
      assert n + "=" + v == n + ['='] + v;
      SplitCons(n, '=', v);
      SplitNone(v, '=');
    }
  }

  lemma {:induction false} PiecesShape(params: seq<(string, string)>)
    ensures |Pieces(params)| == |params|
    ensures forall i :: 0 <= i < |params| ==> Pieces(params)[i] == FormEncode(params[i].0) + "=" + FormEncode(params[i].1)
    ensures forall i :: 0 <= i < |params| ==> '&' !in Pieces(params)[i]
    decreases |params|
  {
    if |params| > 0 {
      PiecesShape(params[1..]);
      FormEncodeChars(params[0].0);
      FormEncodeChars(params[0].1);
    }
  }

  /** Joining with a one-character string is joining with that character. */
  lemma {:induction false} JoinWithChar(parts: seq<string>, c: char)
    ensures JoinWith(parts, [c]) == Join(parts, c)
    decreases |parts|
  {
    if |parts| > 1 {
      JoinWithChar(parts[1..], c);
    }
  }
}
