/** The M3U playlist parser: EXTINF attributes, Kodi-style URL arguments,
    the UDP proxy rewrite, EXTGRP/EXTLOGO/EXTVLCOPT overrides, and the
    EPG locator a playlist announces. */
module M3u {
  import opened Wrappers
  import opened Text

  /** Prefix of a locator that lists several EPG URLs. */
  const MULTIPLE_MARKER: string := "^^::MULTIPLE::^^"
  /** Separator between the URLs of such a locator. */
  const URL_SEPARATOR: string := ":::^^^:::"
  /** The placeholder EPG URL some providers put into #EXTM3U; treated as none. */
  const PLACEHOLDER_EPG: string := "http://server/jtv.zip"
  const CATCHUP_DAYS: string := "catchup-days"

  /** One parsed channel: the dictionary `parse_channel` returns. */
  datatype Channel = Channel(
    title: string,
    tvgName: string,
    tvgId: string,
    tvgLogo: string,
    tvgGroup: string,
    tvgUrl: string,
    catchup: string,
    catchupSource: string,
    catchupDays: string,
    useragent: string,
    referer: string,
    url: string)

  /** The overrides collected from the tag lines preceding a URL line;
      a key that was never set is None. */
  datatype Overrides = Overrides(
    group: Option<string>,
    logo: Option<string>,
    useragent: Option<string>,
    referer: Option<string>)

  const NoOverrides: Overrides := Overrides(None, None, None, None)

  /** Every override that is present holds a non-empty value. */
  predicate OverridesNonEmpty(ov: Overrides) {
    (ov.group.Some? ==> ov.group.value != "")
    && (ov.logo.Some? ==> ov.logo.value != "")
    && (ov.useragent.Some? ==> ov.useragent.value != "")
    && (ov.referer.Some? ==> ov.referer.value != "")
  }

  /** The two exceptions `parse_m3u` raises. */
  datatype M3uError = MalformedM3u | NoChannelsFound

  // ---------------------------------------------------------------------
  // Attribute extraction
  // ---------------------------------------------------------------------

  /** The group of `re.search(name + '="(.*?)"', line)`: the text after the
      first `name="` up to the next `"`; None when there is no match. */
  function AttrMatch(name: string, line: string): Option<string> {
    var pat := name + "=\"";
    match IndexOf(line, pat)
    case None => None
    case Some(i) =>
      var rest := line[i + |pat|..];
      match IndexOf(rest, "\"")
      case None => None
      case Some(j) => Some(rest[..j])
  }

  /** The match starts right after the first `name="` and runs up to, not
      including, the next quote; there is no match exactly when `name="`
      is absent or no quote follows its first occurrence. */
  lemma AttrMatchSpec(name: string, line: string)
    ensures var pat := name + "=\"";
            var r := AttrMatch(name, line);
            (r.Some? ==>
               IndexOf(line, pat).Some? &&
               var k := IndexOf(line, pat).value + |pat|;
               k + |r.value| < |line|
               && line[k..k + |r.value|] == r.value && line[k + |r.value|] == '"'
               && '"' !in r.value)
            && (r.None? ==>
                  IndexOf(line, pat).None? || '"' !in line[IndexOf(line, pat).value + |pat|..])
  {
    var pat := name + "=\"";
    if IndexOf(line, pat).Some? {
      var i := IndexOf(line, pat).value;
      var rest := line[i + |pat|..];
      IndexOfChar(rest, '"');
      if IndexOf(rest, "\"").Some? {
        var j := IndexOf(rest, "\"").value;
        assert line[i + |pat|..i + |pat| + j] == rest[..j];
      }
    }
  }

  /** `str(int(res)).strip()` for the `catchup-days` attribute, with the
      stripped default where `int()` raises. */
  function NormalizeCatchupDays(res: string, default: string): (r: string)
    ensures ParsePyInt(res).Some? ==> r == IntToString(ParsePyInt(res).value)
    ensures ParsePyInt(res).Some? ==> ParsePyInt(r) == ParsePyInt(res)
    ensures ParsePyInt(res).None? ==> r == Strip(default)
  {
    match ParsePyInt(res)
    case Some(n) =>
      ParsePyIntRoundTrip(n);
      IntToStringStripped(n);
      Strip(IntToString(n))
    case None => Strip(default)
  }

  /** `parse_regexp(name, line, default)`: the stripped attribute value or
      the stripped default; `catchup-days` goes through `int()`. */
  function ParseRegexp(name: string, line: string, default: string): string {
    var res := AttrMatch(name, line).GetOr(default);
    if name == CATCHUP_DAYS then NormalizeCatchupDays(res, default) else Strip(res)
  }

  /** An absent attribute reads as its stripped default. */
  lemma AbsentAttribute(name: string, line: string, default: string)
    requires name != CATCHUP_DAYS && AttrMatch(name, line).None?
    ensures ParseRegexp(name, line, default) == Strip(default)
    ensures default == "" || default == "default" ==> ParseRegexp(name, line, default) == default
  {
    StripUnchanged("default");
  }

  /** A present attribute reads as its stripped value. */
  lemma PresentAttribute(name: string, line: string, default: string)
    requires name != CATCHUP_DAYS && AttrMatch(name, line).Some?
    ensures ParseRegexp(name, line, default) == Strip(AttrMatch(name, line).value)
  {}

  /** The default `catchup-days`. */
  const DEFAULT_CATCHUP_DAYS: string := "1"

  /** `catchup-days` always ends up as the text of an integer: the
      attribute's value normalised by `int()`, or the default "1". */
  lemma CatchupDaysIsInteger(info: string)
    ensures ParsePyInt(ParseRegexp(CATCHUP_DAYS, info, DEFAULT_CATCHUP_DAYS)).Some?
  {
    var res := AttrMatch(CATCHUP_DAYS, info).GetOr(DEFAULT_CATCHUP_DAYS);
    assert ParseRegexp(CATCHUP_DAYS, info, DEFAULT_CATCHUP_DAYS) == NormalizeCatchupDays(res, DEFAULT_CATCHUP_DAYS);
    NormalizedIsInteger(res);
  }

  lemma NormalizedIsInteger(res: string)
    ensures ParsePyInt(NormalizeCatchupDays(res, DEFAULT_CATCHUP_DAYS)).Some?
  {
    if ParsePyInt(res).None? {
      DefaultCatchupDaysParses(DEFAULT_CATCHUP_DAYS);
    }
  }

  lemma DefaultCatchupDaysParses(d: string)
    requires d == DEFAULT_CATCHUP_DAYS
    ensures ParsePyInt(Strip(d)) == Some(1)
  {
    StripUnchanged("1");
    OneParses();
  }

  lemma OneParses()
    ensures ParseStripped("1") == Some(1)
  {
    assert WellFormedDigits("1");
    assert DigitsValue("1") == 1;
  }

  /** The title: the stripped text after the last comma of the EXTINF line. */
  function TitleOf(line: string): string {
    Strip(AfterLastComma(line).GetOr(""))
  }

  // ---------------------------------------------------------------------
  // Kodi-style URL arguments
  // ---------------------------------------------------------------------

  /** A `key=value` part that sets the header named by either spelling. */
  predicate SetsHeader(part: string, p1: string, p2: string) {
    StartsWith(part, p1) || StartsWith(part, p2)
  }

  /** The value such a part sets; the lower-case spelling is tested last and so wins. */
  function HeaderValue(part: string, p1: string, p2: string): string
    requires SetsHeader(part, p1, p2)
  {
    if StartsWith(part, p2) then part[|p2|..] else part[|p1|..]
  }

  /** The header value the scan over the parts ends with ("" when no part sets it). */
  function LastValue(parts: seq<string>, p1: string, p2: string): string
    decreases |parts|
  {
    if parts == [] then ""
    else
      var k := parts[|parts| - 1];
      if SetsHeader(k, p1, p2) then HeaderValue(k, p1, p2)
      else LastValue(parts[..|parts| - 1], p1, p2)
  }

  /** The last part that sets a header decides its value. */
  lemma {:induction false} LastValueIsLastSetter(parts: seq<string>, p1: string, p2: string, i: int)
    requires 0 <= i < |parts| && SetsHeader(parts[i], p1, p2)
    requires forall j :: i < j < |parts| ==> !SetsHeader(parts[j], p1, p2)
    ensures LastValue(parts, p1, p2) == HeaderValue(parts[i], p1, p2)
    decreases |parts|
  {
    if i < |parts| - 1 {
      LastValueIsLastSetter(parts[..|parts| - 1], p1, p2, i);
    }
  }

  /** A header no part sets stays empty. */
  lemma {:induction false} LastValueUnset(parts: seq<string>, p1: string, p2: string)
    requires forall j :: 0 <= j < |parts| ==> !SetsHeader(parts[j], p1, p2)
    ensures LastValue(parts, p1, p2) == ""
    decreases |parts|
  {
    if parts != [] {
      LastValueUnset(parts[..|parts| - 1], p1, p2);
    }
  }

  /** `parse_url_kodi_arguments`: (url without arguments, User-Agent, Referer). */
  function KodiArguments(url: string): (r: (string, string, string))
    ensures r.0 <= url && '|' !in r.0
    ensures r.0 == UpTo(url, '|')
    ensures '|' !in url ==> r == (url, "", "")
    ensures '|' in url ==>
              var parts := Split(UpTo(url[|r.0| + 1..], '|'), "&");
              r.1 == LastValue(parts, "User-Agent=", "user-agent=")
              && r.2 == LastValue(parts, "Referer=", "referer=")
  {
    ContainsChar(url, '|');
    SplitFirstPiece(url, '|');
    SplitUpTo(url, '|');
    if !Contains(url, "|") then (url, "", "")
    else
      SplitAtLeastTwo(url, "|");
      var pieces := Split(url, "|");
      var parts := ArgumentParts(pieces[1]);
      (pieces[0], LastValue(parts, "User-Agent=", "user-agent="), LastValue(parts, "Referer=", "referer="))
  }

  /** The `&`-separated parts of the arguments, split only when there is
      an `&`; that is the same as splitting outright. */
  function ArgumentParts(arguments: string): (r: seq<string>)
    ensures r == Split(arguments, "&")
  {
    ContainsChar(arguments, '&');
    SplitCharAbsent(arguments, '&');
    if Contains(arguments, "&") then Split(arguments, "&") else [arguments]
  }

  /** The arguments of a URL with a `|`, as `KodiArguments` reads them. */
  lemma KodiArgumentsSplit(url: string)
    requires Contains(url, "|")
    ensures |Split(url, "|")| >= 2
    ensures var parts := ArgumentParts(Split(url, "|")[1]);
            KodiArguments(url)
            == (Split(url, "|")[0], LastValue(parts, "User-Agent=", "user-agent="), LastValue(parts, "Referer=", "referer="))
  {
    SplitAtLeastTwo(url, "|");
  }

  /** One more part: the value stays unless that part sets the header. */
  lemma LastValueExtend(parts: seq<string>, p1: string, p2: string, i: int)
    requires 0 <= i < |parts|
    ensures LastValue(parts[..i + 1], p1, p2)
            == if SetsHeader(parts[i], p1, p2) then HeaderValue(parts[i], p1, p2) else LastValue(parts[..i], p1, p2)
  {
    assert parts[..i + 1][..i] == parts[..i];
  }

  // ---------------------------------------------------------------------
  // One channel
  // ---------------------------------------------------------------------

  /** `proxy + "/" + url` with `udp://` and `rtp://` turned into `udp/`
      and `rtp/` and the doubled slash before them collapsed. */
  function ProxyPath(proxy: string, url: string): string {
    var u := proxy + "/" + Replace(Replace(url, "udp://", "udp/"), "rtp://", "rtp/");
    Replace(Replace(u, "//udp/", "/udp/"), "//rtp/", "/rtp/")
  }

  /** The UDP/RTP multicast rewrite through a udpxy-style proxy. */
  function ProxyRewrite(proxy: string, url: string): (r: string)
    ensures !(proxy != "" && (StartsWith(url, "udp://") || StartsWith(url, "rtp://"))) ==> r == url
    ensures proxy != "" && (StartsWith(url, "udp://") || StartsWith(url, "rtp://")) ==> '@' !in r
  {
    if proxy != "" && (StartsWith(url, "udp://") || StartsWith(url, "rtp://")) then
      var v := ProxyPath(proxy, url);
      ReplaceRemovesChar(v, '@', "");
      Replace(v, "@", "")
    else url
  }
  /** A proxy address that cannot end a doubled slash before `udp/` or
      `rtp/`: it does not end in `/` and holds neither `//udp` nor `//rtp`. */
  predicate PlainProxy(proxy: string) {
    proxy != "" && proxy[|proxy| - 1] != '/' && !Contains(proxy, "//udp") && !Contains(proxy, "//rtp")
  }

  /** A stream path without a doubled or a leading slash. */
  predicate PlainPath(rest: string) {
    (rest == [] || rest[0] != '/') && !Contains(rest, "//")
  }

  /** `proxy/scheme/rest` holds no `//udp/` and no `//rtp/`. */
  lemma NoDoubledSlash(proxy: string, scheme: string, rest: string, pat: string)
    requires scheme == "udp" || scheme == "rtp"
    requires pat == "//udp/" || pat == "//rtp/"
    requires PlainProxy(proxy) && PlainPath(rest)
    ensures !Contains(proxy + "/" + scheme + "/" + rest, pat)
  {
    var u := proxy + "/" + scheme + "/" + rest;
    forall j | 0 <= j ensures !OccursAt(u, pat, j) {
      NoDoubledSlashAt(proxy, scheme, rest, pat, j);
    }
  }

  lemma NoDoubledSlashAt(proxy: string, scheme: string, rest: string, pat: string, j: int)
    requires scheme == "udp" || scheme == "rtp"
    requires pat == "//udp/" || pat == "//rtp/"
    requires PlainProxy(proxy) && PlainPath(rest)
    requires 0 <= j
    ensures !OccursAt(proxy + "/" + scheme + "/" + rest, pat, j)
  {
    var u := proxy + "/" + scheme + "/" + rest;
    var n := |proxy|;
    if j + 6 > |u| {
    } else if j + 5 <= n {
      NotInProxy(proxy, scheme + "/" + rest, pat, j);
      assert u == proxy + ("/" + scheme + "/" + rest);
    } else if j >= n + 5 {
      NotInRest(proxy + "/" + scheme + "/", rest, pat, j);
    } else {
      NotAtJoint(proxy, scheme, rest, pat, j);
    }
  }

  lemma NotInProxy(proxy: string, t: string, pat: string, j: int)
    requires pat == "//udp/" || pat == "//rtp/"
    requires !Contains(proxy, "//udp") && !Contains(proxy, "//rtp")
    requires 0 <= j && j + 5 <= |proxy|
    ensures !OccursAt(proxy + ("/" + t), pat, j)
  {
    var u := proxy + ("/" + t);
    assert u[j..j + 5] == proxy[j..j + 5];
    var q := if pat == "//udp/" then "//udp" else "//rtp";
    assert q == pat[..5];
    assert !OccursAt(proxy, q, j);
    if j + 6 <= |u| {
      assert u[j..j + 6][..5] == u[j..j + 5];
    }
  }

  lemma NotInRest(x: string, rest: string, pat: string, j: int)
    requires pat == "//udp/" || pat == "//rtp/"
    requires !Contains(rest, "//")
    requires j >= |x|
    ensures !OccursAt(x + rest, pat, j)
  {
    var u := x + rest;
    if j + 6 <= |u| {
      assert u[j..j + 2] == rest[j - |x|..j - |x| + 2];
      assert u[j..j + 6][..2] == u[j..j + 2];
      assert !OccursAt(rest, "//", j - |x|);
    }
  }

  lemma NotAtJoint(proxy: string, scheme: string, rest: string, pat: string, j: int)
    requires scheme == "udp" || scheme == "rtp"
    requires pat == "//udp/" || pat == "//rtp/"
    requires PlainProxy(proxy) && PlainPath(rest)
    requires |proxy| - 5 < j < |proxy| + 5
    ensures !OccursAt(proxy + "/" + scheme + "/" + rest, pat, j)
  {
    var u := proxy + "/" + scheme + "/" + rest;
    var n := |proxy|;
    if j == n - 1 {
      OccursAtMismatch(u, pat, j, 0);
    } else if j < n {
      OccursAtMismatch(u, pat, j, n - j);
    } else if j == n {
      OccursAtMismatch(u, pat, j, 1);
    } else if j < n + 4 {
      OccursAtMismatch(u, pat, j, 0);
    } else {
      OccursAtMismatch(u, pat, j, 1);
    }
  }

  /** `udp://rest` becomes `udp/rest` and `rtp://rest` becomes `rtp/rest`. */
  lemma SchemeRewritten(scheme: string, rest: string)
    requires scheme == "udp" || scheme == "rtp"
    requires PlainPath(rest)
    ensures Replace(Replace(scheme + "://" + rest, "udp://", "udp/"), "rtp://", "rtp/") == scheme + "/" + rest
  {
    assert !Contains(rest, "udp://") && !Contains(rest, "rtp://") by {
      if Contains(rest, "udp://") {
        ContainsInner(rest, "udp://", "//", 4);
      }
      if Contains(rest, "rtp://") {
        ContainsInner(rest, "rtp://", "//", 4);
      }
    }
    if scheme == "udp" {
      UdpRewritten(rest);
    } else {
      RtpRewritten(rest);
    }
  }

  lemma UdpRewritten(rest: string)
    requires !Contains(rest, "udp://") && !Contains(rest, "rtp://")
    ensures Replace(Replace("udp" + "://" + rest, "udp://", "udp/"), "rtp://", "rtp/") == "udp" + "/" + rest
  {
    var url := "udp" + "://" + rest;
    ReplaceAbsent(rest, "udp://", "udp/");
    assert url[6..] == rest;
    assert Replace(url, "udp://", "udp/") == "udp/" + rest;
    forall k | 0 <= k < 4 ensures !StartsWith(("udp/" + rest)[k..], "rtp://") {
      assert ("udp/" + rest)[k..][0] == "udp/"[k];
    }
    ReplaceSkipsPrefix("udp/", rest, "rtp://", "rtp/");
    ReplaceAbsent(rest, "rtp://", "rtp/");
  }

  lemma RtpRewritten(rest: string)
    requires !Contains(rest, "udp://") && !Contains(rest, "rtp://")
    ensures Replace(Replace("rtp" + "://" + rest, "udp://", "udp/"), "rtp://", "rtp/") == "rtp" + "/" + rest
  {
    var url := "rtp" + "://" + rest;
    assert url == "rtp://" + rest;
    forall k | 0 <= k < 6 ensures !StartsWith(("rtp://" + rest)[k..], "udp://") {
      assert ("rtp://" + rest)[k..][0] == "rtp://"[k];
    }
    ReplaceSkipsPrefix("rtp://", rest, "udp://", "udp/");
    ReplaceAbsent(rest, "udp://", "udp/");
    assert url[6..] == rest;
    ReplaceAbsent(rest, "rtp://", "rtp/");
  }

  /** `udp://rest` through `proxy` becomes `proxy/udp/rest`, and
      `rtp://rest` becomes `proxy/rtp/rest`. */
  lemma ProxyPathForm(proxy: string, scheme: string, rest: string)
    requires scheme == "udp" || scheme == "rtp"
    requires PlainProxy(proxy) && PlainPath(rest)
    ensures ProxyPath(proxy, scheme + "://" + rest) == proxy + "/" + scheme + "/" + rest
  {
    SchemeRewritten(scheme, rest);
    var u := proxy + "/" + Replace(Replace(scheme + "://" + rest, "udp://", "udp/"), "rtp://", "rtp/");
    assert u == proxy + "/" + scheme + "/" + rest;
    NoDoubledSlash(proxy, scheme, rest, "//udp/");
    NoDoubledSlash(proxy, scheme, rest, "//rtp/");
    ReplaceAbsent(u, "//udp/", "/udp/");
    ReplaceAbsent(u, "//rtp/", "/rtp/");
  }

  /** Through a proxy written with a trailing `/`, the doubled slash is
      collapsed: `udp://rest` still becomes `proxy/udp/rest`. */
  lemma ProxyPathSlashForm(proxy: string, scheme: string, rest: string)
    requires scheme == "udp" || scheme == "rtp"
    requires PlainProxy(proxy) && PlainPath(rest)
    ensures ProxyPath(proxy + "/", scheme + "://" + rest) == proxy + "/" + scheme + "/" + rest
  {
    SchemeRewritten(scheme, rest);
    SlashShapes(proxy, scheme, rest);
    SlashCollapsed(proxy, scheme, rest);
  }

  lemma SlashShapes(proxy: string, scheme: string, rest: string)
    ensures (proxy + "/") + "/" + (scheme + "/" + rest) == proxy + ("//" + scheme + "/" + rest)
    ensures proxy + "/" + scheme + "/" + rest == proxy + ("/" + scheme + "/" + rest)
  {
    assert "/" + "/" == "//";
  }

  lemma SlashCollapsed(proxy: string, scheme: string, rest: string)
    requires scheme == "udp" || scheme == "rtp"
    requires PlainProxy(proxy) && PlainPath(rest)
    ensures Replace(Replace(proxy + ("//" + scheme + "/" + rest), "//udp/", "/udp/"), "//rtp/", "/rtp/")
            == proxy + ("/" + scheme + "/" + rest)
  {
    if scheme == "udp" {
      UdpSlashCollapsed(proxy, rest);
    } else {
      RtpSlashCollapsed(proxy, rest);
    }
  }

  lemma UdpSlashCollapsed(proxy: string, rest: string)
    requires PlainProxy(proxy) && PlainPath(rest)
    ensures Replace(Replace(proxy + ("//" + "udp" + "/" + rest), "//udp/", "/udp/"), "//rtp/", "/rtp/")
            == proxy + ("/" + "udp" + "/" + rest)
  {
    assert "//" + "udp" + "/" == "//udp/" && "/" + "udp" + "/" == "/udp/";
    CollapseAt(proxy, "udp", rest);
    var w := proxy + ("/" + "udp" + "/" + rest);
    assert Replace(proxy + ("//" + "udp" + "/" + rest), "//udp/", "/udp/") == w;
    NoDoubledSlash(proxy, "udp", rest, "//rtp/");
    assert w == proxy + "/" + "udp" + "/" + rest;
    ReplaceAbsent(w, "//rtp/", "/rtp/");
  }

  lemma RtpSlashCollapsed(proxy: string, rest: string)
    requires PlainProxy(proxy) && PlainPath(rest)
    ensures Replace(Replace(proxy + ("//" + "rtp" + "/" + rest), "//udp/", "/udp/"), "//rtp/", "/rtp/")
            == proxy + ("/" + "rtp" + "/" + rest)
  {
    var u := proxy + ("//" + "rtp" + "/" + rest);
    NoUdpBeforeRtp(proxy, rest);
    ReplaceAbsent(u, "//udp/", "/udp/");
    assert "//" + "rtp" + "/" == "//rtp/" && "/" + "rtp" + "/" == "/rtp/";
    CollapseAt(proxy, "rtp", rest);
  }

  /** `proxy//scheme/rest` with its one `//scheme/` collapsed. */
  lemma CollapseAt(proxy: string, scheme: string, rest: string)
    requires scheme == "udp" || scheme == "rtp"
    requires PlainProxy(proxy) && PlainPath(rest)
    ensures var pat, rep := "//" + scheme + "/", "/" + scheme + "/";
            Replace(proxy + (pat + rest), pat, rep) == proxy + (rep + rest)
  {
    var pat, rep := "//" + scheme + "/", "/" + scheme + "/";
    forall k | 0 <= k < |proxy| ensures !StartsWith((proxy + (pat + rest))[k..], pat) {
      NotBeforeCollapse(proxy, scheme, rest, k);
    }
    assert !Contains(rest, pat) by {
      if Contains(rest, pat) {
        ContainsInner(rest, pat, "//", 0);
      }
    }
    ReplaceOnceAfter(proxy, pat, rest, rep);
  }

  lemma NotBeforeCollapse(proxy: string, scheme: string, rest: string, k: int)
    requires scheme == "udp" || scheme == "rtp"
    requires PlainProxy(proxy) && 0 <= k < |proxy|
    ensures !StartsWith((proxy + ("//" + scheme + "/" + rest))[k..], "//" + scheme + "/")
  {
    var pat := "//" + scheme + "/";
    var u := proxy + (pat + rest);
    var n := |proxy|;
    OccursAtStartsWith(u, pat, k);
    if k + 5 <= n {
      assert pat == "//udp/" || pat == "//rtp/";
      assert u == proxy + ("/" + ("/" + scheme + "/" + rest));
      NotInProxy(proxy, "/" + scheme + "/" + rest, pat, k);
    } else if k == n - 1 {
      OccursAtMismatch(u, pat, k, 0);
    } else {
      OccursAtMismatch(u, pat, k, n - k);
    }
  }

  /** `proxy//rtp/rest` holds no `//udp/`. */
  lemma NoUdpBeforeRtp(proxy: string, rest: string)
    requires PlainProxy(proxy) && PlainPath(rest)
    ensures !Contains(proxy + ("//" + "rtp" + "/" + rest), "//udp/")
  {
    var pat := "//udp/";
    var x := "//rtp/";
    var u := proxy + x + rest;
    assert proxy + ("//" + "rtp" + "/" + rest) == u;
    var n := |proxy|;
    forall j | 0 <= j ensures !OccursAt(u, pat, j) {
      if j + 6 > |u| {
      } else if j + 5 <= n {
        assert u == proxy + ("/" + ("/rtp/" + rest));
        NotInProxy(proxy, "/rtp/" + rest, pat, j);
      } else if j >= n + 6 {
        NotInRest(proxy + x, rest, pat, j);
      } else {
        SlashJoint(proxy, rest, j);
      }
    }
  }

  lemma SlashJoint(proxy: string, rest: string, j: int)
    requires PlainProxy(proxy) && PlainPath(rest)
    requires |proxy| - 5 < j < |proxy| + 6 && j + 6 <= |proxy| + 6 + |rest|
    ensures !OccursAt(proxy + "//rtp/" + rest, "//udp/", j)
  {
    var u := proxy + "//rtp/" + rest;
    var n := |proxy|;
    if j == n - 1 {
      OccursAtMismatch(u, "//udp/", j, 0);
    } else if j < n {
      OccursAtMismatch(u, "//udp/", j, n - j);
    } else if j == n {
      OccursAtMismatch(u, "//udp/", j, 2);
    } else if j == n + 1 || j == n + 5 {
      OccursAtMismatch(u, "//udp/", j, 1);
    } else {
      OccursAtMismatch(u, "//udp/", j, 0);
    }
  }

  /** The rewrite `parse_channel` applies: `proxy/udp/rest` or
      `proxy/rtp/rest`, for a stream address without `@`. */
  /** A udp or rtp URL through a non-empty proxy takes the rewrite branch. */
  lemma RewriteIsPath(proxy: string, scheme: string, rest: string)
    requires scheme == "udp" || scheme == "rtp"
    requires proxy != ""
    ensures ProxyRewrite(proxy, scheme + "://" + rest) == Replace(ProxyPath(proxy, scheme + "://" + rest), "@", "")
  {
    var url := scheme + "://" + rest;
    assert url[..6] == scheme + "://";
    assert StartsWith(url, "udp://") || StartsWith(url, "rtp://");
  }

  /** Dropping `@` leaves `proxy/scheme/rest` alone when neither part holds one. */
  lemma NothingToDrop(proxy: string, scheme: string, rest: string)
    requires scheme == "udp" || scheme == "rtp"
    requires '@' !in proxy && '@' !in rest
    ensures Replace(proxy + "/" + scheme + "/" + rest, "@", "") == proxy + "/" + scheme + "/" + rest
  {
    var v := proxy + "/" + scheme + "/" + rest;
    assert '@' !in v;
    ContainsChar(v, '@');
    ReplaceAbsent(v, "@", "");
  }

  lemma ProxyRewriteForm(proxy: string, scheme: string, rest: string)
    requires scheme == "udp" || scheme == "rtp"
    requires PlainProxy(proxy) && PlainPath(rest) && '@' !in proxy && '@' !in rest
    ensures ProxyRewrite(proxy, scheme + "://" + rest) == proxy + "/" + scheme + "/" + rest
  {
    RewriteIsPath(proxy, scheme, rest);
    ProxyPathForm(proxy, scheme, rest);
    NothingToDrop(proxy, scheme, rest);
  }

  /** The usual multicast address `udp://@group:port`: the rewrite drops
      the `@`, giving `proxy/udp/group:port`. */
  lemma ProxyRewriteDropsAt(proxy: string, scheme: string, host: string)
    requires scheme == "udp" || scheme == "rtp"
    requires PlainProxy(proxy) && PlainPath(host) && '@' !in proxy && '@' !in host
    ensures ProxyRewrite(proxy, scheme + "://@" + host) == proxy + "/" + scheme + "/" + host
  {
    var rest := "@" + host;
    AtPathIsPlain(host);
    assert scheme + "://@" + host == scheme + "://" + rest;
    RewriteIsPath(proxy, scheme, rest);
    ProxyPathForm(proxy, scheme, rest);
    DropsAtOnly(proxy, scheme, host);
  }

  /** The same rewrite through a proxy written with a trailing `/`. */
  lemma ProxyRewriteSlashForm(proxy: string, scheme: string, rest: string)
    requires scheme == "udp" || scheme == "rtp"
    requires PlainProxy(proxy) && PlainPath(rest) && '@' !in proxy && '@' !in rest
    ensures ProxyRewrite(proxy + "/", scheme + "://" + rest) == proxy + "/" + scheme + "/" + rest
  {
    RewriteIsPath(proxy + "/", scheme, rest);
    ProxyPathSlashForm(proxy, scheme, rest);
    NothingToDrop(proxy, scheme, rest);
  }

  /** `udp://@group:port` through a proxy with a trailing `/` gives
      `proxy/udp/group:port`: one slash, no `@`. */
  lemma ProxyRewriteSlashDropsAt(proxy: string, scheme: string, host: string)
    requires scheme == "udp" || scheme == "rtp"
    requires PlainProxy(proxy) && PlainPath(host) && '@' !in proxy && '@' !in host
    ensures ProxyRewrite(proxy + "/", scheme + "://@" + host) == proxy + "/" + scheme + "/" + host
  {
    var rest := "@" + host;
    AtPathIsPlain(host);
    assert scheme + "://@" + host == scheme + "://" + rest;
    RewriteIsPath(proxy + "/", scheme, rest);
    ProxyPathSlashForm(proxy, scheme, rest);
    DropsAtOnly(proxy, scheme, host);
  }

  /** The one `@` in front of the host is the only one dropped. */
  lemma DropsAtOnly(proxy: string, scheme: string, host: string)
    requires scheme == "udp" || scheme == "rtp"
    requires '@' !in proxy && '@' !in host
    ensures Replace(proxy + "/" + scheme + "/" + ("@" + host), "@", "") == proxy + "/" + scheme + "/" + host
  {
    var x := proxy + "/" + scheme + "/";
    assert proxy + "/" + scheme + "/" + ("@" + host) == x + "@" + host;
    assert '@' !in x;
    ReplaceOnlyChar(x, '@', host);
  }

  /** `udp://@host/1` through `http://proxy/` is `http://proxy/udp/host/1`. */
  lemma ProxyRewriteSlashExample()
    ensures ProxyRewrite("http://proxy/", "udp://@host/1") == "http://proxy/udp/host/1"
  {
    ExampleProxyIsPlain();
    ExamplePathIsPlain();
    ExampleStrings();
    ProxyRewriteSlashDropsAt("http://proxy", "udp", "host/1");
  }

  lemma AtPathIsPlain(host: string)
    requires PlainPath(host)
    ensures PlainPath("@" + host)
  {
    var rest := "@" + host;
    forall j | 0 <= j ensures !OccursAt(rest, "//", j) {
      if j == 0 {
        OccursAtMismatch(rest, "//", j, 0);
      } else if j + 2 <= |rest| {
        assert rest[j..j + 2] == host[j - 1..j + 1];
        assert !OccursAt(host, "//", j - 1);
      }
    }
  }

  /** `udp://host/1` through `http://proxy` is `http://proxy/udp/host/1`. */
  lemma ProxyRewriteExample()
    ensures ProxyRewrite("http://proxy", "udp://host/1") == "http://proxy/udp/host/1"
  {
    ExampleProxyIsPlain();
    ExamplePathIsPlain();
    ExampleStrings();
    ProxyRewriteForm("http://proxy", "udp", "host/1");
  }

  /** How the example URLs split into proxy, scheme and path. */
  lemma ExampleStrings()
    ensures "udp" + "://" + "host/1" == "udp://host/1"
    ensures "udp" + "://@" + "host/1" == "udp://@host/1"
    ensures "http://proxy" + "/" == "http://proxy/"
    ensures "http://proxy" + "/" + "udp" + "/" + "host/1" == "http://proxy/udp/host/1"
    ensures '@' !in "http://proxy" && '@' !in "host/1"
  {
    assert "udp" + "://" + "host/1" == "udp://host/1";
    assert "udp" + "://@" + "host/1" == "udp://@host/1";
    assert "http://proxy" + "/" == "http://proxy/";
    assert "http://proxy" + "/" + "udp" + "/" + "host/1" == "http://proxy/udp/host/1";
  }

  lemma ExampleProxyIsPlain()
    ensures PlainProxy("http://proxy")
  {
    var proxy := "http://proxy";
    forall j | 0 <= j ensures !OccursAt(proxy, "//udp", j) && !OccursAt(proxy, "//rtp", j) {
      var k := if j == 5 then 2 else if j < 5 then 0 else 1;
      OccursAtMismatch(proxy, "//udp", j, k);
      OccursAtMismatch(proxy, "//rtp", j, k);
    }
  }

  lemma ExamplePathIsPlain()
    ensures PlainPath("host/1")
  {
    forall j | 0 <= j ensures !OccursAt("host/1", "//", j) {
      OccursAtMismatch("host/1", "//", j, if j == 4 then 1 else 0);
    }
  }

  /** The `ch_array` dictionary as `parse_channel` first builds it from the
      EXTINF line, before the tvg-ID, Kodi and override updates. */
  function ChArray(allChannels: string, info: string, url: string): Channel {
    var tvgUrl := ParseRegexp("tvg-url", info, "");
    var urlTvg := ParseRegexp("url-tvg", info, "");
    var group := ParseRegexp("group-title", info, allChannels);
    var catchupTag := ParseRegexp("catchup", info, "");
    Channel(
      title := TitleOf(info),
      tvgName := ParseRegexp("tvg-name", info, ""),
      tvgId := ParseRegexp("tvg-id", info, ""),
      tvgLogo := ParseRegexp("tvg-logo", info, ""),
      tvgGroup := if group == "" then allChannels else group,
      tvgUrl := if tvgUrl == "" && urlTvg != "" then urlTvg else tvgUrl,
      catchup := if catchupTag == "" then ParseRegexp("catchup-type", info, "default") else catchupTag,
      catchupSource := ParseRegexp("catchup-source", info, ""),
      catchupDays := ParseRegexp(CATCHUP_DAYS, info, DEFAULT_CATCHUP_DAYS),
      useragent := ParseRegexp("user-agent", info, ""),
      referer := "",
      url := url)
  }

  /** The override loop: every key present in the overrides replaces the
      channel's value, and no other field changes. */
  function WithOverrides(ch: Channel, ov: Overrides): (r: Channel)
    ensures r.tvgGroup == ov.group.GetOr(ch.tvgGroup) && r.tvgLogo == ov.logo.GetOr(ch.tvgLogo)
    ensures r.useragent == ov.useragent.GetOr(ch.useragent) && r.referer == ov.referer.GetOr(ch.referer)
    ensures r.(tvgGroup := ch.tvgGroup, tvgLogo := ch.tvgLogo, useragent := ch.useragent, referer := ch.referer) == ch
  {
    var ch1 := if ov.group.Some? then ch.(tvgGroup := ov.group.value) else ch;
    var ch2 := if ov.logo.Some? then ch1.(tvgLogo := ov.logo.value) else ch1;
    var ch3 := if ov.useragent.Some? then ch2.(useragent := ov.useragent.value) else ch2;
    if ov.referer.Some? then ch3.(referer := ov.referer.value) else ch3
  }

  /** `parse_channel(line_info, ch_url, overrides)` with `_('All channels')` as `allChannels`. */
  function ChannelOf(proxy: string, allChannels: string, info: string, chUrl: string, ov: Overrides): Channel {
    var ch := ChArray(allChannels, info, ProxyRewrite(proxy, chUrl));
    var tvgId2 := ParseRegexp("tvg-ID", info, "");
    var ch1 := if tvgId2 != "" && ch.tvgId == "" then ch.(tvgId := tvgId2) else ch;
    var kodi := KodiArguments(ch1.url);
    var ch2 := if kodi.1 != "" then ch1.(useragent := kodi.1) else ch1;
    var ch3 := if kodi.2 != "" then ch2.(referer := kodi.2) else ch2;
    WithOverrides(ch3.(url := kodi.0), ov)
  }

  /** The tvg-ID and Kodi updates touch only tvg-ID, user agent, referer
      and URL, and the overrides only group, logo, user agent and referer:
      every other field keeps the value the EXTINF line gave it. */
  lemma ChannelStages(proxy: string, allChannels: string, info: string, chUrl: string, ov: Overrides)
    ensures var base := ChArray(allChannels, info, ProxyRewrite(proxy, chUrl));
            var ch := ChannelOf(proxy, allChannels, info, chUrl, ov);
            ch.title == base.title && ch.tvgName == base.tvgName && ch.tvgUrl == base.tvgUrl
            && ch.catchup == base.catchup && ch.catchupSource == base.catchupSource
            && ch.catchupDays == base.catchupDays
            && ch.url == KodiArguments(base.url).0
            && ch.tvgGroup == ov.group.GetOr(base.tvgGroup) && ch.tvgLogo == ov.logo.GetOr(base.tvgLogo)
            && (ov.useragent.Some? ==> ch.useragent == ov.useragent.value)
            && (ov.referer.Some? ==> ch.referer == ov.referer.value)
  {
    var base := ChArray(allChannels, info, ProxyRewrite(proxy, chUrl));
    var tvgId2 := ParseRegexp("tvg-ID", info, "");
    var ch1 := if tvgId2 != "" && base.tvgId == "" then base.(tvgId := tvgId2) else base;
    var kodi := KodiArguments(ch1.url);
    var ch2 := if kodi.1 != "" then ch1.(useragent := kodi.1) else ch1;
    var ch3 := if kodi.2 != "" then ch2.(referer := kodi.2) else ch2;
    assert ChannelOf(proxy, allChannels, info, chUrl, ov) == WithOverrides(ch3.(url := kodi.0), ov);
  }

  /** The precedence `parse_channel` gives the sources of a channel's
      tvg-id, user agent, referer and URL: `tvg-id` over `tvg-ID`; for
      the user agent, an #EXTVLCOPT override over a non-empty Kodi
      argument over the `user-agent` attribute; for the referer, the
      override over the Kodi argument; and the URL without its Kodi
      arguments, after the proxy rewrite. */
  lemma ChannelPrecedence(proxy: string, allChannels: string, info: string, chUrl: string, ov: Overrides)
    ensures var ch := ChannelOf(proxy, allChannels, info, chUrl, ov);
            var kodi := KodiArguments(ProxyRewrite(proxy, chUrl));
            var tvgId := ParseRegexp("tvg-id", info, "");
            ch.tvgId == (if tvgId != "" then tvgId else ParseRegexp("tvg-ID", info, ""))
            && ch.useragent == ov.useragent.GetOr(if kodi.1 != "" then kodi.1 else ParseRegexp("user-agent", info, ""))
            && ch.referer == ov.referer.GetOr(kodi.2)
            && ch.url == kodi.0
  {
    var base := ChArray(allChannels, info, ProxyRewrite(proxy, chUrl));
    var tvgId2 := ParseRegexp("tvg-ID", info, "");
    var ch1 := if tvgId2 != "" && base.tvgId == "" then base.(tvgId := tvgId2) else base;
    var kodi := KodiArguments(ch1.url);
    var ch2 := if kodi.1 != "" then ch1.(useragent := kodi.1) else ch1;
    var ch3 := if kodi.2 != "" then ch2.(referer := kodi.2) else ch2;
    assert ChannelOf(proxy, allChannels, info, chUrl, ov) == WithOverrides(ch3.(url := kodi.0), ov);
  }

  /** What every parsed channel guarantees: its URL carries no Kodi
      arguments, its catch-up depth is an integer, it has a group, and
      a non-empty override always wins. */
  lemma ChannelOfFacts(proxy: string, allChannels: string, info: string, chUrl: string, ov: Overrides)
    ensures var ch := ChannelOf(proxy, allChannels, info, chUrl, ov);
            WellFormedChannel(ch)
            && (allChannels != "" && OverridesNonEmpty(ov) ==> ch.tvgGroup != "")
            && (ov.useragent.Some? ==> ch.useragent == ov.useragent.value)
            && (ov.referer.Some? ==> ch.referer == ov.referer.value)
            && (ov.logo.Some? ==> ch.tvgLogo == ov.logo.value)
            && (ov.group.Some? ==> ch.tvgGroup == ov.group.value)
  {
    var base := ChArray(allChannels, info, ProxyRewrite(proxy, chUrl));
    ChannelStages(proxy, allChannels, info, chUrl, ov);
    CatchupDaysIsInteger(info);
    assert base.catchupDays == ParseRegexp(CATCHUP_DAYS, info, DEFAULT_CATCHUP_DAYS);
    assert allChannels != "" ==> base.tvgGroup != "";
  }

  /** The channel URL never carries Kodi arguments and `catchup-days` parses as an integer. */
  predicate WellFormedChannel(ch: Channel) {
    '|' !in ch.url && ParsePyInt(ch.catchupDays).Some?
  }

  lemma ChannelCatchup(proxy: string, allChannels: string, info: string, chUrl: string, ov: Overrides)
    ensures var tag := ParseRegexp("catchup", info, "");
            ChannelOf(proxy, allChannels, info, chUrl, ov).catchup
            == if tag == "" then ParseRegexp("catchup-type", info, "default") else tag
  {
    ChannelStages(proxy, allChannels, info, chUrl, ov);
  }

  /** Without a catchup attribute the channel falls back to `catchup-type`,
      and to "default" when that is absent too. */
  lemma CatchupFallback(proxy: string, allChannels: string, info: string, chUrl: string, ov: Overrides)
    requires AttrMatch("catchup", info).None? && AttrMatch("catchup-type", info).None?
    ensures ChannelOf(proxy, allChannels, info, chUrl, ov).catchup == "default"
  {
    ChannelCatchup(proxy, allChannels, info, chUrl, ov);
    AbsentAttribute("catchup", info, "");
    AbsentAttribute("catchup-type", info, "default");
  }

  /** `tvg-url` wins over `url-tvg`, which is used only when `tvg-url` reads empty. */
  lemma EpgUrlPrecedence(proxy: string, allChannels: string, info: string, chUrl: string, ov: Overrides)
    ensures var tvgUrl := ParseRegexp("tvg-url", info, "");
            var urlTvg := ParseRegexp("url-tvg", info, "");
            ChannelOf(proxy, allChannels, info, chUrl, ov).tvgUrl == if tvgUrl != "" then tvgUrl else urlTvg
  {
    ChannelStages(proxy, allChannels, info, chUrl, ov);
  }

  // ---------------------------------------------------------------------
  // The playlist
  // ---------------------------------------------------------------------

  /** The EPG URL of an #EXTM3U header: `x-tvg-url`, else `tvg-url`,
      else `url-tvg`; "" when the chosen attribute has no closing quote. */
  function HeaderEpgUrl(line: string): string {
    if Contains(line, "x-tvg-url=\"") then AttrMatch("x-tvg-url", line).GetOr("")
    else if Contains(line, "tvg-url=\"") then AttrMatch("tvg-url", line).GetOr("")
    else AttrMatch("url-tvg", line).GetOr("")
  }

  /** `x-tvg-url` has priority; `tvg-url` is read only when `x-tvg-url="`
      does not occur, and `url-tvg` only when `tvg-url="` does not occur
      either (`x-tvg-url="` contains `tvg-url="`). */
  lemma HeaderEpgUrlSpec(line: string)
    ensures var r := HeaderEpgUrl(line);
            (AttrMatch("x-tvg-url", line).Some? ==> r == AttrMatch("x-tvg-url", line).value)
            && (!Contains(line, "x-tvg-url=\"") && AttrMatch("tvg-url", line).Some? ==>
                  r == AttrMatch("tvg-url", line).value)
            && (!Contains(line, "tvg-url=\"") ==> r == AttrMatch("url-tvg", line).GetOr(""))
  {
    assert "x-tvg-url" + "=\"" == "x-tvg-url=\"";
    assert "tvg-url" + "=\"" == "tvg-url=\"";
    if Contains(line, "x-tvg-url=\"") {
      assert OccursAt("x-tvg-url=\"", "tvg-url=\"", 2);
      ContainsInner(line, "x-tvg-url=\"", "tvg-url=\"", 2);
    }
  }

  /** The four override keys a tag line can set. */
  datatype Key = Group | Logo | UserAgent | Referer

  /** The override stored under a key. */
  function Get(ov: Overrides, k: Key): Option<string> {
    match k
    case Group => ov.group
    case Logo => ov.logo
    case UserAgent => ov.useragent
    case Referer => ov.referer
  }

  /** `line.replace(tag, '').strip()` */
  function TagText(line1: string, tag: string): string
    requires |tag| > 0
  {
    Strip(Replace(line1, tag, ""))
  }

  /** The value a buffered line offers for a key. */
  function KeyValue(line1: string, k: Key): string {
    match k
    case Group => TagText(line1, "#EXTGRP:")
    case Logo => TagText(line1, "#EXTLOGO:")
    case UserAgent => TagText(TagText(line1, "#EXTVLCOPT:"), "http-user-agent=")
    case Referer => TagText(TagText(line1, "#EXTVLCOPT:"), "http-referrer=")
  }

  /** The line is the tag for the key and offers a non-empty value. */
  predicate SetsKey(line1: string, k: Key) {
    KeyValue(line1, k) != "" &&
    match k
    case Group => StartsWith(line1, "#EXTGRP:")
    case Logo => StartsWith(line1, "#EXTLOGO:")
    case UserAgent =>
      StartsWith(line1, "#EXTVLCOPT:") && StartsWith(TagText(line1, "#EXTVLCOPT:"), "http-user-agent=")
    case Referer =>
      StartsWith(line1, "#EXTVLCOPT:") && StartsWith(TagText(line1, "#EXTVLCOPT:"), "http-referrer=")
  }

  /** An `#EXTGRP:` line with a non-empty group sets the group override. */
  function GroupTag(ov: Overrides, line1: string): (r: Overrides)
    ensures r.(group := ov.group) == ov
    ensures r.group != ov.group ==> StartsWith(line1, "#EXTGRP:") && r.group.Some? && r.group.value != ""
  {
    var group1 := Strip(Replace(line1, "#EXTGRP:", ""));
    if StartsWith(line1, "#EXTGRP:") && group1 != "" then ov.(group := Some(group1)) else ov
  }

  /** An `#EXTLOGO:` line with a non-empty logo sets the logo override. */
  function LogoTag(ov: Overrides, line1: string): (r: Overrides)
    ensures r.(logo := ov.logo) == ov
    ensures r.logo != ov.logo ==> StartsWith(line1, "#EXTLOGO:") && r.logo.Some? && r.logo.value != ""
  {
    var logo1 := Strip(Replace(line1, "#EXTLOGO:", ""));
    if StartsWith(line1, "#EXTLOGO:") && logo1 != "" then ov.(logo := Some(logo1)) else ov
  }

  /** An `#EXTVLCOPT:` line sets the user agent (`http-user-agent=`) or the
      referer (`http-referrer=`) override when the value is non-empty. */
  function VlcOptTag(ov: Overrides, line1: string): (r: Overrides)
    ensures r.(useragent := ov.useragent, referer := ov.referer) == ov
    ensures r.useragent != ov.useragent ==> StartsWith(line1, "#EXTVLCOPT:") && r.useragent.Some? && r.useragent.value != ""
    ensures r.referer != ov.referer ==> StartsWith(line1, "#EXTVLCOPT:") && r.referer.Some? && r.referer.value != ""
  {
    var extvlcopt := Strip(Replace(line1, "#EXTVLCOPT:", ""));
    var agent := Strip(Replace(extvlcopt, "http-user-agent=", ""));
    var referer := Strip(Replace(extvlcopt, "http-referrer=", ""));
    var ov1 :=
      if StartsWith(line1, "#EXTVLCOPT:") && StartsWith(extvlcopt, "http-user-agent=") && agent != ""
      then ov.(useragent := Some(agent)) else ov;
    if StartsWith(line1, "#EXTVLCOPT:") && StartsWith(extvlcopt, "http-referrer=") && referer != ""
    then ov1.(referer := Some(referer)) else ov1
  }

  /** The override each tag function sets: the line's value for the key,
      exactly when the line sets that key. */
  lemma GroupTagSets(ov: Overrides, line1: string)
    ensures GroupTag(ov, line1).group
            == if SetsKey(line1, Group) then Some(KeyValue(line1, Group)) else ov.group
  {
  }

  lemma LogoTagSets(ov: Overrides, line1: string)
    ensures LogoTag(ov, line1).logo
            == if SetsKey(line1, Logo) then Some(KeyValue(line1, Logo)) else ov.logo
  {
  }

  lemma VlcOptTagSets(ov: Overrides, line1: string)
    ensures var r := VlcOptTag(ov, line1);
            r.useragent == (if SetsKey(line1, UserAgent) then Some(KeyValue(line1, UserAgent)) else ov.useragent)
            && r.referer == (if SetsKey(line1, Referer) then Some(KeyValue(line1, Referer)) else ov.referer)
  {
  }

  /** `#EXTGRP:News` makes the group `News`: the value is the rest of the
      line, stripped, when that rest does not repeat the tag. */
  lemma GroupTagValue(ov: Overrides, v: string)
    requires !Contains(v, "#EXTGRP:")
    ensures GroupTag(ov, "#EXTGRP:" + v).group == if Strip(v) != "" then Some(Strip(v)) else ov.group
  {
    ReplaceLeadingTag("#EXTGRP:", v);
  }

  /** `#EXTLOGO:url` makes the logo `url`, likewise. */
  lemma LogoTagValue(ov: Overrides, v: string)
    requires !Contains(v, "#EXTLOGO:")
    ensures LogoTag(ov, "#EXTLOGO:" + v).logo == if Strip(v) != "" then Some(Strip(v)) else ov.logo
  {
    ReplaceLeadingTag("#EXTLOGO:", v);
  }

  /** `#EXTVLCOPT:http-user-agent=A` makes the user agent `A` and leaves
      the referer as it was. */
  lemma VlcOptUserAgentValue(ov: Overrides, v: string)
    requires v != "" && !IsSpace(v[0]) && !IsSpace(v[|v| - 1])
    requires !Contains(v, "#EXTVLCOPT:") && !Contains(v, "http-user-agent=")
    ensures var r := VlcOptTag(ov, "#EXTVLCOPT:" + "http-user-agent=" + v);
            r.useragent == Some(v) && r.referer == ov.referer
  {
    var opt := "http-user-agent=";
    VlcOptValue(opt, v);
    OptionsDiffer(v);
    OptionLineTag(ov, "#EXTVLCOPT:" + opt + v, opt + v, v);
  }

  /** `#EXTVLCOPT:http-referrer=R` makes the referer `R` and leaves the
      user agent as it was. */
  lemma VlcOptRefererValue(ov: Overrides, v: string)
    requires v != "" && !IsSpace(v[0]) && !IsSpace(v[|v| - 1])
    requires !Contains(v, "#EXTVLCOPT:") && !Contains(v, "http-referrer=")
    ensures var r := VlcOptTag(ov, "#EXTVLCOPT:" + "http-referrer=" + v);
            r.referer == Some(v) && r.useragent == ov.useragent
  {
    var opt := "http-referrer=";
    VlcOptValue(opt, v);
    OptionsDiffer(v);
    OptionLineTag(ov, "#EXTVLCOPT:" + opt + v, opt + v, v);
  }

  /** What an option line sets, from its option text `t` and the value
      `v` that text carries. */
  lemma OptionLineTag(ov: Overrides, line1: string, t: string, v: string)
    requires StartsWith(line1, "#EXTVLCOPT:") && TagText(line1, "#EXTVLCOPT:") == t
    requires v != ""
    ensures var r := VlcOptTag(ov, line1);
            (StartsWith(t, "http-user-agent=") && TagText(t, "http-user-agent=") == v ==> r.useragent == Some(v))
            && (StartsWith(t, "http-referrer=") && TagText(t, "http-referrer=") == v ==> r.referer == Some(v))
            && (!StartsWith(t, "http-user-agent=") ==> r.useragent == ov.useragent)
            && (!StartsWith(t, "http-referrer=") ==> r.referer == ov.referer)
  {
    VlcOptTagSets(ov, line1);
  }

  lemma OptionsDiffer(v: string)
    ensures !StartsWith("http-user-agent=" + v, "http-referrer=")
    ensures !StartsWith("http-referrer=" + v, "http-user-agent=")
  {
    assert ("http-user-agent=" + v)[5] == 'u';
    assert ("http-referrer=" + v)[5] == 'r';
  }

  /** The option text of `#EXTVLCOPT:opt=v` is `opt=v`, and its value `v`. */
  lemma VlcOptValue(opt: string, v: string)
    requires |opt| > 0 && opt[0] == 'h' && '#' !in opt
    requires v != "" && !IsSpace(v[0]) && !IsSpace(v[|v| - 1])
    requires !Contains(v, "#EXTVLCOPT:") && !Contains(v, opt)
    ensures StartsWith("#EXTVLCOPT:" + opt + v, "#EXTVLCOPT:") && StartsWith(opt + v, opt)
    ensures TagText("#EXTVLCOPT:" + opt + v, "#EXTVLCOPT:") == opt + v
    ensures TagText(opt + v, opt) == v
  {
    var t := opt + v;
    AppendAssoc("#EXTVLCOPT:", opt, v);
    NoTagInOption(opt, v);
    ReplaceLeadingTag("#EXTVLCOPT:", t);
    assert t[0] == 'h' && t[|t| - 1] == v[|v| - 1];
    StripUnchanged(t);
    ReplaceLeadingTag(opt, v);
  }

  lemma NoTagInOption(opt: string, v: string)
    requires |opt| > 0 && opt[0] == 'h' && '#' !in opt
    requires !Contains(v, "#EXTVLCOPT:")
    ensures !Contains(opt + v, "#EXTVLCOPT:")
  {
    var t := opt + v;
    forall j | 0 <= j ensures !OccursAt(t, "#EXTVLCOPT:", j) {
      if j + 11 <= |t| {
        if j < |opt| {
          OccursAtMismatch(t, "#EXTVLCOPT:", j, 0);
        } else {
          assert t[j..j + 11] == v[j - |opt|..j - |opt| + 11];
          assert !OccursAt(v, "#EXTVLCOPT:", j - |opt|);
        }
      }
    }
  }

  /** The effect of one buffered tag line on (EXTINF line, overrides). */
  function TagLine(chan: Option<string>, ov: Overrides, line1: string): (r: (Option<string>, Overrides))
    ensures OverridesNonEmpty(ov) ==> OverridesNonEmpty(r.1)
  {
    var chan' := if StartsWith(line1, "#EXTINF:") then Some(line1) else chan;
    (chan', VlcOptTag(LogoTag(GroupTag(ov, line1), line1), line1))
  }

  /** The scan of the tag buffer before a URL line. */
  function BufferTags(buffer: seq<string>): (r: (Option<string>, Overrides))
    ensures OverridesNonEmpty(r.1)
    decreases |buffer|
  {
    if buffer == [] then (None, NoOverrides)
    else
      var prev := BufferTags(buffer[..|buffer| - 1]);
      TagLine(prev.0, prev.1, buffer[|buffer| - 1])
  }

  /** The last #EXTINF: line of the buffer is the one the channel is parsed from. */
  lemma {:induction false} ExtinfIsLast(buffer: seq<string>, i: int)
    requires 0 <= i < |buffer| && StartsWith(buffer[i], "#EXTINF:")
    requires forall j :: i < j < |buffer| ==> !StartsWith(buffer[j], "#EXTINF:")
    ensures BufferTags(buffer).0 == Some(buffer[i])
    decreases |buffer|
  {
    if i < |buffer| - 1 {
      ExtinfIsLast(buffer[..|buffer| - 1], i);
    }
  }

  /** Without an #EXTINF: line there is no channel. */
  lemma {:induction false} NoExtinf(buffer: seq<string>)
    requires forall j :: 0 <= j < |buffer| ==> !StartsWith(buffer[j], "#EXTINF:")
    ensures BufferTags(buffer).0.None?
    decreases |buffer|
  {
    if buffer != [] {
      NoExtinf(buffer[..|buffer| - 1]);
    }
  }

  /** One tag line sets a key exactly when it is that key's tag with a
      non-empty value; every other key keeps its override. */
  lemma TagLineKey(chan: Option<string>, ov: Overrides, line1: string, k: Key)
    ensures Get(TagLine(chan, ov, line1).1, k)
            == if SetsKey(line1, k) then Some(KeyValue(line1, k)) else Get(ov, k)
  {
  }

  /** Each override is the value of the last buffered line setting its key:
      later tags replace earlier ones. */
  lemma {:induction false} BufferTagsLastSetter(buffer: seq<string>, k: Key, i: int)
    requires 0 <= i < |buffer| && SetsKey(buffer[i], k)
    requires forall j :: i < j < |buffer| ==> !SetsKey(buffer[j], k)
    ensures Get(BufferTags(buffer).1, k) == Some(KeyValue(buffer[i], k))
    decreases |buffer|
  {
    var prev := BufferTags(buffer[..|buffer| - 1]);
    TagLineKey(prev.0, prev.1, buffer[|buffer| - 1], k);
    if i < |buffer| - 1 {
      BufferTagsLastSetter(buffer[..|buffer| - 1], k, i);
    }
  }

  /** A key no buffered line sets has no override. */
  lemma {:induction false} BufferTagsUnset(buffer: seq<string>, k: Key)
    requires forall j :: 0 <= j < |buffer| ==> !SetsKey(buffer[j], k)
    ensures Get(BufferTags(buffer).1, k).None?
    decreases |buffer|
  {
    if buffer != [] {
      var prev := BufferTags(buffer[..|buffer| - 1]);
      TagLineKey(prev.0, prev.1, buffer[|buffer| - 1], k);
      BufferTagsUnset(buffer[..|buffer| - 1], k);
    }
  }

  /** The loop of `parse_m3u` over the buffered tag lines before a URL
      line: the last #EXTINF: line, and the EXTGRP/EXTLOGO/EXTVLCOPT
      overrides, later tags replacing earlier ones. */
  method CollectTags(buffer: seq<string>) returns (chan: Option<string>, overrides: Overrides)
    ensures (chan, overrides) == BufferTags(buffer)
    ensures OverridesNonEmpty(overrides)
  {
    chan, overrides := None, NoOverrides;
    var j := 0;
    while j < |buffer|
      invariant 0 <= j <= |buffer|
      invariant (chan, overrides) == BufferTags(buffer[..j])
    {
      assert buffer[..j + 1][..j] == buffer[..j];
      var line1 := buffer[j];
      if StartsWith(line1, "#EXTINF:") {
        chan := Some(line1);
      }
      overrides := GroupTag(overrides, line1);
      overrides := LogoTag(overrides, line1);
      overrides := VlcOptTag(overrides, line1);
      j := j + 1;
    }
    assert buffer[..|buffer|] == buffer;
  }

  /** The state of `parse_m3u` between two lines. */
  datatype ScanState = ScanState(
    m3uEpg: string,
    epgUrls: seq<string>,
    buffer: seq<string>,
    channels: seq<Channel>)

  const Start: ScanState := ScanState("", [], [], [])

  /** The scan is stated for any channel parser (EXTINF line, URL line,
      overrides) -> channel; the playlist parser uses ParserOf. */
  type ChannelParser = (string, string, Overrides) -> Channel

  function ParserOf(proxy: string, allChannels: string): ChannelParser {
    (info: string, url: string, ov: Overrides) => ChannelOf(proxy, allChannels, info, url, ov)
  }

  /** A URL line: neither empty nor a comment/tag. */
  predicate IsUrlLine(line: string) {
    line != "" && !StartsWith(line, "#")
  }

  /** The effect of one raw line of the playlist. */
  function Step(parse: ChannelParser, st: ScanState, raw: string): ScanState {
    var line := Strip(raw);
    if StartsWith(line, "#EXTM3U") then
      var epg := HeaderEpgUrl(line);
      if epg != "" then st.(m3uEpg := if epg != PLACEHOLDER_EPG then epg else "") else st
    else if line == "" then st
    else if StartsWith(line, "#") then st.(buffer := st.buffer + [line])
    else
      var tags := BufferTags(st.buffer);
      if tags.0.Some? then
        var ch := parse(tags.0.value, line, tags.1);
        var urls := if ch.tvgUrl != "" && ch.tvgUrl !in st.epgUrls then st.epgUrls + [ch.tvgUrl] else st.epgUrls;
        st.(epgUrls := urls, channels := st.channels + [ch], buffer := [])
      else st.(buffer := [])
  }

  /** The scan over a sequence of raw lines. */
  function Scan(parse: ChannelParser, st: ScanState, lines: seq<string>): ScanState
    decreases |lines|
  {
    if lines == [] then st else Scan(parse, Step(parse, st, lines[0]), lines[1..])
  }

  lemma {:induction false} ScanSnoc(parse: ChannelParser, st: ScanState, lines: seq<string>, l: string)
    ensures Scan(parse, st, lines + [l]) == Step(parse, Scan(parse, st, lines), l)
    decreases |lines|
  {
    if lines != [] {
      var st' := Step(parse, st, lines[0]);
      assert (lines + [l])[0] == lines[0];
      assert (lines + [l])[1..] == lines[1..] + [l];
      assert Scan(parse, st, lines + [l]) == Scan(parse, st', lines[1..] + [l]);
      ScanSnoc(parse, st', lines[1..], l);
      assert Scan(parse, st, lines) == Scan(parse, st', lines[1..]);
    } else {
      assert lines + [l] == [l] && [l][1..] == [];
    }
  }

  /** The buffer after one line, independent of everything but the previous buffer. */
  function NextBuffer(buffer: seq<string>, raw: string): seq<string> {
    var line := Strip(raw);
    if StartsWith(line, "#EXTM3U") || line == "" then buffer
    else if StartsWith(line, "#") then buffer + [line]
    else []
  }

  /** The channel one raw line yields after the tag lines in `buffer`: one
      for a URL line preceded by an #EXTINF: tag, none otherwise. */
  function Emitted(parse: ChannelParser, buffer: seq<string>, raw: string): seq<Channel> {
    var line := Strip(raw);
    var tags := BufferTags(buffer);
    if IsUrlLine(line) && tags.0.Some? then [parse(tags.0.value, line, tags.1)] else []
  }

  /** The channels a sequence of lines adds when the scan starts with `buffer`. */
  function NewChannels(parse: ChannelParser, buffer: seq<string>, lines: seq<string>): seq<Channel>
    decreases |lines|
  {
    if lines == [] then []
    else Emitted(parse, buffer, lines[0]) + NewChannels(parse, NextBuffer(buffer, lines[0]), lines[1..])
  }

  lemma StepHeaderLine(parse: ChannelParser, st: ScanState, raw: string)
    requires StartsWith(Strip(raw), "#EXTM3U")
    ensures var epg := HeaderEpgUrl(Strip(raw));
            Step(parse, st, raw)
            == if epg != "" then st.(m3uEpg := if epg != PLACEHOLDER_EPG then epg else "") else st
    ensures NextBuffer(st.buffer, raw) == st.buffer
    ensures Emitted(parse, st.buffer, raw) == []
  {
    assert Strip(raw)[0] == '#';
  }

  lemma StepUrlLine(parse: ChannelParser, st: ScanState, raw: string)
    requires IsUrlLine(Strip(raw))
    ensures Step(parse, st, raw).buffer == [] == NextBuffer(st.buffer, raw)
    ensures Step(parse, st, raw).channels == st.channels + Emitted(parse, st.buffer, raw)
    ensures Step(parse, st, raw).m3uEpg == st.m3uEpg
  {}

  lemma StepUrlNoChannel(parse: ChannelParser, st: ScanState, raw: string)
    requires IsUrlLine(Strip(raw)) && BufferTags(st.buffer).0.None?
    ensures Step(parse, st, raw) == st.(buffer := [])
  {}

  lemma StepUrlChannel(parse: ChannelParser, st: ScanState, raw: string)
    requires IsUrlLine(Strip(raw)) && BufferTags(st.buffer).0.Some?
    ensures var tags := BufferTags(st.buffer);
            var ch := parse(tags.0.value, Strip(raw), tags.1);
            Step(parse, st, raw)
            == st.(epgUrls := if ch.tvgUrl != "" && ch.tvgUrl !in st.epgUrls then st.epgUrls + [ch.tvgUrl] else st.epgUrls,
                   channels := st.channels + [ch], buffer := [])
  {}

  lemma StepOtherLine(parse: ChannelParser, st: ScanState, raw: string)
    requires !IsUrlLine(Strip(raw)) && !StartsWith(Strip(raw), "#EXTM3U")
    ensures Step(parse, st, raw) == st.(buffer := NextBuffer(st.buffer, raw))
    ensures Emitted(parse, st.buffer, raw) == []
  {}

  /** One line moves the buffer as NextBuffer says and appends what it emits. */
  lemma StepChannels(parse: ChannelParser, st: ScanState, raw: string)
    ensures Step(parse, st, raw).buffer == NextBuffer(st.buffer, raw)
    ensures Step(parse, st, raw).channels == st.channels + Emitted(parse, st.buffer, raw)
  {
    if StartsWith(Strip(raw), "#EXTM3U") {
      StepHeaderLine(parse, st, raw);
      assert Step(parse, st, raw).buffer == st.buffer && Step(parse, st, raw).channels == st.channels;
      assert st.channels + [] == st.channels;
    } else if IsUrlLine(Strip(raw)) {
      StepUrlLine(parse, st, raw);
    } else {
      StepOtherLine(parse, st, raw);
      assert st.channels + [] == st.channels;
    }
  }

  /** The channel list grows only at URL lines, each time by the channel
      built from the tags seen since the previous URL line. */
  lemma {:induction false} ScanChannels(parse: ChannelParser, st: ScanState, lines: seq<string>)
    ensures Scan(parse, st, lines).channels == st.channels + NewChannels(parse, st.buffer, lines)
    decreases |lines|
  {
    if lines != [] {
      var st' := Step(parse, st, lines[0]);
      StepChannels(parse, st, lines[0]);
      ScanChannels(parse, st', lines[1..]);
      assert Scan(parse, st, lines) == Scan(parse, st', lines[1..]);
      assert NewChannels(parse, st.buffer, lines)
          == Emitted(parse, st.buffer, lines[0]) + NewChannels(parse, st'.buffer, lines[1..]);
    }
  }

  /** Tags never leak across a URL line: what follows a URL line is parsed
      as if the playlist started there. */
  lemma NoLeakAcrossUrlLine(parse: ChannelParser, buffer: seq<string>, u: string, rest: seq<string>)
    requires IsUrlLine(Strip(u))
    ensures NewChannels(parse, buffer, [u] + rest)
            == Emitted(parse, buffer, u) + NewChannels(parse, [], rest)
  {
    assert ([u] + rest)[1..] == rest;
    assert ([u] + rest)[0] == u;
    assert NextBuffer(buffer, u) == [];
  }

  /** The EPG URLs in first-seen order without repeats. */
  function DedupUrls(channels: seq<Channel>): (r: seq<string>)
    ensures forall i, j :: 0 <= i < j < |r| ==> r[i] != r[j]
    ensures forall u :: u in r <==> u != "" && exists c :: c in channels && c.tvgUrl == u
    decreases |channels|
  {
    if channels == [] then []
    else
      var prev := DedupUrls(channels[..|channels| - 1]);
      var u := channels[|channels| - 1].tvgUrl;
      assert forall c :: c in channels <==> c in channels[..|channels| - 1] || c == channels[|channels| - 1];
      if u != "" && u !in prev then prev + [u] else prev
  }

  /** The index of the first channel whose EPG URL is `u` (`|channels|` when none is). */
  function FirstUrlIndex(channels: seq<Channel>, u: string): (r: nat)
    ensures r <= |channels|
    ensures r < |channels| ==> channels[r].tvgUrl == u
    ensures forall k :: 0 <= k < r ==> channels[k].tvgUrl != u
    decreases |channels|
  {
    if channels == [] then 0
    else
      var p := channels[..|channels| - 1];
      var k := FirstUrlIndex(p, u);
      if k < |p| then k
      else if channels[|channels| - 1].tvgUrl == u then |channels| - 1
      else |channels|
  }

  /** `DedupUrls` keeps first-seen order: a URL listed earlier was first
      carried by an earlier channel. */
  lemma {:induction false} DedupUrlsFirstSeen(channels: seq<Channel>)
    ensures var r := DedupUrls(channels);
            forall i, j :: 0 <= i < j < |r| ==> FirstUrlIndex(channels, r[i]) < FirstUrlIndex(channels, r[j])
    decreases |channels|
  {
    if channels != [] {
      var p := channels[..|channels| - 1];
      DedupUrlsFirstSeen(p);
      var prev := DedupUrls(p);
      var u := channels[|channels| - 1].tvgUrl;
      forall i | 0 <= i < |prev|
        ensures FirstUrlIndex(channels, prev[i]) == FirstUrlIndex(p, prev[i]) < |p|
      {
        ListedUrlIsCarried(p, prev[i]);
      }
      if u != "" && u !in prev {
        assert forall k :: 0 <= k < |p| ==> p[k] in p;
        assert FirstUrlIndex(channels, u) == |p|;
      }
    }
  }

  /** A listed URL is carried by some channel. */
  lemma ListedUrlIsCarried(channels: seq<Channel>, u: string)
    requires u in DedupUrls(channels)
    ensures FirstUrlIndex(channels, u) < |channels|
  {
    var c :| c in channels && c.tvgUrl == u;
    var k :| 0 <= k < |channels| && channels[k] == c;
    assert FirstUrlIndex(channels, u) <= k;
  }

  /** The EPG URL list of the scan is always the deduplicated URLs of its channels. */
  lemma {:induction false} ScanEpgUrls(parse: ChannelParser, st: ScanState, lines: seq<string>)
    requires st.epgUrls == DedupUrls(st.channels)
    ensures var end := Scan(parse, st, lines);
            end.epgUrls == DedupUrls(end.channels)
    decreases |lines|
  {
    if lines != [] {
      var st' := Step(parse, st, lines[0]);
      if |st'.channels| > |st.channels| {
        assert st'.channels[..|st'.channels| - 1] == st.channels;
      }
      ScanEpgUrls(parse, st', lines[1..]);
    }
  }

  /** A channel parser whose every result is well formed keeps the channel list well formed. */
  lemma {:induction false} NewChannelsWellFormed(parse: ChannelParser, buffer: seq<string>, lines: seq<string>)
    requires forall info, url, ov :: WellFormedChannel(parse(info, url, ov))
    ensures forall c :: c in NewChannels(parse, buffer, lines) ==> WellFormedChannel(c)
    decreases |lines|
  {
    if lines != [] {
      NewChannelsWellFormed(parse, NextBuffer(buffer, lines[0]), lines[1..]);
    }
  }

  /** Every channel the playlist parser emits is well formed. */
  lemma ScanWellFormed(proxy: string, allChannels: string, st: ScanState, lines: seq<string>)
    requires forall c :: c in st.channels ==> WellFormedChannel(c)
    ensures forall c :: c in Scan(ParserOf(proxy, allChannels), st, lines).channels ==> WellFormedChannel(c)
  {
    var parse := ParserOf(proxy, allChannels);
    forall info, url, ov ensures WellFormedChannel(parse(info, url, ov)) {
      ChannelOfFacts(proxy, allChannels, info, url, ov);
    }
    ScanChannels(parse, st, lines);
    NewChannelsWellFormed(parse, st.buffer, lines);
  }

  /** `epg_url_final`: the header URL, else all channel EPG URLs joined behind the marker. */
  function FinalLocator(m3uEpg: string, epgUrls: seq<string>): string {
    if epgUrls != [] && m3uEpg == "" then MULTIPLE_MARKER + Join(epgUrls, URL_SEPARATOR)
    else m3uEpg
  }

  predicate LooksLikeM3u(text: string) {
    Contains(text, "#EXTM3U") && Contains(text, "#EXTINF")
  }

  /** The scan of a whole playlist text. */
  function ScanText(proxy: string, allChannels: string, text: string): ScanState {
    Scan(ParserOf(proxy, allChannels), Start, Split(text, "\n"))
  }

  /** `parse_m3u`: the channels and the EPG locator, or the exception raised. */
  function ParseM3uSpec(proxy: string, allChannels: string, text: string): (r: Result<(seq<Channel>, string), M3uError>)
    ensures r == Err(MalformedM3u) <==> !LooksLikeM3u(text)
    ensures LooksLikeM3u(text) ==> (r == Err(NoChannelsFound) <==> ScanText(proxy, allChannels, text).channels == [])
    ensures r.Ok? ==> |r.value.0| > 0
  {
    if !LooksLikeM3u(text) then Err(MalformedM3u)
    else
      var st := ScanText(proxy, allChannels, text);
      if st.channels == [] then Err(NoChannelsFound)
      else Ok((st.channels, FinalLocator(st.m3uEpg, st.epgUrls)))
  }

  /** The result of a parsed playlist: well-formed channels, and the header
      EPG URL when there is one, otherwise exactly the distinct channel
      `tvg-url`s behind the marker. */
  lemma PlaylistResult(proxy: string, allChannels: string, text: string)
    requires ParseM3uSpec(proxy, allChannels, text).Ok?
    ensures var st := ScanText(proxy, allChannels, text);
            var r := ParseM3uSpec(proxy, allChannels, text).value;
            r.0 == st.channels
            && (forall c :: c in r.0 ==> WellFormedChannel(c))
            && (st.m3uEpg != "" ==> r.1 == st.m3uEpg)
            && (st.m3uEpg == "" ==> r.1 == if DedupUrls(st.channels) == [] then ""
                                           else MULTIPLE_MARKER + Join(DedupUrls(st.channels), URL_SEPARATOR))
  {
    var st := ScanText(proxy, allChannels, text);
    assert ParseM3uSpec(proxy, allChannels, text) == Ok((st.channels, FinalLocator(st.m3uEpg, st.epgUrls)));
    assert Start.epgUrls == DedupUrls(Start.channels);
    ScanEpgUrls(ParserOf(proxy, allChannels), Start, Split(text, "\n"));
    ScanWellFormed(proxy, allChannels, Start, Split(text, "\n"));
  }

  // ---------------------------------------------------------------------
  // The parser object
  // ---------------------------------------------------------------------

  class M3UParser {
    const udpProxy: string
    /** The translated "All channels" group name. */
    const allChannels: string
    var epgUrls: seq<string>
    var m3uEpg: string
    var epgUrlFinal: string

    constructor(udpProxy: string, allChannels: string)
      ensures this.udpProxy == udpProxy && this.allChannels == allChannels
      ensures epgUrls == [] && m3uEpg == "" && epgUrlFinal == ""
    {
      this.udpProxy := udpProxy;
      this.allChannels := allChannels;
      epgUrls := [];
      m3uEpg := "";
      epgUrlFinal := "";
    }

    /** `parse_url_kodi_arguments`. */
    method ParseUrlKodiArguments(url: string) returns (chUrl: string, useragent: string, referrer: string)
      ensures (chUrl, useragent, referrer) == KodiArguments(url)
      ensures '|' !in chUrl && chUrl <= url
    {
      useragent := "";
      referrer := "";
      chUrl := url;
      if Contains(url, "|") {
        KodiArgumentsSplit(url);
        var arguments := Split(url, "|")[1];
        var parts := ArgumentParts(arguments);
        var i := 0;
        while i < |parts|
          invariant 0 <= i <= |parts|
          invariant useragent == LastValue(parts[..i], "User-Agent=", "user-agent=")
          invariant referrer == LastValue(parts[..i], "Referer=", "referer=")
        {
          var part := parts[i];
          LastValueExtend(parts, "User-Agent=", "user-agent=", i);
          LastValueExtend(parts, "Referer=", "referer=", i);
          if StartsWith(part, "User-Agent=") {
            useragent := part[|"User-Agent="|..];
          }
          if StartsWith(part, "user-agent=") {
            useragent := part[|"user-agent="|..];
          }
          if StartsWith(part, "Referer=") {
            referrer := part[|"Referer="|..];
          }
          if StartsWith(part, "referer=") {
            referrer := part[|"referer="|..];
          }
          i := i + 1;
        }
        assert parts[..|parts|] == parts;
        chUrl := Split(url, "|")[0];
      }
      assert KodiArguments(url).0 <= url;
    }

    /** `parse_channel`: builds `ch_array` and then updates its entries. */
    method ParseChannel(lineInfo: string, chUrl: string, overrides: Overrides) returns (ch: Channel)
      ensures ch == ChannelOf(udpProxy, allChannels, lineInfo, chUrl, overrides)
      ensures '|' !in ch.url && ParsePyInt(ch.catchupDays).Some?
    {
      ch := ChArray(allChannels, lineInfo, ProxyRewrite(udpProxy, chUrl));
      var tvgId2 := ParseRegexp("tvg-ID", lineInfo, "");
      if tvgId2 != "" && ch.tvgId == "" {
        ch := ch.(tvgId := tvgId2);
      }
      var channelUrl, kodiUseragent, kodiReferrer := ParseUrlKodiArguments(ch.url);
      if kodiUseragent != "" {
        ch := ch.(useragent := kodiUseragent);
      }
      if kodiReferrer != "" {
        ch := ch.(referer := kodiReferrer);
      }
      ch := ch.(url := channelUrl);
      ch := WithOverrides(ch, overrides);
      ChannelOfFacts(udpProxy, allChannels, lineInfo, chUrl, overrides);
    }

    /** `parse_m3u`: resets the three fields, scans the lines, and returns
        the channels and the EPG locator, or raises. */
    method ParseM3u(m3uStr: string) returns (r: Result<(seq<Channel>, string), M3uError>)
      modifies this
      ensures r == ParseM3uSpec(udpProxy, allChannels, m3uStr)
      ensures !LooksLikeM3u(m3uStr) ==> epgUrls == [] && m3uEpg == "" && epgUrlFinal == ""
      ensures LooksLikeM3u(m3uStr) ==>
                var st := ScanText(udpProxy, allChannels, m3uStr);
                m3uEpg == st.m3uEpg && epgUrls == st.epgUrls
                && epgUrlFinal == FinalLocator(st.m3uEpg, st.epgUrls)
    {
      epgUrls := [];
      m3uEpg := "";
      epgUrlFinal := "";
      if !LooksLikeM3u(m3uStr) {
        return Err(MalformedM3u);
      }
      var lines := Split(m3uStr, "\n");
      var scanned := ScanLines(lines);
      m3uEpg := scanned.m3uEpg;
      epgUrls := scanned.epgUrls;
      epgUrlFinal := m3uEpg;
      if epgUrls != [] && m3uEpg == "" {
        epgUrlFinal := MULTIPLE_MARKER + Join(epgUrls, URL_SEPARATOR);
      }
      if scanned.channels == [] {
        return Err(NoChannelsFound);
      }
      return Ok((scanned.channels, epgUrlFinal));
    }

    /** A URL line of `parse_m3u`: the channel built from the buffered tags,
        if they hold an #EXTINF: line, and its EPG URL when new. */
    method ParseUrlLine(ghost m3uEpg: string, raw: string, buffer: seq<string>,
                        epgUrls: seq<string>, channels: seq<Channel>)
      returns (epgUrls': seq<string>, channels': seq<Channel>)
      requires IsUrlLine(Strip(raw))
      ensures Step(ParserOf(udpProxy, allChannels), ScanState(m3uEpg, epgUrls, buffer, channels), raw)
              == ScanState(m3uEpg, epgUrls', [], channels')
    {
      ghost var parse := ParserOf(udpProxy, allChannels);
      ghost var before := ScanState(m3uEpg, epgUrls, buffer, channels);
      var line := Strip(raw);
      epgUrls', channels' := epgUrls, channels;
      var chan, overrides := CollectTags(buffer);
      if chan.Some? {
        StepUrlChannel(parse, before, raw);
        var parsedChan := ParseChannel(chan.value, line, overrides);
        assert parsedChan == parse(chan.value, line, overrides);
        if parsedChan.tvgUrl != "" && parsedChan.tvgUrl !in epgUrls {
          epgUrls' := epgUrls + [parsedChan.tvgUrl];
        }
        channels' := channels + [parsedChan];
      } else {
        StepUrlNoChannel(parse, before, raw);
      }
    }

    /** The line loop of `parse_m3u`, from the state right after the reset.
        `m3u_epg` and `epg_urls` are carried in the returned state and stored
        into the fields by the caller once the loop ends. */
    method ScanLines(lines: seq<string>) returns (end: ScanState)
      ensures end == Scan(ParserOf(udpProxy, allChannels), Start, lines)
    {
      var m3uEpg: string, epgUrls: seq<string> := "", [];
      var channels: seq<Channel> := [];
      var buffer: seq<string> := [];
      ghost var parse := ParserOf(udpProxy, allChannels);
      ghost var done: seq<string> := [];
      var i := 0;
      while i < |lines|
        invariant 0 <= i <= |lines| && done == lines[..i]
        invariant ScanState(m3uEpg, epgUrls, buffer, channels) == Scan(parse, Start, done)
      {
        assert done + [lines[i]] == lines[..i + 1];
        ScanSnoc(parse, Start, done, lines[i]);
        m3uEpg, epgUrls, buffer, channels := ScanLine(lines[i], m3uEpg, epgUrls, buffer, channels);
        done := done + [lines[i]];
        i := i + 1;
      }
      assert done == lines;
      end := ScanState(m3uEpg, epgUrls, buffer, channels);
    }

    /** One turn of the `parse_m3u` loop over the playlist's lines. */
    method ScanLine(raw: string, m3uEpg: string, epgUrls: seq<string>, buffer: seq<string>, channels: seq<Channel>)
      returns (m3uEpg': string, epgUrls': seq<string>, buffer': seq<string>, channels': seq<Channel>)
      ensures ScanState(m3uEpg', epgUrls', buffer', channels')
              == Step(ParserOf(udpProxy, allChannels), ScanState(m3uEpg, epgUrls, buffer, channels), raw)
    {
      ghost var parse := ParserOf(udpProxy, allChannels);
      ghost var before := ScanState(m3uEpg, epgUrls, buffer, channels);
      m3uEpg', epgUrls', buffer', channels' := m3uEpg, epgUrls, buffer, channels;
      var line := Strip(raw);
      if StartsWith(line, "#EXTM3U") {
        StepHeaderLine(parse, before, raw);
        var epgM3uUrl := HeaderEpgUrl(line);
        if epgM3uUrl != "" {
          m3uEpg' := if epgM3uUrl != PLACEHOLDER_EPG then epgM3uUrl else "";
        }
      } else if line != "" {
        if StartsWith(line, "#") {
          StepOtherLine(parse, before, raw);
          buffer' := buffer + [line];
        } else {
          epgUrls', channels' := ParseUrlLine(m3uEpg, raw, buffer, epgUrls, channels);
          buffer' := [];
        }
      } else {
        StepOtherLine(parse, before, raw);
      }
    }

  }
}
