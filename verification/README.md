# yuki-iptv playlist and TV guide core, in Dafny

This project models how the yuki-iptv IPTV player reads its inputs.

- **M3U playlists.** The current `M3UParser` reads a playlist text into channel records plus an EPG locator. It handles `#EXTINF`, `#EXTGRP`, `#EXTLOGO` and `#EXTVLCOPT` tags, Kodi-style `|User-Agent=` URL arguments and UDP/RTP proxy rewriting. The older Astroncia `M3uParser` is modelled too: it tidies a line list in place and appends one record per `#` line.
- **TV guides (EPG).** `fetch_epg` splits the guide locator into source URLs. It loads each source and parses it as XMLTV (`parse_as_xmltv`), or as a JTV ZIP archive (`parse_jtv`) when XMLTV parsing fails. It then merges the programme, id and icon dictionaries source by source, and reports whether any source worked.
- **Series grouping.** `parse_series` files a channel whose name reads like a series episode under its series, season and episode objects.

The modules follow the source files:

| module | file | source |
|---|---|---|
| `Wrappers` | wrappers.dfy | `Option` and `Result`; `Err` stands for a raised exception |
| `Text` | text.dfy | the Python `str` operations the parsers use (`strip`, `find`, `replace`, `split`, `join`, `int()`), and the title regex `[,](?!.*[,])(.*?)$` |
| `Programmes` | programmes.dfy | the programme dictionary shared by both guide formats |
| `M3u` | m3u.dfy | `yuki_iptv/m3u.py` |
| `AstronciaM3u` | legacy_m3u.dfy | `data/modules/astroncia/m3u.py` |
| `Jtv` | jtv.dfy | `data/modules/astroncia/jtv.py` |
| `Xmltv` | xmltv.dfy | `yuki_iptv/xmltv.py` |
| `Epg` | epg.dfy | `yuki_iptv/epg.py` |
| `Series` | series.dfy | `thirdparty/series.py` |

**Imperative and pure parts.** Each loop of the source is a `method` with its loop, and each such loop method is proved equal to a recursive specification function; the properties are lemmas about those functions. The methods without a loop (the constructors, the per-line steps, the series and season lookups, the guide fetches, and the getters and group filter of the legacy parser) state their result or their new fields directly, in terms of the same functions.

**Classes.** The two parser classes and the series and season classes are Dafny classes, and their fields are updated in place:

- `M3u.M3UParser`;
- `AstronciaM3u.M3uParser`;
- `Series.SerieM3U` and `Series.SeasonM3U`.

**Inputs given as values.** Things the source gets from libraries or the host arrive as values:

- XML parsing gives an `Xmltv.XmlDoc`.
- ZIP reading gives a sequence of `Jtv.ZipEntry`.
- Code pages are character tables (`Jtv.Codecs`).
- Host time is `Jtv.Clock` and `Xmltv.Window`.
- Loading a URL is a function in `Epg.Env`.
- The series regex is a `matcher` function.

## Model

| member | source | states |
|---|---|---|
| Text.StripSpec | usr/lib/yuki-iptv/yuki_iptv/m3u.py:38 | the stripped string is an infix of the input, everything before and after that infix is whitespace (Python's `str.isspace` set), and the infix neither starts nor ends with whitespace: only the surrounding whitespace is removed |
| Text.StripUnchanged | usr/lib/yuki-iptv/yuki_iptv/m3u.py:38 | a string that neither starts nor ends with whitespace is its own strip |
| Text.IndexOf | usr/lib/yuki-iptv/yuki_iptv/m3u.py:23 | `find`: the result is an occurrence and no earlier index is one; None exactly when there is none |
| Text.SplitJoinChar | usr/lib/yuki-iptv/yuki_iptv/epg.py:51 | splitting the join of pieces free of a one-character separator gives the pieces back |
| Text.AfterLastComma | usr/lib/yuki-iptv/yuki_iptv/m3u.py:98 | the title regex: the result is the suffix after a comma and holds no comma; None exactly when there is no comma |
| Text.ParsePyIntRoundTrip | usr/lib/yuki-iptv/yuki_iptv/m3u.py:31 | `int(str(n)) == n` for every integer |
| M3u.AttrMatchSpec | usr/lib/yuki-iptv/yuki_iptv/m3u.py:18-27 | `re.search(name + '="(.*?)"')`: the group starts right after the first `name="` and runs to the next quote, without any quote in it; no match exactly when `name="` is absent or no quote follows its first occurrence |
| M3u.NormalizeCatchupDays | usr/lib/yuki-iptv/yuki_iptv/m3u.py:29-38 | a catch-up days value that `int()` accepts becomes the canonical decimal text of its integer (`" 007 "` gives `"7"`), which reads back as the same integer; any other value is replaced by the stripped default |
| M3u.AbsentAttribute | usr/lib/yuki-iptv/yuki_iptv/m3u.py:24-27 | a missing attribute reads as the stripped default |
| M3u.PresentAttribute | usr/lib/yuki-iptv/yuki_iptv/m3u.py:23-25 | a present attribute (other than catch-up days) reads as its stripped group |
| M3u.CatchupDaysIsInteger | usr/lib/yuki-iptv/yuki_iptv/m3u.py:29-36 | with the default "1", the catch-up days field always parses as an integer, whatever the line says |
| M3u.NormalizedIsInteger | usr/lib/yuki-iptv/yuki_iptv/m3u.py:30-36 | the normalised catch-up days value parses as an integer for any raw value |
| M3u.DefaultCatchupDaysParses | usr/lib/yuki-iptv/yuki_iptv/m3u.py:106 | the default catch-up days "1" reads as the integer 1 |
| M3u.LastValueIsLastSetter | usr/lib/yuki-iptv/yuki_iptv/m3u.py:55-71 | the Kodi user agent (or referer) is the value from the last part that sets it, in either spelling |
| M3u.LastValueUnset | usr/lib/yuki-iptv/yuki_iptv/m3u.py:43-44 | with no part setting it, the user agent (or referer) stays empty |
| Text.UpTo | usr/lib/yuki-iptv/yuki_iptv/m3u.py:72 | the text before the first occurrence of a character: a prefix of the input without that character, followed in the input by the character unless it is all of the input |
| Text.SplitUpTo | usr/lib/yuki-iptv/yuki_iptv/m3u.py:48 | splitting at one character, the first piece is the text before its first occurrence and, when it occurs, the second piece is the text between its first and second occurrences |
| M3u.KodiArguments | usr/lib/yuki-iptv/yuki_iptv/m3u.py:41-74 | the URL returned is the text before the first `\|` (all of the URL without one); with a `\|`, the user agent and referer are the values that the last `User-Agent=`/`user-agent=` and `Referer=`/`referer=` parts set among the `&`-pieces of the text between the first and second `\|` ("" when none does); without one, both are "" |
| M3u.ArgumentParts | usr/lib/yuki-iptv/yuki_iptv/m3u.py:49-54 | splitting the arguments at `&` only when they hold one gives exactly the `&`-split of the arguments |
| M3u.ProxyRewrite | usr/lib/yuki-iptv/yuki_iptv/m3u.py:78-82 | only UDP/RTP URLs with a proxy configured are rewritten; a rewritten URL holds no `@` |
| M3u.ProxyPathForm | usr/lib/yuki-iptv/yuki_iptv/m3u.py:79-81 | `udp://rest` through a proxy becomes `proxy/udp/rest` and `rtp://rest` becomes `proxy/rtp/rest`, for a proxy that does not end in `/` or hold `//udp`/`//rtp` and a path without a leading or doubled slash |
| M3u.ProxyRewriteForm | usr/lib/yuki-iptv/yuki_iptv/m3u.py:78-82 | the same form for the rewrite of `parse_channel`, when neither the proxy nor the path holds `@` |
| M3u.ProxyRewriteDropsAt | usr/lib/yuki-iptv/yuki_iptv/m3u.py:78-82 | the multicast address `udp://@group:port` (or `rtp://@…`) becomes `proxy/udp/group:port`: the `@` is dropped |
| M3u.ProxyRewriteExample | usr/lib/yuki-iptv/yuki_iptv/m3u.py:78-82 | `udp://host/1` through `http://proxy` is `http://proxy/udp/host/1` |
| M3u.ProxyPathSlashForm | usr/lib/yuki-iptv/yuki_iptv/m3u.py:79-81 | through a proxy written with a trailing `/`, `udp://rest` becomes `proxy/udp/rest` (and `rtp://` likewise): the doubled `//udp/` or `//rtp/` collapses to one slash |
| M3u.ProxyRewriteSlashForm | usr/lib/yuki-iptv/yuki_iptv/m3u.py:78-82 | the same single-slash form for the full rewrite when neither side holds `@` |
| M3u.ProxyRewriteSlashDropsAt | usr/lib/yuki-iptv/yuki_iptv/m3u.py:78-82 | `udp://@host` through a proxy with a trailing `/` becomes `proxy/udp/host`, one slash and no `@` |
| M3u.ProxyRewriteSlashExample | usr/lib/yuki-iptv/yuki_iptv/m3u.py:78-82 | `udp://@host/1` through `http://proxy/` is `http://proxy/udp/host/1` |
| M3u.WithOverrides | usr/lib/yuki-iptv/yuki_iptv/m3u.py:126-128 | each override present replaces its field, and every other field is unchanged |
| M3u.ChannelPrecedence | usr/lib/yuki-iptv/yuki_iptv/m3u.py:98-128 | the channel's tvg-id is `tvg-id`, else `tvg-ID`; its user agent is the #EXTVLCOPT override, else a non-empty Kodi `User-Agent`, else the `user-agent` attribute; its referer is the override, else the Kodi `Referer` ("" without one); its URL is the proxied URL before its first `\|` |
| M3u.ChannelStages | usr/lib/yuki-iptv/yuki_iptv/m3u.py:76-130 | in the finished channel, title, name, EPG URL and catch-up fields are those of the EXTINF line; the URL is the part before `\|`; group and logo are the overrides' when present; overrides win for user agent and referer |
| M3u.ChannelOfFacts | usr/lib/yuki-iptv/yuki_iptv/m3u.py:76-130 | every channel's URL is free of `\|` and its catch-up days parse as an integer; with a non-empty "All channels" label and non-empty overrides, the group is never empty; every override present is the final value |
| M3u.ChannelCatchup | usr/lib/yuki-iptv/yuki_iptv/m3u.py:93-95 | the catch-up type is the `catchup` attribute, or `catchup-type` (default "default") when that is empty |
| M3u.CatchupFallback | usr/lib/yuki-iptv/yuki_iptv/m3u.py:93-95 | with neither attribute present, the catch-up type is "default" |
| M3u.EpgUrlPrecedence | usr/lib/yuki-iptv/yuki_iptv/m3u.py:84-87 | the channel's EPG URL is `tvg-url`, or `url-tvg` when `tvg-url` is empty |
| M3u.HeaderEpgUrlSpec | usr/lib/yuki-iptv/yuki_iptv/m3u.py:144-160 | the `#EXTM3U` header's EPG URL is read from `x-tvg-url`, else `tvg-url`, else `url-tvg`; each later spelling is consulted only when the earlier ones' `name="` text does not occur |
| M3u.GroupTag | usr/lib/yuki-iptv/yuki_iptv/m3u.py:173-176 | only the group override can change; when it does, the line starts with `#EXTGRP:` and the new group is a non-empty value |
| M3u.LogoTag | usr/lib/yuki-iptv/yuki_iptv/m3u.py:177-180 | only the logo override can change; when it does, the line starts with `#EXTLOGO:` and the new logo is a non-empty value |
| M3u.VlcOptTag | usr/lib/yuki-iptv/yuki_iptv/m3u.py:181-194 | only the user agent and referer overrides can change; each changes only on an `#EXTVLCOPT:` line and only to a non-empty value |
| M3u.GroupTagSets | usr/lib/yuki-iptv/yuki_iptv/m3u.py:173-176 | an `#EXTGRP:` line whose stripped text (the line without the tag) is non-empty sets the group override to that text; any other line leaves it |
| M3u.LogoTagSets | usr/lib/yuki-iptv/yuki_iptv/m3u.py:177-180 | an `#EXTLOGO:` line whose stripped text is non-empty sets the logo override to that text; any other line leaves it |
| M3u.VlcOptTagSets | usr/lib/yuki-iptv/yuki_iptv/m3u.py:181-194 | an `#EXTVLCOPT:` line whose option starts with `http-user-agent=` (`http-referrer=`) and has a non-empty stripped value sets the user agent (referer) override to that value; any other line leaves it |
| M3u.OptionLineTag | usr/lib/yuki-iptv/yuki_iptv/m3u.py:181-194 | on an `#EXTVLCOPT:` line, an option text that starts with `http-user-agent=` (`http-referrer=`) and carries a non-empty value sets the user agent (referer) to it; an option text that starts otherwise leaves that override as it was |
| M3u.VlcOptValue | usr/lib/yuki-iptv/yuki_iptv/m3u.py:181-194 | the option text of `#EXTVLCOPT:` followed by an option name and a value `v` (no surrounding whitespace, no tag inside) is that name and `v`, and stripping the name leaves `v` |
| M3u.GroupTagValue | usr/lib/yuki-iptv/yuki_iptv/m3u.py:173-176 | `#EXTGRP:` followed by text `v` without another tag sets the group to `v` stripped, or keeps the old group when that is empty |
| M3u.LogoTagValue | usr/lib/yuki-iptv/yuki_iptv/m3u.py:177-180 | `#EXTLOGO:` followed by `v` sets the logo to `v` stripped, or keeps the old logo when that is empty |
| M3u.VlcOptUserAgentValue | usr/lib/yuki-iptv/yuki_iptv/m3u.py:181-188 | `#EXTVLCOPT:http-user-agent=A`, for a non-empty `A` without surrounding whitespace or a tag inside, sets the user agent to `A` and leaves the referer |
| M3u.VlcOptRefererValue | usr/lib/yuki-iptv/yuki_iptv/m3u.py:181-194 | `#EXTVLCOPT:http-referrer=R`, for a non-empty `R` likewise, sets the referer to `R` and leaves the user agent |
| M3u.TagLine | usr/lib/yuki-iptv/yuki_iptv/m3u.py:170-194 | one tag line keeps every override non-empty |
| M3u.TagLineKey | usr/lib/yuki-iptv/yuki_iptv/m3u.py:170-194 | one buffered line sets a key exactly when it is that key's tag with a non-empty value, and then to that value; every other key keeps its override |
| M3u.BufferTags | usr/lib/yuki-iptv/yuki_iptv/m3u.py:168-194 | the overrides gathered from a buffer are all non-empty |
| M3u.BufferTagsLastSetter | usr/lib/yuki-iptv/yuki_iptv/m3u.py:168-194 | each override is the value of the last buffered line that sets its key: later tags replace earlier ones |
| M3u.BufferTagsUnset | usr/lib/yuki-iptv/yuki_iptv/m3u.py:168-194 | a key no buffered line sets has no override |
| M3u.ExtinfIsLast | usr/lib/yuki-iptv/yuki_iptv/m3u.py:170-172 | the channel's info line is the last `#EXTINF:` line of the buffer |
| M3u.NoExtinf | usr/lib/yuki-iptv/yuki_iptv/m3u.py:168-172 | a buffer without `#EXTINF:` yields no channel |
| M3u.CollectTags | usr/lib/yuki-iptv/yuki_iptv/m3u.py:168-194 | the buffer loop returns the last info line and the overrides of the specification, all non-empty |
| M3u.StepHeaderLine | usr/lib/yuki-iptv/yuki_iptv/m3u.py:143-162 | a header line changes only the playlist EPG URL (the placeholder `http://server/jtv.zip` reads as none), and only when it names one; the buffer is kept and no channel is added |
| M3u.StepUrlLine | usr/lib/yuki-iptv/yuki_iptv/m3u.py:167-201 | a URL line clears the buffer, adds at most the channel the buffer announces, and keeps the playlist EPG URL |
| M3u.StepUrlNoChannel | usr/lib/yuki-iptv/yuki_iptv/m3u.py:195-201 | a URL line after a buffer without `#EXTINF:` only clears the buffer |
| M3u.StepUrlChannel | usr/lib/yuki-iptv/yuki_iptv/m3u.py:195-201 | a URL line after an `#EXTINF:` appends the parsed channel, records its new non-empty EPG URL once, and clears the buffer |
| M3u.StepOtherLine | usr/lib/yuki-iptv/yuki_iptv/m3u.py:164-166 | an empty line changes nothing; a `#` line is only buffered |
| M3u.StepChannels | usr/lib/yuki-iptv/yuki_iptv/m3u.py:141-201 | every line moves the buffer as the buffer rules say and adds exactly the channels it emits |
| M3u.ScanChannels | usr/lib/yuki-iptv/yuki_iptv/m3u.py:139-201 | the channels of a scan are the earlier ones followed by one channel per URL line preceded by an `#EXTINF:` tag, in order |
| M3u.NoLeakAcrossUrlLine | usr/lib/yuki-iptv/yuki_iptv/m3u.py:201 | tags before a URL line never affect channels after it |
| M3u.DedupUrls | usr/lib/yuki-iptv/yuki_iptv/m3u.py:197-199 | the EPG URL list has no duplicates and holds exactly the non-empty channel EPG URLs |
| M3u.FirstUrlIndex | usr/lib/yuki-iptv/yuki_iptv/m3u.py:197-199 | the index of the first channel carrying a URL: that channel carries it and no earlier one does (the length when none does) |
| M3u.ListedUrlIsCarried | usr/lib/yuki-iptv/yuki_iptv/m3u.py:197-199 | every listed URL is carried by some channel |
| M3u.DedupUrlsFirstSeen | usr/lib/yuki-iptv/yuki_iptv/m3u.py:197-199 | the list is in first-seen order: a URL listed before another was first carried by an earlier channel |
| M3u.ScanEpgUrls | usr/lib/yuki-iptv/yuki_iptv/m3u.py:197-199 | the scan keeps `epg_urls` equal to the first-seen, duplicate-free list of the channels' non-empty EPG URLs |
| M3u.NewChannelsWellFormed | usr/lib/yuki-iptv/yuki_iptv/m3u.py:195-200 | when the channel parser only yields well-formed channels, a scan only adds well-formed channels |
| M3u.ScanWellFormed | usr/lib/yuki-iptv/yuki_iptv/m3u.py:141-201 | every channel of a playlist has a URL free of `\|` and integer catch-up days |
| M3u.ParseM3uSpec | usr/lib/yuki-iptv/yuki_iptv/m3u.py:132-208 | "Malformed M3U" is raised exactly when `#EXTM3U` or `#EXTINF` is missing; on a well-formed text "No channels found" is raised exactly when the scan collects no channel, so parsing succeeds exactly when the text is well-formed and the scan finds a channel; a result always has at least one channel |
| M3u.PlaylistResult | usr/lib/yuki-iptv/yuki_iptv/m3u.py:202-208 | the result is the scan's channels, all well-formed; the locator is the header's EPG URL, or else the composite `^^::MULTIPLE::^^` locator of the channels' EPG URLs joined by `:::^^^:::` ("" without any) |
| M3u.M3UParser.constructor | usr/lib/yuki-iptv/yuki_iptv/m3u.py:11-16 | a new parser holds the proxy and "All channels" label, with empty EPG state |
| M3u.M3UParser.ParseUrlKodiArguments | usr/lib/yuki-iptv/yuki_iptv/m3u.py:41-74 | the loop over the Kodi parts computes `KodiArguments` of the URL; the URL is a `\|`-free prefix of the input |
| M3u.M3UParser.ParseChannel | usr/lib/yuki-iptv/yuki_iptv/m3u.py:76-130 | the channel built is the specification's channel, and it has a `\|`-free URL and integer catch-up days |
| M3u.M3UParser.ParseM3u | usr/lib/yuki-iptv/yuki_iptv/m3u.py:132-208 | the result (or exception) is the specification's; the fields are reset on a malformed text and otherwise end as the scan leaves them, with `epg_url_final` the final locator |
| M3u.M3UParser.ScanLines | usr/lib/yuki-iptv/yuki_iptv/m3u.py:141-201 | the line loop ends in the state of the recursive scan |
| M3u.M3UParser.ScanLine | usr/lib/yuki-iptv/yuki_iptv/m3u.py:142-201 | one pass of the line loop is one step of the scan |
| M3u.M3UParser.ParseUrlLine | usr/lib/yuki-iptv/yuki_iptv/m3u.py:167-201 | the URL-line branch is the scan step for a URL line, and it clears the buffer |
| AstronciaM3u.RawLines | data/modules/astroncia/m3u.py:27 | `text.strip().split('\n')`: at least one piece, none holding a newline |
| AstronciaM3u.TidyNoGroups | data/modules/astroncia/m3u.py:32-37 | without `#EXTGRP:` lines, tidying keeps every line, right-stripped, in order, and does not raise |
| AstronciaM3u.TidySwallows | data/modules/astroncia/m3u.py:33-37 | a `#EXTGRP:` line replaces the line after it, whose text is lost: the result does not depend on that line |
| AstronciaM3u.ReadLinesPlain | data/modules/astroncia/m3u.py:26-38 | an all-whitespace text raises IndexError; otherwise, without group lines, the lines are the text's lines minus a leading `#EXTM3U` line, each right-stripped |
| AstronciaM3u.TrimmedKeepsAll | data/modules/astroncia/m3u.py:27-29 | after `strip()` the last line is never empty, so nothing is popped |
| AstronciaM3u.TidyLines | data/modules/astroncia/m3u.py:32-37 | the loop that pops and overwrites while iterating gives the specification's lines, and raises exactly when it does |
| AstronciaM3u.LegacyProxy | data/modules/astroncia/m3u.py:80-83 | only UDP/RTP links with a proxy set are rewritten; unlike the newer parser, `@` survives the rewrite |
| AstronciaM3u.LegacyProxyForm | data/modules/astroncia/m3u.py:80-83 | `udp://rest` through a proxy becomes `proxy/udp/rest` (and `rtp://` likewise) under the same conditions as the newer parser, with any `@` of the path kept |
| AstronciaM3u.LegacyProxySlashForm | data/modules/astroncia/m3u.py:80-83 | through a proxy with a trailing `/` the legacy parser also gives `proxy/udp/rest`, one slash |
| AstronciaM3u.GroupOf | data/modules/astroncia/m3u.py:66-72 | the group is the `group-title` match when that is non-empty; it is never empty; it is "Все каналы" exactly when `group-title` is missing, empty or that text itself |
| AstronciaM3u.RecordTitle | data/modules/astroncia/m3u.py:73-77 | the title is the text after the last comma and holds no comma; "" when there is no comma |
| AstronciaM3u.ParseFromFails | data/modules/astroncia/m3u.py:40-49 | parsing raises IndexError exactly when some line is empty or the last line starts with `#` |
| AstronciaM3u.ParseFromRecords | data/modules/astroncia/m3u.py:40-93 | without an error, the records are one per non-header `#` line that has a line after it, built from the two lines, in order |
| AstronciaM3u.KeepWithout | data/modules/astroncia/m3u.py:123-124 | exactly the records whose group does not contain the word are kept |
| AstronciaM3u.KeepWithoutConcat | data/modules/astroncia/m3u.py:123-124 | the filter keeps the list's order: filtering a concatenation concatenates the filtered parts, and a single record is kept exactly when its group lacks the word |
| AstronciaM3u.KeepWithAny | data/modules/astroncia/m3u.py:134-140 | exactly the records whose group contains one of the words are kept |
| AstronciaM3u.KeepWithAnyConcat | data/modules/astroncia/m3u.py:134-140 | the filter keeps the list's order and takes each record once: filtering a concatenation concatenates the filtered parts |
| AstronciaM3u.KeepWithAnySingle | data/modules/astroncia/m3u.py:134-140 | a single record is kept, once, exactly when one of the words occurs in its group |
| AstronciaM3u.M3uParser.constructor | data/modules/astroncia/m3u.py:14-16 | a new parser has no records and holds its proxy |
| AstronciaM3u.M3uParser.ReadAllLines | data/modules/astroncia/m3u.py:26-38 | the stored lines are the specification's; the line count is returned exactly when no IndexError is raised; the records are untouched |
| AstronciaM3u.M3uParser.ManageLine | data/modules/astroncia/m3u.py:47-93 | one record is appended for an info line with a successor, none for `#EXTM3U`; IndexError exactly when it is the last line |
| AstronciaM3u.M3uParser.ParseFile | data/modules/astroncia/m3u.py:40-45 | the records appended, and the error raised, are the specification's |
| AstronciaM3u.M3uParser.ReadM3u | data/modules/astroncia/m3u.py:19-23 | reading then parsing: a read error leaves the records alone; otherwise the parse's records are appended and returned unless it raised |
| AstronciaM3u.M3uParser.FilterOutGroups | data/modules/astroncia/m3u.py:123-124 | the records become those whose group lacks the word |
| AstronciaM3u.M3uParser.FilterInGroups | data/modules/astroncia/m3u.py:127-142 | the nested loop computes the records whose group contains one of the words, in order |
| AstronciaM3u.M3uParser.GetList | data/modules/astroncia/m3u.py:145-146 | the records, as they stand |
| AstronciaM3u.M3uParser.GetFile | data/modules/astroncia/m3u.py:157-161 | the last record is popped and returned; an empty list raises AttributeError (the logger is never set) and is left alone |
| Jtv.RoundHalfEven | data/modules/astroncia/jtv.py:29 | Python's `round`: the result is nearest to `a / d`, and ties go to the even neighbour |
| Jtv.RoundHalfEvenMonotone | data/modules/astroncia/jtv.py:29 | rounding never reverses order |
| Jtv.FiletimeToTimestamp | data/modules/astroncia/jtv.py:25-32 | anything but 8 bytes gives 0; the only error is a time past the year 9999 |
| Jtv.FiletimeMonotone | data/modules/astroncia/jtv.py:25-29 | a later FILETIME never gives an earlier timestamp, and stays in range when a later one is |
| Jtv.FiletimeWholeSeconds | data/modules/astroncia/jtv.py:27-29 | a FILETIME of exactly `k` seconds is the 1601 epoch plus `k` plus the timezone shift |
| Jtv.DecodeBytes | data/modules/astroncia/jtv.py:43 | decoding succeeds exactly when every byte has a character, and then maps byte to character position by position |
| Jtv.ParseTitles | data/modules/astroncia/jtv.py:34-46 | the title loop computes the recursive specification |
| Jtv.RecordsNeverInvalid | data/modules/astroncia/jtv.py:40-45 | "Invalid JTV format" comes only from the header check |
| Jtv.TitlesHeaderCheck | data/modules/astroncia/jtv.py:35-37 | "Invalid JTV format" is raised exactly when the data does not start with one of the two JTV headers |
| Jtv.TitleRecordsRoundTrip | data/modules/astroncia/jtv.py:40-45 | records written as a u16 length followed by the body decode back to the bodies' texts |
| Jtv.TitlesRoundTrip | data/modules/astroncia/jtv.py:34-46 | a header followed by such records parses to the titles, in order |
| Jtv.ParseSchedule | data/modules/astroncia/jtv.py:48-58 | the record loop computes the recursive specification |
| Jtv.ScheduleCount | data/modules/astroncia/jtv.py:50-53 | a parsed schedule has exactly as many start times as the u16 count says |
| Jtv.ScheduleRecordsCount | data/modules/astroncia/jtv.py:52-57 | one start time per counted record |
| Jtv.ScheduleRecordsShort | data/modules/astroncia/jtv.py:55-57 | a record cut short by the end of the data gives 0 |
| Jtv.ScheduleRecordsWhole | data/modules/astroncia/jtv.py:55-57 | a whole 12-byte record gives the timestamp of its bytes 2 to 10 |
| Jtv.EncodeChars | data/modules/astroncia/jtv.py:62 | encoding succeeds exactly when every character has a byte, position by position |
| Jtv.DecodeTotal | data/modules/astroncia/jtv.py:62 | decoding maps each byte to its character |
| Jtv.FixZipFilename | data/modules/astroncia/jtv.py:60-65 | the name keeps its length; it is unchanged when some character has no cp437 byte, and otherwise re-read through cp866 character by character |
| Jtv.AsciiNameKept | data/modules/astroncia/jtv.py:60-65 | an ASCII member name is kept as is |
| Jtv.ChannelKey | data/modules/astroncia/jtv.py:75 | the channel key is the file name without its four-character extension, with every `_` turned into a space (so it holds no underscore) |
| Jtv.SameStemSameKey | data/modules/astroncia/jtv.py:74-83 | the `.pdt` and `.ndx` members of one stem file under the same channel |
| Jtv.Touch | data/modules/astroncia/jtv.py:76-77 | an absent channel is added once, at the end of the key order, with an empty entry; a present one is left alone |
| Jtv.AddEntry | data/modules/astroncia/jtv.py:73-83 | one member keeps the catalog's keys and entries in step and free of duplicates |
| Jtv.AddEntryKeys | data/modules/astroncia/jtv.py:73-83 | one member adds exactly its own channel key, and only for a `.pdt` or `.ndx` name |
| Jtv.Collect | data/modules/astroncia/jtv.py:72-83 | the first pass yields a catalog whose keys and entries are in step and free of duplicates |
| Jtv.CollectKeys | data/modules/astroncia/jtv.py:72-83 | the catalog holds exactly the channels some `.pdt` or `.ndx` member names |
| Jtv.Pairs | data/modules/astroncia/jtv.py:88-100 | one programme per title that has a following start time |
| Jtv.PairProgrammes | data/modules/astroncia/jtv.py:85-100 | the inner loop with its counter `ic` computes the channel's programmes or the KeyError/IndexError it raises |
| Jtv.GuideOfSpec | data/modules/astroncia/jtv.py:84-100 | the guide holds exactly the catalog's channels, each with its programmes |
| Jtv.AddMember | data/modules/astroncia/jtv.py:73-83 | one pass of the first loop is the catalog step |
| Jtv.CollectMembers | data/modules/astroncia/jtv.py:72-83 | the first loop computes the catalog or the first error |
| Jtv.BuildGuide | data/modules/astroncia/jtv.py:84-101 | the second loop computes the guide or the first error |
| Jtv.ParseJtv | data/modules/astroncia/jtv.py:67-101 | `parse_jtv` computes the specification's guide or error |
| Jtv.JtvGuide | data/modules/astroncia/jtv.py:67-101 | a parsed guide has exactly the channels some member names, each with the programmes paired from its titles and start times |
| Xmltv.NamesStepErr | usr/lib/yuki-iptv/yuki_iptv/xmltv.py:41-45 | a channel raises KeyError exactly when it lacks an `id` and has a display name with text |
| Xmltv.NamesStepKey | usr/lib/yuki-iptv/yuki_iptv/xmltv.py:41-45 | a channel appends its stripped display names under its stripped id, creating the list, and touches no other key |
| Xmltv.IdsFromErr | usr/lib/yuki-iptv/yuki_iptv/xmltv.py:40-45 | the channel loop raises exactly when some channel is named but has no `id` |
| Xmltv.IdsFromKey | usr/lib/yuki-iptv/yuki_iptv/xmltv.py:40-45 | `ids[key]` lists the display names of every channel with that id, in document order, and exists exactly when there is one |
| Xmltv.IconsForSpec | usr/lib/yuki-iptv/yuki_iptv/xmltv.py:46-56 | for one display name, only the last icon `src` is kept, stripped |
| Xmltv.ChannelIconsSpec | usr/lib/yuki-iptv/yuki_iptv/xmltv.py:41-56 | every display name of a channel gets the channel's last icon `src` |
| Xmltv.IconsFromSpec | usr/lib/yuki-iptv/yuki_iptv/xmltv.py:40-56 | `icons[name]` is the last icon of the last channel with that display name and an icon; absent when there is none |
| Xmltv.FileUnderSpec | usr/lib/yuki-iptv/yuki_iptv/xmltv.py:78-106 | each display name gets its list created, and the entry appended once per occurrence when the programme is in the window |
| Xmltv.ProgrammesFromSpec | usr/lib/yuki-iptv/yuki_iptv/xmltv.py:57-108 | the programme loop creates a name's list exactly when a programme refers to it, and appends that name's in-window entries in document order |
| Xmltv.UnknownChannelIgnored | usr/lib/yuki-iptv/yuki_iptv/xmltv.py:70-71 | a programme whose channel is missing or unknown changes nothing |
| Xmltv.SameChannelsSameList | usr/lib/yuki-iptv/yuki_iptv/xmltv.py:78-106 | two display names listed equally often under every id get the same programme list |
| Xmltv.AddIcons | usr/lib/yuki-iptv/yuki_iptv/xmltv.py:49-54 | the icon loop computes the specification |
| Xmltv.AddChannel | usr/lib/yuki-iptv/yuki_iptv/xmltv.py:41-56 | one channel's ids and icons are the specification's |
| Xmltv.BuildChannelMaps | usr/lib/yuki-iptv/yuki_iptv/xmltv.py:40-56 | the channel loop computes the ids or the KeyError, and the icons |
| Xmltv.FileProgramme | usr/lib/yuki-iptv/yuki_iptv/xmltv.py:78-106 | the loop over one programme's display names computes the specification |
| Xmltv.BuildProgrammes | usr/lib/yuki-iptv/yuki_iptv/xmltv.py:57-108 | the programme loop computes the specification |
| Xmltv.ParseAsXmltv | usr/lib/yuki-iptv/yuki_iptv/xmltv.py:14-109 | `parse_as_xmltv` computes the specification's result or error |
| Xmltv.XmltvGuide | usr/lib/yuki-iptv/yuki_iptv/xmltv.py:57-109 | the guide has a list for exactly the names some programme refers to, and it is that name's in-window entries in document order |
| Xmltv.XmltvMaps | usr/lib/yuki-iptv/yuki_iptv/xmltv.py:37-56 | parsing fails exactly when a named channel lacks an id; otherwise `ids` and `icons` are the per-key references above |
| Epg.Merge | usr/lib/yuki-iptv/yuki_iptv/epg.py:34-38 | the merged keys are the union, and the second dictionary wins |
| Epg.MergeIdempotent | usr/lib/yuki-iptv/yuki_iptv/epg.py:34-38 | merging the same dictionary again changes nothing |
| Epg.MergeAllKey | usr/lib/yuki-iptv/yuki_iptv/epg.py:75-80 | after merging a run of sources, each key holds the value of the last source that has it |
| Epg.SplitLocator | usr/lib/yuki-iptv/yuki_iptv/epg.py:49-53 | at least one URL; a locator without commas or the marker is its own single URL |
| Epg.UnpackComposite | usr/lib/yuki-iptv/yuki_iptv/epg.py:52-53 | dropping the marker from a composite locator and splitting it gives the URLs back |
| Epg.LocatorRoundTrip | usr/lib/yuki-iptv/yuki_iptv/epg.py:49-53 | the locator `parse_m3u` builds from channel EPG URLs splits back into those URLs |
| Epg.CommaLocator | usr/lib/yuki-iptv/yuki_iptv/epg.py:50-53 | a comma-separated locator gives its comma-separated parts |
| Epg.OutcomesOf | usr/lib/yuki-iptv/yuki_iptv/epg.py:55-89 | one outcome per source URL, in order |
| Epg.FailFlags | usr/lib/yuki-iptv/yuki_iptv/epg.py:83-88 | one failure flag per source, set exactly for a failed source |
| Epg.FetchFailures | usr/lib/yuki-iptv/yuki_iptv/epg.py:83-89 | the loop records one flag per source and the failed sources' exceptions, in order |
| Epg.FetchMaps | usr/lib/yuki-iptv/yuki_iptv/epg.py:75-78 | the programmes are the sources' guides merged in order; the ids are the XMLTV sources' ids merged in order |
| Epg.FetchIcons | usr/lib/yuki-iptv/yuki_iptv/epg.py:79-82 | the icons are the XMLTV sources' icons merged in order: re-merging the previous icons after a JTV source changes nothing |
| Epg.AllFailed | usr/lib/yuki-iptv/yuki_iptv/epg.py:90-92 | when every source failed, the first recorded exception is the first source's |
| Epg.LoadSource | usr/lib/yuki-iptv/yuki_iptv/epg.py:64-82 | one source is loaded, parsed as XMLTV and, when that fails, as JTV; a load or JTV error fails it |
| Epg.FetchEpg | usr/lib/yuki-iptv/yuki_iptv/epg.py:40-95 | `fetch_epg` computes the specification's result |
| Epg.FetchSources | usr/lib/yuki-iptv/yuki_iptv/epg.py:55-95 | the source loop and the result it builds match the specification |
| Epg.EpgOk | usr/lib/yuki-iptv/yuki_iptv/epg.py:90-95 | `epg_ok` holds exactly when some source worked; then `exc` is None, else it is the first source's exception; the first element is `{}` |
| Epg.EpgProgrammes | usr/lib/yuki-iptv/yuki_iptv/epg.py:75-78 | each channel's programmes are those of the last source that lists it |
| Epg.EpgIdsIcons | usr/lib/yuki-iptv/yuki_iptv/epg.py:76-80 | each id's names and each name's icon are those of the last XMLTV source that has them |
| Series.SeasonM3U.constructor | usr/lib/yuki-iptv/thirdparty/series.py:21-24 | a new season has its name and no episodes |
| Series.SerieM3U.constructor | usr/lib/yuki-iptv/thirdparty/series.py:12-18 | a new series has its name, no logo and no seasons or episodes |
| Series.SeriesName | usr/lib/yuki-iptv/thirdparty/series.py:39-43 | the `tvg-name`, or the title when it is empty; empty only when both are |
| Series.SerieFor | usr/lib/yuki-iptv/thirdparty/series.py:53-59 | an existing series is reused; otherwise a fresh one with the channel's logo is entered under its name |
| Series.SeasonFor | usr/lib/yuki-iptv/thirdparty/series.py:60-65 | an existing season is reused; otherwise a fresh one is entered under its name, and the series is otherwise unchanged |
| Series.FileInSerie | usr/lib/yuki-iptv/thirdparty/series.py:60-74 | the episode is stored in its season, replacing any same-named one, and appended to the series' list; other seasons are unchanged; every episode of a season stays on the series' list |
| Series.FileEpisode | usr/lib/yuki-iptv/thirdparty/series.py:51-75 | the state after filing is the specification's: only the matched series and season change; the "season episodes are listed" invariant holds for a new series and is kept by an existing one |
| Series.ParseSeries | usr/lib/yuki-iptv/thirdparty/series.py:46-78 | `is_matched` holds exactly when the pattern matches the series name; without a match nothing changes; with one, the episode is filed as above |

## Left out

- Logging, `gettext` and the `progress_dict` progress messages are not modelled. They do not affect the results. The translated "All channels" label is a constructor parameter.
- Reading files and HTTP requests (`load_epg`) are left out. Each URL's outcome is the `load` function of `Epg.Env`, which yields the parsed payload or a load error.
- XML parsing, with its gzip and xz fallbacks, and ZIP reading are left out. The document and the archive members arrive parsed. A payload that none of them accepts is `None`. `zf.read` is taken not to fail.
- The cp437, cp866 and cp1251 codecs are character tables given as parameters.
- `Jtv.FiletimeToTimestamp` uses exact integers instead of Python floats. `datetime(1601, 1, 1).timestamp()` and the timezone setting are parameters (`Jtv.Clock`). Float rounding of very large timestamps is not captured.
- XMLTV `strptime` parsing and `datetime.now()` are left out. Programme times arrive as parsed timestamps, and the catch-up window's day bounds are parameters (`Xmltv.Window`).
- The regular-expression engine is not modelled. Each pattern the parsers use is written out as string functions. The series pattern is an abstract `matcher` returning the three groups.
- `Series.ParseSeries`: the bare `except` of `parse_series` cannot fire in the model. With the matcher given, the `try` body raises nothing.
- `Series.ChannelM3U` is a value. The source stores one shared object in the season and in the series list, and that aliasing is not captured.
- `M3u.M3UParser.ScanLines` keeps the EPG fields in locals during the line loop and stores them once after it. Nothing reads the fields while `parse_m3u` runs.
- `AstronciaM3u.M3uParser.FilterInGroups` returns the filtered list and leaves `files` alone. In the source, `self.logging` is never set, so the method raises before it assigns `files`; it raises even for an empty word list.
- `exportJson`, `filterOutFilesEndingWith`, `filterInFilesEndingWith` and `getCustomTitle` of the older parser are not modelled. They read a `titleFile` key that no record has, or only print.
- `AstronciaM3u.M3uParser.ManageLine` takes a line index from 0 up. `parseFile` never passes a negative one, so Python's negative indexing is not modelled.
- Epg's `thirdparty/jtv.py` is not part of this model. The JTV reader modelled is `data/modules/astroncia/jtv.py`, which has the same `parse_jtv(c, settings)` interface.
- `Text.ParsePyInt` reads only ASCII digits. Python's `int()` also reads the other Unicode decimal digits (`catchup-days="٣"` gives 3 there and the default here). Python 3.11 and later also refuse texts of more than 4300 digits, which the model accepts. `M3u.NormalizeCatchupDays` inherits both gaps.
- `Epg.LocatorRoundTrip` requires URLs free of `,` and `^`. Excluding only the marker and separator strings is not enough: `["x:::^^^", "b"]` joins into a locator that splits into `["x", "^^^:::b"]`.
- `Xmltv.SameChannelsSameList` requires equal counts under every id. Two names that share ids but appear a different number of times get different lists.
- Three behaviours of the code are modelled as written:
  - XMLTV icons keep the last `src`, not the first.
  - A JTV channel with more titles than start times raises IndexError rather than dropping titles, and that fails the whole source.
  - XMLTV `ids` can hold an empty name, because a whitespace-only display name passes the truth test before it is stripped.
