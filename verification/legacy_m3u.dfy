/** The older line-list M3U parser: it reads the playlist into a list of
    lines, tidies them in place, and appends one record per `#` line,
    taking the next line as the record's URL. */
module AstronciaM3u {
  import opened Wrappers
  import opened Text
  import M3u

  /** The group of a record whose info line names none. */
  const ALL_CHANNELS: string := "Все каналы"

  /** One record of `files`. */
  datatype Record = Record(
    title: string,
    tvgName: string,
    tvgId: string,
    tvgLogo: string,
    tvgGroup: string,
    url: string)

  /** The exceptions the parser lets escape: IndexError from a list or
      string index, AttributeError from the unset `self.logging`. */
  datatype LegacyError = IndexError | AttributeError

  // ---------------------------------------------------------------------
  // readAllLines
  // ---------------------------------------------------------------------

  /** The lines `readAllLines` leaves behind, and whether it raised. */
  datatype Lines = Lines(lines: seq<string>, failed: bool)

  /** `lines` in front of the lines of `t`. */
  function Glue(lines: seq<string>, t: Lines): Lines {
    Lines(lines + t.lines, t.failed)
  }

  predicate IsGroupLine(line: string) {
    StartsWith(line, "#EXTGRP:")
  }

  /** The tidying loop, literally: every visited line is right-stripped,
      but a `#EXTGRP:` line is popped and its stripped text overwrites the
      line after it, which is thereby lost (and never visited); a
      `#EXTGRP:` line with nothing after it raises IndexError. */
  function Tidy(ls: seq<string>): Lines
    decreases |ls|
  {
    if ls == [] then Lines([], false)
    else if IsGroupLine(ls[0]) then
      if |ls| == 1 then Lines([], true) else Glue([RStrip(ls[0])], Tidy(ls[2..]))
    else Glue([RStrip(ls[0])], Tidy(ls[1..]))
  }

  /** The text split into lines; no piece holds a newline, so the
      per-line `rstrip('\n')` changes nothing. */
  function RawLines(text: string): (r: seq<string>)
    ensures |r| >= 1
    ensures forall i :: 0 <= i < |r| ==> '\n' !in r[i]
  {
    SplitCharPieces(Strip(text), '\n');
    Split(Strip(text), "\n")
  }

  /** The trailing empty line dropped: only the text that is all
      whitespace has one, and it leaves no line at all. */
  function Trimmed(text: string): seq<string> {
    var ls := RawLines(text);
    if ls[|ls| - 1] == "" then ls[..|ls| - 1] else ls
  }

  /** `readAllLines`. */
  function ReadLines(text: string): Lines {
    var ls := Trimmed(text);
    if ls == [] then Lines([], true)
    else Tidy(if StartsWith(ls[0], "#EXTM3U") then ls[1..] else ls)
  }

  /** Without `#EXTGRP:` lines, tidying right-strips every line and keeps
      them all, in order. */
  lemma {:induction false} TidyNoGroups(ls: seq<string>)
    requires forall i :: 0 <= i < |ls| ==> !IsGroupLine(ls[i])
    ensures !Tidy(ls).failed
    ensures |Tidy(ls).lines| == |ls|
    ensures forall i :: 0 <= i < |ls| ==> Tidy(ls).lines[i] == RStrip(ls[i])
    decreases |ls|
  {
    if ls != [] {
      TidyNoGroups(ls[1..]);
    }
  }

  /** A `#EXTGRP:` line takes the place of the line after it: tidying
      `[g, x] + rest` never looks at `x`. */
  lemma TidySwallows(g: string, x: string, y: string, rest: seq<string>)
    requires IsGroupLine(g)
    ensures Tidy([g, x] + rest) == Tidy([g, y] + rest)
    ensures Tidy([g, x] + rest).lines != [] && Tidy([g, x] + rest).lines[0] == RStrip(g)
  {
    assert ([g, x] + rest)[2..] == rest;
    assert ([g, y] + rest)[2..] == rest;
  }

  /** `readAllLines` raises on a text that is all whitespace; otherwise,
      without `#EXTGRP:` lines, it keeps every line of the stripped text
      but a leading `#EXTM3U` one, each right-stripped. */
  lemma ReadLinesPlain(text: string)
    requires forall i :: 0 <= i < |RawLines(text)| ==> !IsGroupLine(RawLines(text)[i])
    ensures Strip(text) == "" ==> ReadLines(text).failed
    ensures Strip(text) != "" ==>
              var ls := RawLines(text);
              var body := if StartsWith(ls[0], "#EXTM3U") then ls[1..] else ls;
              !ReadLines(text).failed
              && |ReadLines(text).lines| == |body|
              && forall i :: 0 <= i < |body| ==> ReadLines(text).lines[i] == RStrip(body[i])
  {
    if Strip(text) != "" {
      TrimmedKeepsAll(text);
      ReadLinesKept(text);
    } else {
      ReadLinesBlank(text);
    }
  }

  lemma ReadLinesKept(text: string)
    requires forall i :: 0 <= i < |RawLines(text)| ==> !IsGroupLine(RawLines(text)[i])
    requires Trimmed(text) == RawLines(text)
    ensures var ls := RawLines(text);
            var body := if StartsWith(ls[0], "#EXTM3U") then ls[1..] else ls;
            !ReadLines(text).failed
            && |ReadLines(text).lines| == |body|
            && forall i :: 0 <= i < |body| ==> ReadLines(text).lines[i] == RStrip(body[i])
  {
    var ls := RawLines(text);
    var body := if StartsWith(ls[0], "#EXTM3U") then ls[1..] else ls;
    assert ReadLines(text) == Tidy(body);
    TidyNoGroups(body);
  }

  lemma ReadLinesBlank(text: string)
    requires Strip(text) == ""
    ensures ReadLines(text).failed
  {
    assert RawLines(text) == [""];
  }

  /** What `readAllLines` makes of the lines left after trimming. */
  lemma ReadLinesTrimmed(text: string, ls: seq<string>)
    requires ls == Trimmed(text)
    ensures ls == [] ==> ReadLines(text) == Lines([], true)
    ensures ls != [] ==> ReadLines(text) == Tidy(if StartsWith(ls[0], "#EXTM3U") then ls[1..] else ls)
  {
  }

  /** A text with something besides whitespace loses no line to trimming. */
  lemma TrimmedKeepsAll(text: string)
    requires Strip(text) != ""
    ensures Trimmed(text) == RawLines(text)
  {
    assert IsSpace('\n');
    LastLineNotEmpty(Strip(text));
  }

  /** A text that does not end in a newline does not end in an empty line. */
  lemma {:induction false} LastLineNotEmpty(s: string)
    requires s != [] && s[|s| - 1] != '\n'
    ensures var ls := Split(s, "\n"); ls[|ls| - 1] != ""
    decreases |s|
  {
    if StartsWith(s, "\n") {
      assert s[|"\n"|..] == s[1..];
      LastLineNotEmpty(s[1..]);
    } else if |s| > 1 {
      LastLineNotEmpty(s[1..]);
    }
  }

  /** A line that is not a `#EXTGRP:` line is right-stripped in place. */
  lemma TidyPlainStep(ls: seq<string>, i: nat)
    requires i < |ls| && !IsGroupLine(ls[i])
    ensures var ls' := ls[i := RStrip(ls[i])];
            Glue(ls'[..i + 1], Tidy(ls'[i + 1..])) == Glue(ls[..i], Tidy(ls[i..]))
  {
    var ls' := ls[i := RStrip(ls[i])];
    assert ls[i..][1..] == ls[i + 1..] == ls'[i + 1..];
    assert ls'[..i + 1] == ls[..i] + [RStrip(ls[i])];
  }

  /** A `#EXTGRP:` line is popped and overwrites the line after it. */
  lemma TidyGroupStep(ls: seq<string>, i: nat)
    requires i + 1 < |ls| && IsGroupLine(ls[i])
    ensures var ls' := (ls[..i] + ls[i + 1..])[i := RStrip(ls[i])];
            Glue(ls'[..i + 1], Tidy(ls'[i + 1..])) == Glue(ls[..i], Tidy(ls[i..]))
  {
    var ls' := (ls[..i] + ls[i + 1..])[i := RStrip(ls[i])];
    assert ls[i..][2..] == ls[i + 2..] == ls'[i + 1..];
    assert ls'[..i + 1] == ls[..i] + [RStrip(ls[i])];
  }

  /** The tidying loop of `readAllLines`, over the list in place: it walks
      the list by index while `#EXTGRP:` lines are popped from it. */
  method TidyLines(body: seq<string>) returns (ls: seq<string>, failed: bool)
    ensures Lines(ls, failed) == Tidy(body)
  {
    ls := body;
    var i := 0;
    while i < |ls|
      invariant 0 <= i <= |ls|
      invariant Glue(ls[..i], Tidy(ls[i..])) == Tidy(body)
    {
      var l := ls[i];
      if IsGroupLine(l) {
        if i + 1 >= |ls| {
          assert ls[i..] == [l];
          ls := ls[..i];
          return ls, true;
        }
        TidyGroupStep(ls, i);
        ls := (ls[..i] + ls[i + 1..])[i := RStrip(l)];
      } else {
        TidyPlainStep(ls, i);
        ls := ls[i := RStrip(l)];
      }
      i := i + 1;
    }
    assert ls[..i] == ls;
    return ls, false;
  }

  // ---------------------------------------------------------------------
  // parseFile and manageLine
  // ---------------------------------------------------------------------

  /** The multicast rewrite of this parser: as the newer parser's, but the
      `@` is kept. */
  function LegacyProxy(proxy: string, url: string): (r: string)
    ensures !(proxy != "" && (StartsWith(url, "udp://") || StartsWith(url, "rtp://"))) ==> r == url
    ensures proxy != "" && (StartsWith(url, "udp://") || StartsWith(url, "rtp://")) && '@' in url ==> '@' in r
  {
    if proxy != "" && (StartsWith(url, "udp://") || StartsWith(url, "rtp://")) then
      KeepsAt(proxy, url);
      M3u.ProxyPath(proxy, url)
    else url
  }

  /** `udp://rest` through `proxy` becomes `proxy/udp/rest` (and likewise
      for `rtp://`), with any `@` of the stream address kept. */
  lemma LegacyProxyForm(proxy: string, scheme: string, rest: string)
    requires scheme == "udp" || scheme == "rtp"
    requires M3u.PlainProxy(proxy) && M3u.PlainPath(rest)
    ensures LegacyProxy(proxy, scheme + "://" + rest) == proxy + "/" + scheme + "/" + rest
  {
    M3u.ProxyPathForm(proxy, scheme, rest);
  }

  /** The same form through a proxy written with a trailing `/`. */
  lemma LegacyProxySlashForm(proxy: string, scheme: string, rest: string)
    requires scheme == "udp" || scheme == "rtp"
    requires M3u.PlainProxy(proxy) && M3u.PlainPath(rest)
    ensures LegacyProxy(proxy + "/", scheme + "://" + rest) == proxy + "/" + scheme + "/" + rest
  {
    M3u.ProxyPathSlashForm(proxy, scheme, rest);
  }

  lemma KeepsAt(proxy: string, url: string)
    ensures '@' in url ==> '@' in M3u.ProxyPath(proxy, url)
  {
    if '@' in url {
      ReplaceKeepsChar(url, "udp://", "udp/", '@');
      var a := Replace(url, "udp://", "udp/");
      ReplaceKeepsChar(a, "rtp://", "rtp/", '@');
      var u := proxy + "/" + Replace(a, "rtp://", "rtp/");
      ReplaceKeepsChar(u, "//udp/", "/udp/", '@');
      ReplaceKeepsChar(Replace(u, "//udp/", "/udp/"), "//rtp/", "/rtp/", '@');
    }
  }

  /** The `group-title` value, or the all-channels label when it is absent
      or empty. */
  function GroupOf(info: string): (r: string)
    ensures r != ""
    ensures M3u.AttrMatch("group-title", info).Some? && M3u.AttrMatch("group-title", info).value != "" ==>
              r == M3u.AttrMatch("group-title", info).value
    ensures r == ALL_CHANNELS <==>
              M3u.AttrMatch("group-title", info) in {None, Some(""), Some(ALL_CHANNELS)}
  {
    match M3u.AttrMatch("group-title", info)
    case None => ALL_CHANNELS
    case Some(g) => if g == "" then ALL_CHANNELS else g
  }

  /** The record `manageLine` appends for an info line and its link. The
      attribute values are the raw matches, not stripped. */
  function RecordOf(info: string, link: string, proxy: string): Record {
    Record(
      title := AfterLastComma(info).GetOr(""),
      tvgName := M3u.AttrMatch("tvg-name", info).GetOr(""),
      tvgId := M3u.AttrMatch("tvg-ID", info).GetOr(""),
      tvgLogo := M3u.AttrMatch("tvg-logo", info).GetOr(""),
      tvgGroup := GroupOf(info),
      url := LegacyProxy(proxy, link))
  }

  /** The title is the text after the last comma: the line ends in a comma
      and the title, and the title holds no comma; "" without a comma. */
  lemma RecordTitle(info: string, link: string, proxy: string)
    ensures var t := RecordOf(info, link, proxy).title;
            (',' !in info ==> t == "")
            && (',' in info ==> |t| < |info| && info[|info| - |t| - 1] == ',' && info[|info| - |t|..] == t && ',' !in t)
  {
  }

  /** The records some steps append, and whether the last one raised. */
  datatype Parsed = Parsed(records: seq<Record>, failed: bool)

  function Then(records: seq<Record>, p: Parsed): Parsed {
    Parsed(records + p.records, p.failed)
  }

  /** `manageLine(n)`: `lines[n + 1]` raises IndexError when `n` is the last
      line; `#EXTM3U` itself appends nothing. */
  function Manage(lines: seq<string>, proxy: string, n: nat): Parsed {
    if n + 1 >= |lines| then Parsed([], true)
    else if lines[n] == "#EXTM3U" then Parsed([], false)
    else Parsed([RecordOf(lines[n], lines[n + 1], proxy)], false)
  }

  /** One iteration of `parseFile`: `line[0]` raises IndexError on an empty
      line. */
  function LineStep(lines: seq<string>, proxy: string, n: nat): Parsed
    requires n < |lines|
  {
    if lines[n] == "" then Parsed([], true)
    else if lines[n][0] == '#' then Manage(lines, proxy, n)
    else Parsed([], false)
  }

  /** The `parseFile` loop from line `n`; records appended before a raise
      stay appended. */
  function ParseFrom(lines: seq<string>, proxy: string, n: nat): Parsed
    decreases |lines| - n
  {
    if n >= |lines| then Parsed([], false)
    else
      var p := LineStep(lines, proxy, n);
      if p.failed then p else Then(p.records, ParseFrom(lines, proxy, n + 1))
  }

  /** A line that makes `parseFile` raise: an empty line, or a `#` line
      with no line after it. */
  predicate Breaks(lines: seq<string>, k: int)
    requires 0 <= k < |lines|
  {
    lines[k] == "" || (lines[k][0] == '#' && k + 1 == |lines|)
  }

  /** Some line from `n` on breaks `parseFile`. */
  predicate AnyBreak(lines: seq<string>, n: nat)
    decreases |lines| - n
  {
    n < |lines| && (Breaks(lines, n) || AnyBreak(lines, n + 1))
  }

  /** An info line: a `#` line other than `#EXTM3U`. */
  predicate IsInfo(line: string) {
    line != "" && line[0] == '#' && line != "#EXTM3U"
  }

  /** Reference: one record per info line from `n` on that has a line
      after it, built from the two, in order. */
  function RecordsOf(lines: seq<string>, proxy: string, n: nat): seq<Record>
    decreases |lines| - n
  {
    if n >= |lines| then []
    else
      (if IsInfo(lines[n]) && n + 1 < |lines| then [RecordOf(lines[n], lines[n + 1], proxy)] else [])
      + RecordsOf(lines, proxy, n + 1)
  }

  /** `parseFile` raises exactly when some line breaks it. */
  lemma {:induction false} ParseFromFails(lines: seq<string>, proxy: string, n: nat)
    ensures ParseFrom(lines, proxy, n).failed <==> AnyBreak(lines, n)
    decreases |lines| - n
  {
    if n < |lines| {
      ParseFromFails(lines, proxy, n + 1);
    }
  }

  /** When it does not raise, `parseFile` appends exactly the reference
      records. */
  lemma {:induction false} ParseFromRecords(lines: seq<string>, proxy: string, n: nat)
    ensures !ParseFrom(lines, proxy, n).failed ==> ParseFrom(lines, proxy, n).records == RecordsOf(lines, proxy, n)
    decreases |lines| - n
  {
    if n < |lines| {
      ParseFromRecords(lines, proxy, n + 1);
    }
  }

  /** One turn of the `parseFile` loop: a raising line ends the loop
      with the records so far, any other line adds its records. */
  lemma ParseFromStep(lines: seq<string>, proxy: string, n: nat, done: seq<Record>)
    requires n < |lines|
    requires Then(done, ParseFrom(lines, proxy, n)) == ParseFrom(lines, proxy, 0)
    ensures var p := LineStep(lines, proxy, n);
            if p.failed then ParseFrom(lines, proxy, 0) == Parsed(done, true) && p.records == []
            else Then(done + p.records, ParseFrom(lines, proxy, n + 1)) == ParseFrom(lines, proxy, 0)
  {
  }

  // ---------------------------------------------------------------------
  // Filters
  // ---------------------------------------------------------------------

  /** The records whose group does not contain `word`, in order. */
  function KeepWithout(files: seq<Record>, word: string): (r: seq<Record>)
    ensures |r| <= |files|
    ensures forall x :: x in r <==> x in files && !Contains(x.tvgGroup, word)
    decreases |files|
  {
    if files == [] then []
    else (if Contains(files[0].tvgGroup, word) then [] else [files[0]]) + KeepWithout(files[1..], word)
  }

  /** The filter keeps the order of the list: filtering a concatenation is
      concatenating the filtered parts, and a single record is kept
      exactly when its group lacks the word. */
  lemma KeepWithoutConcat(a: seq<Record>, b: seq<Record>, word: string)
    ensures KeepWithout(a + b, word) == KeepWithout(a, word) + KeepWithout(b, word)
    ensures forall x :: KeepWithout([x], word) == if Contains(x.tvgGroup, word) then [] else [x]
  {
    KeepWithoutAppend(a, b, word);
    forall x ensures KeepWithout([x], word) == if Contains(x.tvgGroup, word) then [] else [x] {
      KeepWithoutOne(x, word);
    }
  }

  lemma {:induction false} KeepWithoutAppend(a: seq<Record>, b: seq<Record>, word: string)
    ensures KeepWithout(a + b, word) == KeepWithout(a, word) + KeepWithout(b, word)
    decreases |a|
  {
    if a != [] {
      assert (a + b)[1..] == a[1..] + b;
      assert (a + b)[0] == a[0];
      KeepWithoutAppend(a[1..], b, word);
    } else {
      assert a + b == b;
    }
  }

  lemma KeepWithoutOne(x: Record, word: string)
    ensures KeepWithout([x], word) == if Contains(x.tvgGroup, word) then [] else [x]
  {
    assert [x][1..] == [];
  }

  /** Some of the words occurs in the group. */
  predicate AnyWordIn(words: seq<string>, group: string) {
    exists i :: 0 <= i < |words| && Contains(group, words[i])
  }

  /** The records whose group contains one of the words, each once, in
      order. */
  function KeepWithAny(files: seq<Record>, words: seq<string>): (r: seq<Record>)
    ensures |r| <= |files|
    ensures forall x :: x in r <==> x in files && AnyWordIn(words, x.tvgGroup)
    decreases |files|
  {
    if files == [] then []
    else
      var init := files[..|files| - 1];
      var last := files[|files| - 1];
      assert forall x :: x in files <==> x in init || x == last;
      KeepWithAny(init, words) + (if AnyWordIn(words, last.tvgGroup) then [last] else [])
  }

  /** The filter keeps the order of the list and each record once:
      filtering a concatenation is concatenating the filtered parts. */
  lemma {:induction false} KeepWithAnyConcat(a: seq<Record>, b: seq<Record>, words: seq<string>)
    ensures KeepWithAny(a + b, words) == KeepWithAny(a, words) + KeepWithAny(b, words)
    decreases |b|
  {
    if b != [] {
      var b', x := b[..|b| - 1], b[|b| - 1];
      assert b == b' + [x];
      assert a + b == (a + b') + [x];
      KeepWithAnyConcat(a, b', words);
      KeepWithAnySnoc(a + b', x, words);
      KeepWithAnySnoc(b', x, words);
    } else {
      assert a + b == a;
    }
  }

  lemma KeepWithAnySnoc(s: seq<Record>, x: Record, words: seq<string>)
    ensures KeepWithAny(s + [x], words)
            == KeepWithAny(s, words) + if AnyWordIn(words, x.tvgGroup) then [x] else []
  {
    assert (s + [x])[..|s|] == s;
  }

  /** A single record is kept exactly when one of the words occurs in its group. */
  lemma KeepWithAnySingle(x: Record, words: seq<string>)
    ensures KeepWithAny([x], words) == if AnyWordIn(words, x.tvgGroup) then [x] else []
  {
    assert [x][..0] == [];
  }

  // ---------------------------------------------------------------------
  // The parser object
  // ---------------------------------------------------------------------

  class M3uParser {
    var files: seq<Record>
    var lines: seq<string>
    const udpProxy: string

    constructor(udpProxy: string)
      ensures files == [] && lines == [] && this.udpProxy == udpProxy
    {
      files := [];
      lines := [];
      this.udpProxy := udpProxy;
    }

    /** `readAllLines`. */
    method ReadAllLines(text: string) returns (r: Result<nat, LegacyError>)
      modifies this
      ensures lines == ReadLines(text).lines && files == old(files)
      ensures r.Ok? <==> !ReadLines(text).failed
      ensures r.Ok? ==> r.value == |lines|
    {
      var ls := RawLines(text);
      if ls[|ls| - 1] == "" {
        ls := ls[..|ls| - 1];
      }
      assert ls == Trimmed(text);
      ReadLinesTrimmed(text, ls);
      if ls == [] {
        lines := ls;
        return Err(IndexError);
      }
      if StartsWith(ls[0], "#EXTM3U") {
        ls := ls[1..];
      }
      var tidied, failed := TidyLines(ls);
      lines := tidied;
      if failed {
        return Err(IndexError);
      }
      return Ok(|tidied|);
    }

    /** `manageLine(n)`. */
    method ManageLine(n: nat) returns (r: Result<(), LegacyError>)
      modifies this
      ensures lines == old(lines)
      ensures files == old(files) + Manage(lines, udpProxy, n).records
      ensures r.Err? <==> Manage(lines, udpProxy, n).failed
    {
      if n + 1 >= |lines| {
        return Err(IndexError);
      }
      var lineInfo := lines[n];
      var lineLink := lines[n + 1];
      if lineInfo != "#EXTM3U" {
        files := files + [RecordOf(lineInfo, lineLink, udpProxy)];
      }
      return Ok(());
    }

    /** `parseFile`. */
    method ParseFile() returns (r: Result<(), LegacyError>)
      modifies this
      ensures lines == old(lines)
      ensures files == old(files) + ParseFrom(lines, udpProxy, 0).records
      ensures r.Err? <==> ParseFrom(lines, udpProxy, 0).failed
    {
      ghost var ls := lines;
      ghost var done: seq<Record> := [];
      var n := 0;
      while n < |lines|
        invariant 0 <= n <= |ls| && lines == ls
        invariant files == old(files) + done
        invariant Then(done, ParseFrom(ls, udpProxy, n)) == ParseFrom(ls, udpProxy, 0)
      {
        var line := lines[n];
        ghost var step := LineStep(ls, udpProxy, n);
        ParseFromStep(ls, udpProxy, n, done);
        if line == "" {
          return Err(IndexError);
        }
        if line[0] == '#' {
          var m := ManageLine(n);
          if m.Err? {
            return Err(IndexError);
          }
        }
        done := done + step.records;
        n := n + 1;
      }
      return Ok(());
    }

    /** `readM3u`: the records accumulate across calls. */
    method ReadM3u(text: string) returns (r: Result<seq<Record>, LegacyError>)
      modifies this
      ensures lines == ReadLines(text).lines
      ensures ReadLines(text).failed ==> r.Err? && files == old(files)
      ensures !ReadLines(text).failed ==>
                files == old(files) + ParseFrom(lines, udpProxy, 0).records
                && (r.Err? <==> ParseFrom(lines, udpProxy, 0).failed)
                && (r.Ok? ==> r.value == files)
    {
      var read := ReadAllLines(text);
      if read.Err? {
        return Err(read.error);
      }
      var parsed := ParseFile();
      if parsed.Err? {
        return Err(parsed.error);
      }
      return Ok(files);
    }

    /** `filterOutFilesOfGroupsContaining`. */
    method FilterOutGroups(word: string)
      modifies this
      ensures files == KeepWithout(old(files), word) && lines == old(lines)
    {
      files := KeepWithout(files, word);
    }

    /** The list `filterInFilesOfGroupsContaining` computes; the method then
        raises on the unset `self.logging` before storing it, so `files`
        stays as it was. */
    method FilterInGroups(words: seq<string>) returns (kept: seq<Record>)
      ensures kept == KeepWithAny(files, words)
    {
      kept := [];
      var i := 0;
      while i < |files|
        invariant 0 <= i <= |files|
        invariant kept == KeepWithAny(files[..i], words)
      {
        var group := files[i].tvgGroup;
        var j := 0;
        var found := false;
        while j < |words| && !found
          invariant 0 <= j <= |words|
          invariant found ==> AnyWordIn(words, group)
          invariant !found ==> forall k :: 0 <= k < j ==> !Contains(group, words[k])
        {
          if Contains(group, words[j]) {
            found := true;
          }
          j := j + 1;
        }
        if found {
          kept := kept + [files[i]];
        }
        assert files[..i + 1][..i] == files[..i];
        i := i + 1;
      }
      assert files[..i] == files;
    }

    /** `getList`. */
    method GetList() returns (r: seq<Record>)
      ensures r == files
    {
      return files;
    }

    /** `getFile`: the last record, popped; on an empty list the unset
        `self.logging` raises. */
    method GetFile() returns (r: Result<Record, LegacyError>)
      modifies this
      ensures lines == old(lines)
      ensures old(files) == [] ==> r == Err(AttributeError) && files == old(files)
      ensures old(files) != [] ==>
                r == Ok(old(files)[|old(files)| - 1]) && files == old(files)[..|old(files)| - 1]
    {
      if files == [] {
        return Err(AttributeError);
      }
      r := Ok(files[|files| - 1]);
      files := files[..|files| - 1];
    }
  }
}
