/** The TV guide orchestration: the guide locator is split into source
    URLs, each source is loaded and parsed as XMLTV, or as a JTV archive
    when that fails, and the results are merged source by source. */
module Epg {
  import opened Wrappers
  import opened Text
  import opened Programmes
  import M3u
  import Xmltv
  import Jtv

  // ---------------------------------------------------------------------
  // merge_two_dicts
  // ---------------------------------------------------------------------

  /** `merge_two_dicts`: a copy of `d1` updated with `d2`. */
  function Merge<V>(d1: map<string, V>, d2: map<string, V>): (r: map<string, V>)
    ensures r.Keys == d1.Keys + d2.Keys
    ensures forall k :: k in r ==> r[k] == if k in d2 then d2[k] else d1[k]
  {
    d1 + d2
  }

  /** Merging the same dictionary twice is merging it once. */
  lemma MergeIdempotent<V>(d1: map<string, V>, d2: map<string, V>)
    ensures Merge(Merge(d1, d2), d2) == Merge(d1, d2)
  {
    assert Merge(Merge(d1, d2), d2).Keys == Merge(d1, d2).Keys;
  }

  /** The dictionaries a run of sources contributes, merged in order onto
      `acc`; None stands for a source that contributes nothing. */
  function MergeAll<V>(acc: map<string, V>, ms: seq<Option<map<string, V>>>): map<string, V>
    decreases |ms|
  {
    if ms == [] then acc
    else MergeAll(match ms[0] case Some(m) => Merge(acc, m) case None => acc, ms[1..])
  }

  /** Reference: the value the last contributing dictionary holding `k`
      gives it. */
  function LastWriter<V>(ms: seq<Option<map<string, V>>>, k: string): Option<V>
    decreases |ms|
  {
    if ms == [] then None
    else
      match LastWriter(ms[1..], k)
      case Some(v) => Some(v)
      case None => if ms[0].Some? && k in ms[0].value then Some(ms[0].value[k]) else None
  }

  /** Last writer wins: a key takes the value of the last dictionary that
      holds it, and keeps its old value when none does. */
  lemma {:induction false} MergeAllKey<V>(acc: map<string, V>, ms: seq<Option<map<string, V>>>, k: string)
    ensures var r := MergeAll(acc, ms);
            match LastWriter(ms, k)
            case Some(v) => k in r && r[k] == v
            case None => (k in r <==> k in acc) && (k in r ==> r[k] == acc[k])
    decreases |ms|
  {
    if ms != [] {
      MergeAllKey(match ms[0] case Some(m) => Merge(acc, m) case None => acc, ms[1..], k);
    }
  }

  // ---------------------------------------------------------------------
  // The guide locator
  // ---------------------------------------------------------------------

  const MARKER: string := M3u.MULTIPLE_MARKER
  const SEPARATOR: string := M3u.URL_SEPARATOR

  /** The comma form of the locator rewritten into the composite form. */
  function ExpandCommas(epg: string): string {
    if ',' in epg then MARKER + Join(Split(epg, ","), SEPARATOR) else epg
  }

  /** The list of source URLs `fetch_epg` iterates over. */
  function SplitLocator(epg: string): (r: seq<string>)
    ensures |r| >= 1
    ensures ',' !in epg && !StartsWith(epg, MARKER) ==> r == [epg]
  {
    var s := ExpandCommas(epg);
    if StartsWith(s, MARKER) then Split(Replace(s, MARKER, ""), SEPARATOR) else [s]
  }

  /** In a join of `^`-free URLs, no occurrence of the marker starts at
      `j`: every `^` there belongs to a separator, and no separator is
      followed by `::M`. */
  lemma {:induction false} NoMarkerAt(urls: seq<string>, j: int)
    requires forall i :: 0 <= i < |urls| ==> '^' !in urls[i]
    ensures !OccursAt(Join(urls, SEPARATOR), MARKER, j)
    decreases |urls|
  {
    var s := Join(urls, SEPARATOR);
    if |urls| >= 1 && 0 <= j && j + |MARKER| <= |s| {
      var u := urls[0];
      if j < |u| {
        assert s[j] == u[j];
        assert s[j..j + |MARKER|][0] != MARKER[0];
      } else {
        var t := Join(urls[1..], SEPARATOR);
        assert s == u + SEPARATOR + t;
        if j < |u| + |SEPARATOR| {
          var d := j - |u|;
          var i := if d == 3 then 2 else if d == 4 then 4 else if d == 5 then 1 else 0;
          assert s[j + i] == SEPARATOR[d + i];
          assert s[j..j + |MARKER|][i] != MARKER[i];
        } else {
          var j' := j - |u| - |SEPARATOR|;
          assert s[j..j + |MARKER|] == t[j'..j' + |MARKER|];
          NoMarkerAt(urls[1..], j');
        }
      }
    }
  }

  /** Splitting at the separator undoes the join of `^`-free URLs. */
  lemma {:induction false} SplitJoinSeparator(urls: seq<string>)
    requires |urls| >= 1
    requires forall i :: 0 <= i < |urls| ==> '^' !in urls[i]
    ensures Split(Join(urls, SEPARATOR), SEPARATOR) == urls
    decreases |urls|
  {
    var u := urls[0];
    if |urls| == 1 {
      forall k | 0 <= k < |u| ensures !StartsWith(u[k..], SEPARATOR) {
        if k + 3 < |u| {
          assert u[k..][3] == u[k + 3];
        }
      }
      SplitWhole(u, SEPARATOR);
    } else {
      var t := Join(urls[1..], SEPARATOR);
      var s := u + SEPARATOR + t;
      forall k | 0 <= k < |u| ensures !StartsWith(s[k..], SEPARATOR) {
        if k + 3 < |u| {
          assert s[k..][3] == u[k + 3];
        } else {
          assert s[k..][3] == SEPARATOR[k + 3 - |u|];
        }
      }
      SplitPiece(u, SEPARATOR, t);
      SplitJoinSeparator(urls[1..]);
      assert [u] + urls[1..] == urls;
    }
  }

  /** Removing the marker from the composite form leaves the join. */
  lemma DropMarker(urls: seq<string>)
    requires forall i :: 0 <= i < |urls| ==> '^' !in urls[i]
    ensures Replace(MARKER + Join(urls, SEPARATOR), MARKER, "") == Join(urls, SEPARATOR)
  {
    var j := Join(urls, SEPARATOR);
    var s := MARKER + j;
    assert StartsWith(s, MARKER);
    assert s[|MARKER|..] == j;
    assert Replace(s, MARKER, "") == Replace(j, MARKER, "");
    forall k ensures !OccursAt(j, MARKER, k) {
      NoMarkerAt(urls, k);
    }
    ReplaceAbsent(j, MARKER, "");
  }

  /** The composite form of `^`-free URLs unpacks to those URLs. */
  lemma UnpackComposite(urls: seq<string>)
    requires |urls| >= 1
    requires forall i :: 0 <= i < |urls| ==> '^' !in urls[i]
    ensures StartsWith(MARKER + Join(urls, SEPARATOR), MARKER)
    ensures Split(Replace(MARKER + Join(urls, SEPARATOR), MARKER, ""), SEPARATOR) == urls
  {
    DropMarker(urls);
    SplitJoinSeparator(urls);
  }

  /** The locator a playlist yields from its channels' guide URLs splits
      back into exactly those URLs, in order, when no URL holds `,` or `^`. */
  lemma LocatorRoundTrip(urls: seq<string>)
    requires |urls| >= 1
    requires forall i :: 0 <= i < |urls| ==> ',' !in urls[i] && '^' !in urls[i]
    ensures SplitLocator(M3u.FinalLocator("", urls)) == urls
  {
    JoinExcludes(urls, SEPARATOR, ',');
    UnpackComposite(urls);
  }

  /** A comma-separated locator without `^` is the list of its comma
      pieces. */
  lemma CommaLocator(epg: string)
    requires ',' in epg && '^' !in epg
    ensures SplitLocator(epg) == Split(epg, ",")
  {
    SplitExcludes(epg, ",", '^');
    UnpackComposite(Split(epg, ","));
  }

  // ---------------------------------------------------------------------
  // fetch_epg
  // ---------------------------------------------------------------------

  /** What the two parsers see in one source's bytes: the document XML
      parsing yields (None when they are neither plain, gzip'ed nor xz'ed
      XML) and the members of the archive (None when they are no ZIP). */
  datatype Payload = Payload(xml: Option<Xmltv.XmlDoc>, zip: Option<seq<Jtv.ZipEntry>>)

  /** The exception recorded for a failed source. */
  datatype Failure = LoadFailed(reason: string) | JtvFailed(error: Jtv.JtvError)

  /** What `fetch_epg` takes from outside: `load_epg` for each URL, the
      window of `parse_as_xmltv`, and the codecs and clock of `parse_jtv`. */
  datatype Env = Env(
    load: string -> Result<Payload, string>,
    win: Xmltv.Window,
    codecs: Jtv.Codecs,
    clock: Jtv.Clock)

  /** How one source ends: parsed as XMLTV, parsed as JTV, or failed. */
  datatype Outcome = Xml(pr: Xmltv.XmltvResult) | Zip(guide: Guide) | Failed(failure: Failure)

  function OutcomeOf(url: string, env: Env): Outcome {
    match env.load(url)
    case Err(reason) => Failed(LoadFailed(reason))
    case Ok(p) =>
      match Xmltv.XmltvSpec(p.xml, env.win)
      case Ok(pr) => Xml(pr)
      case Err(_) =>
        match Jtv.JtvSpec(p.zip, env.codecs, env.clock)
        case Ok(g) => Zip(g)
        case Err(e) => Failed(JtvFailed(e))
  }

  /** The outcome of each source, in order. */
  function OutcomesOf(urls: seq<string>, env: Env): (os: seq<Outcome>)
    ensures |os| == |urls|
    ensures forall i :: 0 <= i < |urls| ==> os[i] == OutcomeOf(urls[i], env)
  {
    seq(|urls|, i requires 0 <= i < |urls| => OutcomeOf(urls[i], env))
  }

  /** The accumulators of the source loop; `last` holds the icons of the
      last successful XMLTV parse (`pr_xmltv[2]`), None before one. */
  datatype FetchState = FetchState(
    programmes: Guide,
    progIds: Xmltv.Ids,
    icons: Xmltv.Icons,
    last: Option<Xmltv.Icons>,
    failures: seq<bool>,
    exceptions: seq<Failure>)

  const Start: FetchState := FetchState(map[], map[], map[], None, [], [])

  /** One source. After a JTV parse the icons of the last XMLTV parse are
      merged again (the variable survives from an earlier iteration; before
      any, the NameError is swallowed). */
  function SourceStep(st: FetchState, o: Outcome): FetchState {
    match o
    case Xml(pr) =>
      st.(programmes := Merge(st.programmes, pr.programmes), progIds := Merge(st.progIds, pr.ids),
          icons := Merge(st.icons, pr.icons), last := Some(pr.icons), failures := st.failures + [false])
    case Zip(g) =>
      st.(programmes := Merge(st.programmes, g),
          icons := if st.last.Some? then Merge(st.icons, st.last.value) else st.icons,
          failures := st.failures + [false])
    case Failed(f) =>
      st.(failures := st.failures + [true], exceptions := st.exceptions + [f])
  }

  /** The source loop, from `st`. */
  function FetchFrom(st: FetchState, os: seq<Outcome>): FetchState
    decreases |os|
  {
    if os == [] then st else FetchFrom(SourceStep(st, os[0]), os[1..])
  }

  /** The list `fetch_epg` returns: `{}`, the programmes, `epg_ok`, `exc`,
      `prog_ids` and the icons. */
  datatype EpgResult = EpgResult(
    head: Guide,
    programmes: Guide,
    ok: bool,
    exc: Option<Failure>,
    progIds: Xmltv.Ids,
    icons: Xmltv.Icons)

  // Per-source references.

  /** `epg_failures` of a run of sources. */
  function FailFlags(os: seq<Outcome>): (r: seq<bool>)
    ensures |r| == |os| && forall i :: 0 <= i < |os| ==> r[i] == os[i].Failed?
    decreases |os|
  {
    if os == [] then [] else [os[0].Failed?] + FailFlags(os[1..])
  }

  /** The exceptions of the failed sources, in order. */
  function FailuresOf(os: seq<Outcome>): seq<Failure>
    decreases |os|
  {
    if os == [] then []
    else (if os[0].Failed? then [os[0].failure] else []) + FailuresOf(os[1..])
  }

  /** The programme maps of the sources, None for a failed one. */
  function GuidesOf(os: seq<Outcome>): seq<Option<Guide>>
    decreases |os|
  {
    if os == [] then []
    else [match os[0] case Xml(pr) => Some(pr.programmes) case Zip(g) => Some(g) case Failed(_) => None]
         + GuidesOf(os[1..])
  }

  /** The `ids` maps of the XMLTV sources. */
  function IdsOf(os: seq<Outcome>): seq<Option<Xmltv.Ids>>
    decreases |os|
  {
    if os == [] then [] else [if os[0].Xml? then Some(os[0].pr.ids) else None] + IdsOf(os[1..])
  }

  /** The `icons` maps of the XMLTV sources. */
  function IconsOf(os: seq<Outcome>): seq<Option<Xmltv.Icons>>
    decreases |os|
  {
    if os == [] then [] else [if os[0].Xml? then Some(os[0].pr.icons) else None] + IconsOf(os[1..])
  }

  /** The loop appends one flag per source and one exception per failed
      source. */
  lemma {:induction false} FetchFailures(st: FetchState, os: seq<Outcome>)
    ensures FetchFrom(st, os).failures == st.failures + FailFlags(os)
    ensures FetchFrom(st, os).exceptions == st.exceptions + FailuresOf(os)
  {
    FetchFlags(st, os);
    FetchExceptions(st, os);
  }

  lemma {:induction false} FetchFlags(st: FetchState, os: seq<Outcome>)
    ensures FetchFrom(st, os).failures == st.failures + FailFlags(os)
    decreases |os|
  {
    if os != [] {
      var next := SourceStep(st, os[0]);
      assert next.failures == st.failures + [os[0].Failed?];
      FetchFlags(next, os[1..]);
    }
  }

  lemma {:induction false} FetchExceptions(st: FetchState, os: seq<Outcome>)
    ensures FetchFrom(st, os).exceptions == st.exceptions + FailuresOf(os)
    decreases |os|
  {
    if os != [] {
      var next := SourceStep(st, os[0]);
      assert next.exceptions == st.exceptions + (if os[0].Failed? then [os[0].failure] else []);
      FetchExceptions(next, os[1..]);
    }
  }

  /** The programmes and ids are the sources' maps merged in order. */
  lemma {:induction false} FetchMaps(st: FetchState, os: seq<Outcome>)
    ensures FetchFrom(st, os).programmes == MergeAll(st.programmes, GuidesOf(os))
    ensures FetchFrom(st, os).progIds == MergeAll(st.progIds, IdsOf(os))
    decreases |os|
  {
    if os != [] {
      FetchMaps(SourceStep(st, os[0]), os[1..]);
    }
  }

  /** The icons already hold everything the last XMLTV icons give. */
  predicate IconsCurrent(st: FetchState) {
    st.last.Some? ==> Merge(st.icons, st.last.value) == st.icons
  }

  /** The icons are the XMLTV sources' icons merged in order: merging the
      last XMLTV icons again after a JTV source changes nothing. */
  lemma {:induction false} FetchIcons(st: FetchState, os: seq<Outcome>)
    requires IconsCurrent(st)
    ensures FetchFrom(st, os).icons == MergeAll(st.icons, IconsOf(os))
    decreases |os|
  {
    if os != [] {
      if os[0].Xml? {
        MergeIdempotent(st.icons, os[0].pr.icons);
      }
      FetchIcons(SourceStep(st, os[0]), os[1..]);
    }
  }

  function EpgOf(st: FetchState): EpgResult
    requires false !in st.failures ==> |st.exceptions| > 0
  {
    EpgResult(map[], st.programmes, false in st.failures,
              if false in st.failures then None else Some(st.exceptions[0]), st.progIds, st.icons)
  }

  /** When every source failed, the first exception is the first source's. */
  lemma AllFailed(os: seq<Outcome>)
    requires |os| >= 1 && false !in FailFlags(os)
    ensures os[0].Failed?
    ensures |FailuresOf(os)| >= 1 && FailuresOf(os)[0] == os[0].failure
  {
    assert FailFlags(os)[0] == os[0].Failed?;
  }

  /** The result of the source loop over `os`. */
  function EpgFrom(os: seq<Outcome>): EpgResult
    requires |os| >= 1
  {
    FetchFailures(Start, os);
    if false !in FailFlags(os) then AllFailed(os); EpgOf(FetchFrom(Start, os))
    else EpgOf(FetchFrom(Start, os))
  }

  function EpgSpec(epg: string, env: Env): EpgResult {
    EpgFrom(OutcomesOf(SplitLocator(epg), env))
  }

  /** One source of `fetch_epg`: load it, parse it as XMLTV and, when
      that fails, as JTV. */
  method LoadSource(url: string, env: Env) returns (o: Outcome)
    ensures o == OutcomeOf(url, env)
  {
    var loaded := env.load(url);
    if loaded.Err? {
      return Failed(LoadFailed(loaded.error));
    }
    var pr := Xmltv.ParseAsXmltv(loaded.value.xml, env.win);
    if pr.Ok? {
      return Xml(pr.value);
    }
    var g := Jtv.ParseJtv(loaded.value.zip, env.codecs, env.clock);
    if g.Err? {
      return Failed(JtvFailed(g.error));
    }
    return Zip(g.value);
  }

  /** `fetch_epg`. */
  method FetchEpg(epg: string, env: Env) returns (r: EpgResult)
    ensures r == EpgSpec(epg, env)
  {
    var urls := SplitLocator(epg);
    r := FetchSources(urls, env);
  }

  /** The source loop of `fetch_epg` and the result it builds. */
  method FetchSources(urls: seq<string>, env: Env) returns (r: EpgResult)
    requires |urls| >= 1
    ensures r == EpgFrom(OutcomesOf(urls, env))
  {
    ghost var os := OutcomesOf(urls, env);
    var programmes: Guide := map[];
    var progIds: Xmltv.Ids := map[];
    var icons: Xmltv.Icons := map[];
    var last: Option<Xmltv.Icons> := None;
    var failures: seq<bool> := [];
    var exceptions: seq<Failure> := [];
    var i := 0;
    while i < |urls|
      invariant 0 <= i <= |urls|
      invariant FetchFrom(FetchState(programmes, progIds, icons, last, failures, exceptions), os[i..])
                == FetchFrom(Start, os)
    {
      assert os[i..][1..] == os[i + 1..];
      ghost var pre := FetchState(programmes, progIds, icons, last, failures, exceptions);
      var o := LoadSource(urls[i], env);
      assert FetchFrom(pre, os[i..]) == FetchFrom(SourceStep(pre, o), os[i + 1..]);
      match o {
        case Xml(pr) =>
          programmes := Merge(programmes, pr.programmes);
          progIds := Merge(progIds, pr.ids);
          last := Some(pr.icons);
          icons := Merge(icons, pr.icons);
          failures := failures + [false];
        case Zip(g) =>
          programmes := Merge(programmes, g);
          if last.Some? {
            icons := Merge(icons, last.value);
          }
          failures := failures + [false];
        case Failed(f) =>
          failures := failures + [true];
          exceptions := exceptions + [f];
      }
      assert FetchState(programmes, progIds, icons, last, failures, exceptions) == SourceStep(pre, o);
      i := i + 1;
    }
    FetchFailures(Start, os);
    if false !in failures {
      AllFailed(os);
    }
    r := EpgResult(map[], programmes, false in failures,
                   if false in failures then None else Some(exceptions[0]), progIds, icons);
  }

  /** `epg_ok` holds exactly when some source was loaded and parsed; when
      none was, `exc` is the exception of the first source, otherwise None.
      The first element is always `{}`. */
  lemma EpgOk(epg: string, env: Env)
    ensures var urls := SplitLocator(epg);
            var r := EpgSpec(epg, env);
            r.head == map[]
            && (r.ok <==> exists i :: 0 <= i < |urls| && !OutcomeOf(urls[i], env).Failed?)
            && (r.ok ==> r.exc.None?)
            && (!r.ok ==> r.exc == Some(OutcomeOf(urls[0], env).failure))
  {
    var os := OutcomesOf(SplitLocator(epg), env);
    FetchFailures(Start, os);
    if false !in FailFlags(os) {
      AllFailed(os);
    } else {
      var i :| 0 <= i < |os| && FailFlags(os)[i] == false;
      assert !os[i].Failed?;
    }
  }

  /** Each programme list is the one of the last source that was loaded,
      parsed and had that channel; a later list replaces an earlier one
      whole. Failed sources change nothing. */
  lemma EpgProgrammes(epg: string, env: Env, name: string)
    ensures var g := EpgSpec(epg, env).programmes;
            match LastWriter(GuidesOf(OutcomesOf(SplitLocator(epg), env)), name)
            case Some(v) => name in g && g[name] == v
            case None => name !in g
  {
    var os := OutcomesOf(SplitLocator(epg), env);
    FetchMaps(Start, os);
    MergeAllKey(map[], GuidesOf(os), name);
  }

  /** `prog_ids` and the icons come from the XMLTV sources only, the last
      one holding a key winning. */
  lemma EpgIdsIcons(epg: string, env: Env, key: string)
    ensures var os := OutcomesOf(SplitLocator(epg), env);
            var r := EpgSpec(epg, env);
            (match LastWriter(IdsOf(os), key)
             case Some(v) => key in r.progIds && r.progIds[key] == v
             case None => key !in r.progIds)
            && (match LastWriter(IconsOf(os), key)
                case Some(v) => key in r.icons && r.icons[key] == v
                case None => key !in r.icons)
  {
    var os := OutcomesOf(SplitLocator(epg), env);
    FetchMaps(Start, os);
    FetchIcons(Start, os);
    MergeAllKey(map[], IdsOf(os), key);
    MergeAllKey(map[], IconsOf(os), key);
  }
}
