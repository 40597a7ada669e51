/** The XMLTV guide: `<channel>` elements name a channel id's display
    names and icons, `<programme>` elements give its broadcasts. The XML,
    gzip and xz decoding is not modelled: the document arrives parsed. */
module Xmltv {
  import opened Wrappers
  import opened Text
  import opened Programmes

  /** A `<channel>` element: its `id` attribute (None when absent), the
      text of each `<display-name>` child in document order (None for an
      element without text) and the `src` attribute of each `<icon>` child
      (None when it has none). */
  datatype XmlChannel = XmlChannel(
    id: Option<string>,
    displayNames: seq<Option<string>>,
    iconSrcs: seq<Option<string>>)

  /** A `<programme>` element. `start` and `stop` are the timestamps
      `strptime(..., '%Y%m%d%H%M%S %z')` reads from those attributes, None
      when the attribute is missing or malformed. `title` and `desc` are
      None when there is no such child, Some(None) for a child without
      text. */
  datatype XmlProgramme = XmlProgramme(
    start: Option<int>,
    stop: Option<int>,
    channel: Option<string>,
    catchupId: Option<string>,
    title: Option<Option<string>>,
    desc: Option<Option<string>>)

  /** The `./channel` and the `./programme` children of the root, each in
      document order. */
  datatype XmlDoc = XmlDoc(channels: seq<XmlChannel>, programmes: seq<XmlProgramme>)

  /** What stands in for `settings["epgoffset"]` and `datetime.now()`:
      `shift` is `3600 * epgoffset`; `dayStart` and `dayEnd` are the bounds
      `parse_as_xmltv` computes, the shift already added. */
  datatype Window = Window(shift: int, dayStart: int, dayEnd: int)

  /** The exceptions that escape `parse_as_xmltv`. */
  datatype XmltvError =
    | NotXml            // neither plain, gzip'ed nor xz'ed XML
    | MissingChannelId  // KeyError 'id': a named `<channel>` without an id

  type Ids = map<string, seq<string>>
  type Icons = map<string, string>

  /** The three values `parse_as_xmltv` returns. */
  datatype XmltvResult = XmltvResult(programmes: Guide, ids: Ids, icons: Icons)

  /** `if display_name.text:` */
  predicate Truthy(text: Option<string>) {
    text.Some? && text.value != ""
  }

  // ---------------------------------------------------------------------
  // ids: channel id to display names
  // ---------------------------------------------------------------------

  /** `ids[id.strip()].append(text.strip())`, the list created when absent. */
  function AddName(ids: Ids, id: string, text: string): Ids {
    var key := Strip(id);
    ids[key := (if key in ids then ids[key] else []) + [Strip(text)]]
  }

  /** The display names of one channel, from the accumulated `ids`. */
  function NamesStep(ids: Ids, id: Option<string>, names: seq<Option<string>>): Result<Ids, XmltvError>
    decreases |names|
  {
    if names == [] then Ok(ids)
    else if Truthy(names[0]) then
      match id
      case None => Err(MissingChannelId)
      case Some(i) => NamesStep(AddName(ids, i, names[0].value), id, names[1..])
    else NamesStep(ids, id, names[1..])
  }

  function ThenIds(r: Result<Ids, XmltvError>, chs: seq<XmlChannel>): Result<Ids, XmltvError>
    decreases |chs|, 1
  {
    match r
    case Err(e) => Err(e)
    case Ok(ids) => IdsFrom(ids, chs)
  }

  /** The `ids` loop over the channels, starting from `ids`. */
  function IdsFrom(ids: Ids, chs: seq<XmlChannel>): Result<Ids, XmltvError>
    decreases |chs|, 0
  {
    if chs == [] then Ok(ids)
    else ThenIds(NamesStep(ids, chs[0].id, chs[0].displayNames), chs[1..])
  }

  /** Some display name of the channel is truthy. */
  predicate AnyTruthy(names: seq<Option<string>>)
    decreases |names|
  {
    names != [] && (Truthy(names[0]) || AnyTruthy(names[1..]))
  }

  /** A channel with a truthy display name but no id makes the loop raise. */
  predicate NamedWithoutId(ch: XmlChannel) {
    ch.id.None? && AnyTruthy(ch.displayNames)
  }

  /** Some channel makes the loop raise. */
  predicate AnyNamedWithoutId(chs: seq<XmlChannel>)
    decreases |chs|
  {
    chs != [] && (NamedWithoutId(chs[0]) || AnyNamedWithoutId(chs[1..]))
  }

  /** Reference: the stripped truthy display names of one channel. */
  function StrippedNames(names: seq<Option<string>>): seq<string>
    decreases |names|
  {
    if names == [] then []
    else (if Truthy(names[0]) then [Strip(names[0].value)] else []) + StrippedNames(names[1..])
  }

  /** Reference: the display names `ids` lists under `key`, channel by
      channel in document order. */
  function NamesOf(chs: seq<XmlChannel>, key: string): seq<string>
    decreases |chs|
  {
    if chs == [] then []
    else
      (if chs[0].id.Some? && Strip(chs[0].id.value) == key then StrippedNames(chs[0].displayNames) else [])
      + NamesOf(chs[1..], key)
  }

  /** `after[key]` grew from `before[key]` by `added`, the key existing
      exactly when it did before or `created` holds; an absent key gained
      nothing. */
  predicate Grew<T(==)>(before: map<string, seq<T>>, after: map<string, seq<T>>, key: string, created: bool, added: seq<T>) {
    (key in after <==> key in before || created)
    && (key in after ==> after[key] == (if key in before then before[key] else []) + added)
    && (key !in after ==> added == [])
  }

  lemma GrewTrans<T>(a: map<string, seq<T>>, b: map<string, seq<T>>, c: map<string, seq<T>>, key: string,
                     c1: bool, x: seq<T>, c2: bool, y: seq<T>)
    requires Grew(a, b, key, c1, x) && Grew(b, c, key, c2, y)
    ensures Grew(a, c, key, c1 || c2, x + y)
  {
    if key in c {
      var prev := if key in a then a[key] else [];
      if key in b {
        assert c[key] == (prev + x) + y;
      } else {
        assert x == [] && y == c[key];
      }
    }
  }

  /** The names of one channel raise exactly when it has no id. */
  lemma {:induction false} NamesStepErr(ids: Ids, id: Option<string>, names: seq<Option<string>>)
    ensures NamesStep(ids, id, names).Err? <==> id.None? && AnyTruthy(names)
    decreases |names|
  {
    if names != [] {
      NamesStepErr(if Truthy(names[0]) && id.Some? then AddName(ids, id.value, names[0].value) else ids,
                   id, names[1..]);
    }
  }

  /** The names of one channel are appended under its stripped id. */
  lemma {:induction false} NamesStepKey(ids: Ids, id: Option<string>, names: seq<Option<string>>, key: string)
    ensures NamesStep(ids, id, names).Ok? ==>
              var added := if id.Some? && Strip(id.value) == key then StrippedNames(names) else [];
              Grew(ids, NamesStep(ids, id, names).value, key, added != [], added)
    decreases |names|
  {
    if names != [] && NamesStep(ids, id, names).Ok? {
      var mine := id.Some? && Strip(id.value) == key;
      var first: seq<string> := if Truthy(names[0]) && mine then [Strip(names[0].value)] else [];
      var next := if Truthy(names[0]) && id.Some? then AddName(ids, id.value, names[0].value) else ids;
      assert Grew(ids, next, key, first != [], first);
      NamesStepKey(next, id, names[1..], key);
      var rest := if mine then StrippedNames(names[1..]) else [];
      GrewTrans(ids, next, NamesStep(ids, id, names).value, key, first != [], first, rest != [], rest);
      assert first + rest == (if mine then StrippedNames(names) else []);
    }
  }

  /** The channel loop raises exactly when some channel with a truthy
      display name has no id. */
  lemma {:induction false} IdsFromErr(ids: Ids, chs: seq<XmlChannel>)
    ensures IdsFrom(ids, chs).Err? <==> AnyNamedWithoutId(chs)
    decreases |chs|
  {
    if chs != [] {
      NamesStepErr(ids, chs[0].id, chs[0].displayNames);
      if NamesStep(ids, chs[0].id, chs[0].displayNames).Ok? {
        IdsFromErr(NamesStep(ids, chs[0].id, chs[0].displayNames).value, chs[1..]);
      }
    }
  }

  /** `ids` maps each stripped channel id to the stripped truthy display
      names of its channels in document order, and has no other keys. */
  lemma {:induction false} IdsFromKey(ids: Ids, chs: seq<XmlChannel>, key: string)
    ensures IdsFrom(ids, chs).Ok? ==>
              Grew(ids, IdsFrom(ids, chs).value, key, NamesOf(chs, key) != [], NamesOf(chs, key))
    decreases |chs|
  {
    if chs != [] && IdsFrom(ids, chs).Ok? {
      var ch := chs[0];
      var step := NamesStep(ids, ch.id, ch.displayNames);
      assert IdsFrom(ids, chs) == ThenIds(step, chs[1..]);
      NamesStepKey(ids, ch.id, ch.displayNames, key);
      var m := step.value;
      IdsFromKey(m, chs[1..], key);
      var added := if ch.id.Some? && Strip(ch.id.value) == key then StrippedNames(ch.displayNames) else [];
      GrewTrans(ids, m, IdsFrom(ids, chs).value, key, added != [], added,
                NamesOf(chs[1..], key) != [], NamesOf(chs[1..], key));
    }
  }

  // ---------------------------------------------------------------------
  // icons: display name to icon URL
  // ---------------------------------------------------------------------

  /** The last `src` among the icons of a channel. */
  function LastSrc(srcs: seq<Option<string>>): Option<string>
    decreases |srcs|
  {
    if srcs == [] then None
    else
      match LastSrc(srcs[1..])
      case Some(s) => Some(s)
      case None => srcs[0]
  }

  /** The icon loop for one display name: every icon with a `src` writes
      `icons[text.strip()]`; for a display name without text each write
      raises AttributeError, which the loop swallows. */
  function IconsFor(icons: Icons, text: Option<string>, srcs: seq<Option<string>>): Icons
    decreases |srcs|
  {
    if srcs == [] then icons
    else
      var next := if srcs[0].Some? && text.Some? then icons[Strip(text.value) := Strip(srcs[0].value)] else icons;
      IconsFor(next, text, srcs[1..])
  }

  /** The icons written for each display name of one channel in turn. */
  function ChannelIcons(icons: Icons, names: seq<Option<string>>, srcs: seq<Option<string>>): Icons
    decreases |names|
  {
    if names == [] then icons else ChannelIcons(IconsFor(icons, names[0], srcs), names[1..], srcs)
  }

  /** The `icons` loop over the channels, starting from `icons`. */
  function IconsFrom(icons: Icons, chs: seq<XmlChannel>): Icons
    decreases |chs|
  {
    if chs == [] then icons
    else IconsFrom(ChannelIcons(icons, chs[0].displayNames, chs[0].iconSrcs), chs[1..])
  }

  /** Some display name of the channel has text that strips to `name`. */
  predicate HasName(names: seq<Option<string>>, name: string)
    decreases |names|
  {
    names != [] && ((names[0].Some? && Strip(names[0].value) == name) || HasName(names[1..], name))
  }

  /** Reference: the stripped last `src` of the last channel that carries
      `name` and an icon with a `src`. */
  function IconOf(chs: seq<XmlChannel>, name: string): Option<string>
    decreases |chs|
  {
    if chs == [] then None
    else
      match IconOf(chs[1..], name)
      case Some(s) => Some(s)
      case None =>
        if HasName(chs[0].displayNames, name) && LastSrc(chs[0].iconSrcs).Some? then
          Some(Strip(LastSrc(chs[0].iconSrcs).value))
        else None
  }

  /** `icons[name]` after a step: `src` when the step wrote it, else what
      it was before. */
  predicate IconAfter(before: Icons, after: Icons, name: string, src: Option<string>) {
    match src
    case Some(s) => name in after && after[name] == s
    case None => (name in after <==> name in before) && (name in after ==> after[name] == before[name])
  }

  /** Only the last `src` of the channel survives the icon loop. */
  lemma {:induction false} IconsForSpec(icons: Icons, text: Option<string>, srcs: seq<Option<string>>, name: string)
    ensures IconAfter(icons, IconsFor(icons, text, srcs), name,
                      if text.Some? && Strip(text.value) == name && LastSrc(srcs).Some?
                      then Some(Strip(LastSrc(srcs).value)) else None)
    decreases |srcs|
  {
    if srcs != [] {
      var next := if srcs[0].Some? && text.Some? then icons[Strip(text.value) := Strip(srcs[0].value)] else icons;
      IconsForSpec(next, text, srcs[1..], name);
    }
  }

  lemma {:induction false} ChannelIconsSpec(icons: Icons, names: seq<Option<string>>, srcs: seq<Option<string>>, name: string)
    ensures IconAfter(icons, ChannelIcons(icons, names, srcs), name,
                      if HasName(names, name) && LastSrc(srcs).Some? then Some(Strip(LastSrc(srcs).value)) else None)
    decreases |names|
  {
    if names != [] {
      IconsForSpec(icons, names[0], srcs, name);
      ChannelIconsSpec(IconsFor(icons, names[0], srcs), names[1..], srcs, name);
    }
  }

  /** `icons` maps a display name to the stripped `src` of the last icon of
      the last channel carrying that name and an icon with a `src`; names
      with no such channel keep what `icons` held. */
  lemma {:induction false} IconsFromSpec(icons: Icons, chs: seq<XmlChannel>, name: string)
    ensures IconAfter(icons, IconsFrom(icons, chs), name, IconOf(chs, name))
    decreases |chs|
  {
    if chs != [] {
      ChannelIconsSpec(icons, chs[0].displayNames, chs[0].iconSrcs, name);
      IconsFromSpec(ChannelIcons(icons, chs[0].displayNames, chs[0].iconSrcs), chs[1..], name);
    }
  }

  // ---------------------------------------------------------------------
  // Programmes
  // ---------------------------------------------------------------------

  /** `start`/`stop`: the parsed time shifted by the offset, or 0. */
  function TimeOf(t: Option<int>, win: Window): int {
    match t
    case Some(v) => v + win.shift
    case None => 0
  }

  /** `programme.find(tag).text`, or "" when there is no such child. */
  function ChildText(child: Option<Option<string>>): Option<string> {
    match child
    case None => Some("")
    case Some(text) => text
  }

  /** The dictionary appended for a programme. */
  function EntryOf(p: XmlProgramme, win: Window): Programme {
    Programme(TimeOf(p.start, win), TimeOf(p.stop, win), ChildText(p.title), ChildText(p.desc),
              Some(p.catchupId.GetOr("")))
  }

  /** The strict window test. */
  predicate InWindow(p: XmlProgramme, win: Window) {
    TimeOf(p.start, win) > win.dayStart && TimeOf(p.stop, win) < win.dayEnd
  }

  /** The display names a programme is filed under; None when its channel
      attribute is missing or names no known id (KeyError, swallowed). */
  function ChansOf(ids: Ids, p: XmlProgramme): Option<seq<string>> {
    if p.channel.Some? && Strip(p.channel.value) in ids then Some(ids[Strip(p.channel.value)]) else None
  }

  /** One display name of a programme's channel: the key is created, and
      the entry appended when the programme is in the window. */
  function FileOne(guide: Guide, name: string, entry: Programme, keep: bool): Guide {
    var list := if name in guide then guide[name] else [];
    guide[name := if keep then list + [entry] else list]
  }

  /** The loop over the display names of one programme's channel. */
  function FileUnder(guide: Guide, names: seq<string>, entry: Programme, keep: bool): Guide
    decreases |names|
  {
    if names == [] then guide
    else FileUnder(FileOne(guide, names[0], entry, keep), names[1..], entry, keep)
  }

  /** One programme. */
  function FileProgrammeOf(guide: Guide, ids: Ids, p: XmlProgramme, win: Window): Guide {
    match ChansOf(ids, p)
    case None => guide
    case Some(names) => FileUnder(guide, names, EntryOf(p, win), InWindow(p, win))
  }

  /** The programme loop, starting from `guide`. */
  function ProgrammesFrom(guide: Guide, ids: Ids, ps: seq<XmlProgramme>, win: Window): Guide
    decreases |ps|
  {
    if ps == [] then guide
    else ProgrammesFrom(FileProgrammeOf(guide, ids, ps[0], win), ids, ps[1..], win)
  }

  function Count(names: seq<string>, name: string): nat
    decreases |names|
  {
    if names == [] then 0 else (if names[0] == name then 1 else 0) + Count(names[1..], name)
  }

  function Repeat(e: Programme, n: nat): seq<Programme>
    decreases n
  {
    if n == 0 then [] else [e] + Repeat(e, n - 1)
  }

  /** Reference: what one programme adds to the list of `name`: the entry
      once per occurrence of `name` among the display names of its
      channel, when it is in the window. */
  function Share(ids: Ids, p: XmlProgramme, win: Window, name: string): seq<Programme> {
    match ChansOf(ids, p)
    case Some(names) => if InWindow(p, win) then Repeat(EntryOf(p, win), Count(names, name)) else []
    case None => []
  }

  /** Reference: the list of `name`, in document order. */
  function ListOf(ids: Ids, ps: seq<XmlProgramme>, win: Window, name: string): seq<Programme>
    decreases |ps|
  {
    if ps == [] then [] else Share(ids, ps[0], win, name) + ListOf(ids, ps[1..], win, name)
  }

  /** Reference: some programme refers to a known channel carrying `name`. */
  predicate Referenced(ids: Ids, ps: seq<XmlProgramme>, name: string)
    decreases |ps|
  {
    ps != [] && ((ChansOf(ids, ps[0]).Some? && name in ChansOf(ids, ps[0]).value) || Referenced(ids, ps[1..], name))
  }

  lemma {:induction false} FileUnderSpec(guide: Guide, names: seq<string>, entry: Programme, keep: bool, name: string)
    ensures Grew(guide, FileUnder(guide, names, entry, keep), name, name in names,
                 if keep then Repeat(entry, Count(names, name)) else [])
    decreases |names|
  {
    if names != [] {
      var next := FileOne(guide, names[0], entry, keep);
      FileUnderSpec(next, names[1..], entry, keep, name);
      assert name in names <==> name == names[0] || name in names[1..];
      if keep && name == names[0] {
        var list := if name in guide then guide[name] else [];
        assert list + [entry] + Repeat(entry, Count(names[1..], name)) == list + Repeat(entry, Count(names, name));
      }
    }
  }

  /** Every display name of a referenced channel gets a key, kept or not;
      its list is exactly the reference list, in document order. */
  lemma {:induction false} ProgrammesFromSpec(guide: Guide, ids: Ids, ps: seq<XmlProgramme>, win: Window, name: string)
    ensures Grew(guide, ProgrammesFrom(guide, ids, ps, win), name, Referenced(ids, ps, name), ListOf(ids, ps, win, name))
    decreases |ps|
  {
    if ps != [] {
      var next := FileProgrammeOf(guide, ids, ps[0], win);
      var chans := ChansOf(ids, ps[0]);
      var here := chans.Some? && name in chans.value;
      if chans.Some? {
        FileUnderSpec(guide, chans.value, EntryOf(ps[0], win), InWindow(ps[0], win), name);
      }
      assert Grew(guide, next, name, here, Share(ids, ps[0], win, name));
      ProgrammesFromSpec(next, ids, ps[1..], win, name);
      GrewTrans(guide, next, ProgrammesFrom(guide, ids, ps, win), name, here, Share(ids, ps[0], win, name),
                Referenced(ids, ps[1..], name), ListOf(ids, ps[1..], win, name));
    }
  }

  /** A programme whose channel is missing or unknown changes nothing,
      wherever it stands in the document. */
  lemma {:induction false} UnknownChannelIgnored(guide: Guide, ids: Ids, ps1: seq<XmlProgramme>, p: XmlProgramme,
                                                 ps2: seq<XmlProgramme>, win: Window)
    requires ChansOf(ids, p).None?
    ensures ProgrammesFrom(guide, ids, ps1 + [p] + ps2, win) == ProgrammesFrom(guide, ids, ps1 + ps2, win)
    decreases |ps1|
  {
    if ps1 == [] {
      assert ps1 + [p] + ps2 == [p] + ps2 && ps1 + ps2 == ps2;
      assert ([p] + ps2)[1..] == ps2;
    } else {
      assert (ps1 + [p] + ps2)[1..] == ps1[1..] + [p] + ps2;
      assert (ps1 + ps2)[1..] == ps1[1..] + ps2;
      UnknownChannelIgnored(FileProgrammeOf(guide, ids, ps1[0], win), ids, ps1[1..], p, ps2, win);
    }
  }

  /** Two display names that occur equally often under every channel id
      collect identical programme lists, e.g. two names of one id that no
      other id uses. */
  lemma {:induction false} SameChannelsSameList(ids: Ids, ps: seq<XmlProgramme>, win: Window, n1: string, n2: string)
    requires forall key :: key in ids ==> Count(ids[key], n1) == Count(ids[key], n2)
    ensures ListOf(ids, ps, win, n1) == ListOf(ids, ps, win, n2)
    decreases |ps|
  {
    if ps != [] {
      SameChannelsSameList(ids, ps[1..], win, n1, n2);
    }
  }

  // ---------------------------------------------------------------------
  // parse_as_xmltv
  // ---------------------------------------------------------------------

  function XmltvSpec(doc: Option<XmlDoc>, win: Window): Result<XmltvResult, XmltvError> {
    match doc
    case None => Err(NotXml)
    case Some(d) =>
      match IdsFrom(map[], d.channels)
      case Err(e) => Err(e)
      case Ok(ids) =>
        Ok(XmltvResult(ProgrammesFrom(map[], ids, d.programmes, win), ids, IconsFrom(map[], d.channels)))
  }

  /** The icon loop of one display name. */
  method AddIcons(icons: Icons, text: Option<string>, srcs: seq<Option<string>>) returns (r: Icons)
    ensures r == IconsFor(icons, text, srcs)
  {
    r := icons;
    var k := 0;
    while k < |srcs|
      invariant 0 <= k <= |srcs|
      invariant IconsFor(r, text, srcs[k..]) == IconsFor(icons, text, srcs)
    {
      assert srcs[k..][1..] == srcs[k + 1..];
      if srcs[k].Some? && text.Some? {
        r := r[Strip(text.value) := Strip(srcs[k].value)];
      }
      k := k + 1;
    }
  }

  /** The display-name loop of one channel: `ids` and `icons` together. */
  method AddChannel(ids: Ids, icons: Icons, ch: XmlChannel) returns (r: Result<Ids, XmltvError>, icons': Icons)
    ensures r == NamesStep(ids, ch.id, ch.displayNames)
    ensures icons' == ChannelIcons(icons, ch.displayNames, ch.iconSrcs)
  {
    var names := ch.displayNames;
    var acc := ids;
    icons' := icons;
    var j := 0;
    while j < |names|
      invariant 0 <= j <= |names|
      invariant NamesStep(acc, ch.id, names[j..]) == NamesStep(ids, ch.id, names)
      invariant ChannelIcons(icons', names[j..], ch.iconSrcs) == ChannelIcons(icons, names, ch.iconSrcs)
    {
      assert names[j..][1..] == names[j + 1..];
      if Truthy(names[j]) {
        if ch.id.None? {
          icons' := ChannelIcons(icons, names, ch.iconSrcs);
          return Err(MissingChannelId), icons';
        }
        acc := AddName(acc, ch.id.value, names[j].value);
      }
      icons' := AddIcons(icons', names[j], ch.iconSrcs);
      j := j + 1;
    }
    return Ok(acc), icons';
  }

  /** The channel loop of `parse_as_xmltv`. */
  method BuildChannelMaps(chs: seq<XmlChannel>) returns (r: Result<Ids, XmltvError>, icons: Icons)
    ensures r == IdsFrom(map[], chs)
    ensures r.Ok? ==> icons == IconsFrom(map[], chs)
  {
    var ids: Ids := map[];
    icons := map[];
    var i := 0;
    while i < |chs|
      invariant 0 <= i <= |chs|
      invariant IdsFrom(ids, chs[i..]) == IdsFrom(map[], chs)
      invariant IconsFrom(icons, chs[i..]) == IconsFrom(map[], chs)
    {
      assert chs[i..][1..] == chs[i + 1..];
      var next, icons' := AddChannel(ids, icons, chs[i]);
      if next.Err? {
        return Err(next.error), icons';
      }
      ids := next.value;
      icons := icons';
      i := i + 1;
    }
    return Ok(ids), icons;
  }

  /** The display-name loop of one programme. */
  method FileProgramme(guide: Guide, names: seq<string>, entry: Programme, keep: bool) returns (r: Guide)
    ensures r == FileUnder(guide, names, entry, keep)
  {
    r := guide;
    var k := 0;
    while k < |names|
      invariant 0 <= k <= |names|
      invariant FileUnder(r, names[k..], entry, keep) == FileUnder(guide, names, entry, keep)
    {
      assert names[k..][1..] == names[k + 1..];
      var list := if names[k] in r then r[names[k]] else [];
      if keep {
        list := list + [entry];
      }
      r := r[names[k] := list];
      k := k + 1;
    }
  }

  /** The programme loop of `parse_as_xmltv`. */
  method BuildProgrammes(ids: Ids, ps: seq<XmlProgramme>, win: Window) returns (guide: Guide)
    ensures guide == ProgrammesFrom(map[], ids, ps, win)
  {
    guide := map[];
    var i := 0;
    while i < |ps|
      invariant 0 <= i <= |ps|
      invariant ProgrammesFrom(guide, ids, ps[i..], win) == ProgrammesFrom(map[], ids, ps, win)
    {
      assert ps[i..][1..] == ps[i + 1..];
      var chans := ChansOf(ids, ps[i]);
      if chans.Some? {
        guide := FileProgramme(guide, chans.value, EntryOf(ps[i], win), InWindow(ps[i], win));
      }
      i := i + 1;
    }
  }

  method ParseAsXmltv(doc: Option<XmlDoc>, win: Window) returns (r: Result<XmltvResult, XmltvError>)
    ensures r == XmltvSpec(doc, win)
  {
    if doc.None? {
      return Err(NotXml);
    }
    var ids, icons := BuildChannelMaps(doc.value.channels);
    if ids.Err? {
      return Err(ids.error);
    }
    var programmes := BuildProgrammes(ids.value, doc.value.programmes, win);
    return Ok(XmltvResult(programmes, ids.value, icons));
  }

  /** The guide of a parsed document: a programme list exactly for each
      display name of a referenced channel, each the reference list. */
  lemma XmltvGuide(doc: Option<XmlDoc>, win: Window, name: string)
    requires XmltvSpec(doc, win).Ok?
    ensures doc.Some? && IdsFrom(map[], doc.value.channels).Ok?
    ensures var ids := IdsFrom(map[], doc.value.channels).value;
            var g := XmltvSpec(doc, win).value.programmes;
            (name in g <==> Referenced(ids, doc.value.programmes, name))
            && (name in g ==> g[name] == ListOf(ids, doc.value.programmes, win, name))
  {
    ProgrammesFromSpec(map[], IdsFrom(map[], doc.value.channels).value, doc.value.programmes, win, name);
  }

  /** `parse_as_xmltv` raises KeyError exactly when a channel with a
      truthy display name has no id; otherwise `ids` and `icons` are the
      reference maps. */
  lemma XmltvMaps(d: XmlDoc, win: Window, key: string)
    ensures XmltvSpec(Some(d), win).Err? <==> AnyNamedWithoutId(d.channels)
    ensures XmltvSpec(Some(d), win).Ok? ==>
              var r := XmltvSpec(Some(d), win).value;
              (key in r.ids <==> NamesOf(d.channels, key) != [])
              && (key in r.ids ==> r.ids[key] == NamesOf(d.channels, key))
              && (key in r.icons <==> IconOf(d.channels, key).Some?)
              && (key in r.icons ==> r.icons[key] == IconOf(d.channels, key).value)
  {
    IdsFromErr(map[], d.channels);
    IdsFromKey(map[], d.channels, key);
    IconsFromSpec(map[], d.channels, key);
  }
}
