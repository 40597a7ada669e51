/** Series grouping: a channel whose name reads as a series episode is
    filed under its series, its season and its episode. */
module Series {
  import opened Wrappers
  import M3u

  /** The `series`, `season` and `episode` groups of a full match of the
      series pattern. */
  datatype SeriesMatch = SeriesMatch(series: string, season: string, episode: string)

  /** An episode record. Only name, title, logo and url are ever set; the
      same record goes into the season and into the series' episode list. */
  datatype ChannelM3U = ChannelM3U(
    info: Option<string>,
    id: Option<string>,
    name: Option<string>,
    logo: Option<string>,
    logoPath: Option<string>,
    groupTitle: Option<string>,
    title: Option<string>,
    url: Option<string>)

  /** One season: episode name to episode record. */
  class SeasonM3U {
    const name: string
    var episodes: map<string, ChannelM3U>

    constructor(name: string)
      ensures this.name == name && episodes == map[]
    {
      this.name := name;
      episodes := map[];
    }
  }

  /** One series: its seasons by name and every episode filed under it. */
  class SerieM3U {
    const name: string
    var logo: Option<string>
    var logoPath: Option<string>
    var seasons: map<string, SeasonM3U>
    var episodes: seq<ChannelM3U>

    constructor(name: string)
      ensures this.name == name && logo == None && logoPath == None
      ensures seasons == map[] && episodes == []
    {
      this.name := name;
      logo := None;
      logoPath := None;
      seasons := map[];
      episodes := [];
    }
  }

  /** `get_series_name`: the `tvg-name`, or the title when it is empty. */
  function SeriesName(ch: M3u.Channel): (r: string)
    ensures r in {ch.tvgName, ch.title}
    ensures r == "" <==> ch.tvgName == "" && ch.title == ""
    ensures ch.tvgName != "" ==> r == ch.tvgName
  {
    if ch.tvgName == "" then ch.title else ch.tvgName
  }

  /** The episode record built for a channel. */
  function EpisodeOf(ch: M3u.Channel): ChannelM3U {
    var n := SeriesName(ch);
    ChannelM3U(None, None, Some(n), Some(ch.tvgLogo), None, None, Some(n), Some(ch.url))
  }

  /** Every episode some season of the series holds is on the series'
      episode list. */
  predicate EpisodesListed(serie: SerieM3U)
    reads serie, serie.seasons.Values
  {
    forall s, e :: s in serie.seasons && e in serie.seasons[s].episodes ==>
      serie.seasons[s].episodes[e] in serie.episodes
  }

  /** The objects filing under `m` writes to: the series, if it exists,
      and its season, if that exists too. */
  function Touched(series: map<string, SerieM3U>, m: SeriesMatch): set<object>
    reads if m.series in series then {series[m.series]} else {}
  {
    if m.series !in series then {}
    else {series[m.series]} + (if m.season in series[m.series].seasons then {series[m.series].seasons[m.season]} else {})
  }

  /** The seasons after filing `ep` under `m`, given the seasons `olds`
      before: the season under `m.season` is reused, or created; the episode
      is stored under `m.episode`, replacing any earlier one. Every other
      season stays the same object with the same episodes. */
  twostate predicate SeasonFiled(olds: map<string, SeasonM3U>, new seasons: map<string, SeasonM3U>,
                                 m: SeriesMatch, ep: ChannelM3U)
    reads seasons.Values
  {
    && seasons.Keys == olds.Keys + {m.season}
    && (forall s :: s in olds && s != m.season ==> seasons[s] == olds[s])
    && var season := seasons[m.season];
    && (if m.season in olds
        then season == olds[m.season] && season.episodes == old(season.episodes)[m.episode := ep]
        else fresh(season) && season.name == m.season && season.episodes == map[m.episode := ep])
    && (forall s :: s in olds && s != m.season && seasons[s] != season ==> seasons[s].episodes == old(seasons[s].episodes))
  }

  /** The state after filing `ep` under `m`: the series under `m.series`
      is reused, or created with `logo`; its seasons are filed as above;
      the episode is appended to the series' list. Every other series
      stays the same object. */
  twostate predicate Filed(series: map<string, SerieM3U>, new updated: map<string, SerieM3U>,
                           m: SeriesMatch, logo: string, ep: ChannelM3U)
    reads updated.Values, if m.series in updated then updated[m.series].seasons.Values else {}
  {
    && updated.Keys == series.Keys + {m.series}
    && (forall k :: k in series && k != m.series ==> updated[k] == series[k])
    && var serie := updated[m.series];
    && if m.series in series then
         && serie == series[m.series]
         && serie.logo == old(serie.logo) && serie.logoPath == old(serie.logoPath)
         && serie.episodes == old(serie.episodes) + [ep]
         && SeasonFiled(old(serie.seasons), serie.seasons, m, ep)
       else
         && fresh(serie) && serie.name == m.series && serie.logo == Some(logo) && serie.logoPath == None
         && serie.episodes == [ep]
         && SeasonFiled(map[], serie.seasons, m, ep)
  }

  /** The series under `name`, created with `logo` and entered when
      absent. */
  method SerieFor(series: map<string, SerieM3U>, name: string, logo: string)
    returns (updated: map<string, SerieM3U>, serie: SerieM3U)
    ensures updated == series[name := serie]
    ensures name in series ==> serie == series[name]
    ensures name !in series ==>
              fresh(serie) && serie.name == name && serie.logo == Some(logo) && serie.logoPath == None
              && serie.seasons == map[] && serie.episodes == []
  {
    if name in series {
      return series, series[name];
    }
    serie := new SerieM3U(name);
    serie.logo := Some(logo);
    updated := series[name := serie];
  }

  /** The season of `serie` under `name`, created and entered when absent. */
  method SeasonFor(serie: SerieM3U, name: string) returns (season: SeasonM3U)
    modifies serie
    ensures serie.seasons == old(serie.seasons)[name := season]
    ensures name in old(serie.seasons) ==> season == old(serie.seasons)[name]
    ensures name !in old(serie.seasons) ==> fresh(season) && season.name == name && season.episodes == map[]
    ensures serie.logo == old(serie.logo) && serie.logoPath == old(serie.logoPath) && serie.episodes == old(serie.episodes)
  {
    if name in serie.seasons {
      return serie.seasons[name];
    }
    season := new SeasonM3U(name);
    serie.seasons := serie.seasons[name := season];
  }

  /** Files `ep` under its season of `serie` and on the series' list. */
  method FileInSerie(serie: SerieM3U, m: SeriesMatch, ep: ChannelM3U)
    modifies serie, if m.season in serie.seasons then {serie.seasons[m.season]} else {}
    ensures SeasonFiled(old(serie.seasons), serie.seasons, m, ep)
    ensures serie.episodes == old(serie.episodes) + [ep]
    ensures serie.logo == old(serie.logo) && serie.logoPath == old(serie.logoPath)
    ensures old(EpisodesListed(serie)) ==> EpisodesListed(serie)
  {
    ghost var olds := serie.seasons;
    ghost var listed := EpisodesListed(serie);
    var season := SeasonFor(serie, m.season);
    season.episodes := season.episodes[m.episode := ep];
    serie.episodes := serie.episodes + [ep];
    if listed {
      forall s, e | s in serie.seasons && e in serie.seasons[s].episodes
        ensures serie.seasons[s].episodes[e] in serie.episodes
      {
        if serie.seasons[s] == season {
          if e != m.episode {
            assert s in olds && olds[s] == season;
            assert e in old(olds[s].episodes);
          }
        } else {
          assert s in olds && olds[s] == serie.seasons[s];
        }
      }
    }
  }

  /** The body of the `try` in `parse_series`: file `ep` under `m`. */
  method FileEpisode(series: map<string, SerieM3U>, m: SeriesMatch, logo: string, ep: ChannelM3U)
    returns (updated: map<string, SerieM3U>)
    modifies Touched(series, m)
    ensures Filed(series, updated, m, logo, ep)
    ensures m.series in series ==> old(EpisodesListed(series[m.series])) ==> EpisodesListed(updated[m.series])
    ensures m.series !in series ==> EpisodesListed(updated[m.series])
  {
    var serie;
    updated, serie := SerieFor(series, m.series, logo);
    FileInSerie(serie, m, ep);
  }

  /** What `parse_series` may write to: nothing without a match. */
  function TouchedBy(series: map<string, SerieM3U>, ch: M3u.Channel, matcher: string -> Option<SeriesMatch>): set<object>
    reads if matcher(SeriesName(ch)).Some? && matcher(SeriesName(ch)).value.series in series
          then {series[matcher(SeriesName(ch)).value.series]} else {}
  {
    match matcher(SeriesName(ch))
    case None => {}
    case Some(m) => Touched(series, m)
  }

  /** `parse_series`: a channel whose series name the pattern matches in
      full is filed under the match's groups, with the channel's logo for
      a new series; any other channel leaves `series` as it was. */
  method ParseSeries(ch: M3u.Channel, series: map<string, SerieM3U>, matcher: string -> Option<SeriesMatch>)
    returns (updated: map<string, SerieM3U>, matched: bool)
    modifies TouchedBy(series, ch, matcher)
    ensures matched <==> matcher(SeriesName(ch)).Some?
    ensures !matched ==> updated == series
    ensures matched ==> Filed(series, updated, matcher(SeriesName(ch)).value, ch.tvgLogo, EpisodeOf(ch))
    ensures matched ==> var key := matcher(SeriesName(ch)).value.series;
                        (key in series ==> old(EpisodesListed(series[key])) ==> EpisodesListed(updated[key]))
                        && (key !in series ==> EpisodesListed(updated[key]))
  {
    var name := SeriesName(ch);
    var found := matcher(name);
    if found.None? {
      return series, false;
    }
    updated := FileEpisode(series, found.value, ch.tvgLogo, EpisodeOf(ch));
    matched := true;
  }
}
