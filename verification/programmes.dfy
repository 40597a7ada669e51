/** The guide entries both guide parsers produce and the orchestration
    merges: a map from a channel's display name to its programme list. */
module Programmes {
  import opened Wrappers

  /** One programme dictionary. A `title` or `desc` of None is Python's
      None (an XMLTV element without text); a `catchupId` of None means the
      dictionary has no 'catchup-id' key at all (JTV entries). */
  datatype Programme = Programme(
    start: int,
    stop: int,
    title: Option<string>,
    desc: Option<string>,
    catchupId: Option<string>)

  /** `programmes_epg`: display name to programme list. */
  type Guide = map<string, seq<Programme>>
}
