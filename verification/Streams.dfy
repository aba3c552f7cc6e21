/** A stream of a playlist (sourceproc/stream_info.go). */
module Streams {
  import opened Text

  datatype Stream = Stream(
    title: string, tvgID: string, tvgChNo: string, tvgType: string,
    logoURL: string, autoLogoURL: bool, group: string,
    sourceM3U: string, sourceIndex: int, sourceURL: string,
    epgMeta: map<string, string>, subChannelID: string, displayTitle: string)

  /** recordSourceEPGMeta */
  function RecordMeta(meta: map<string, string>, source: string, tvgID: string): map<string, string> {
    if TrimSpace(source) == "" || TrimSpace(tvgID) == "" then meta else meta[TrimSpace(source) := TrimSpace(tvgID)]
  }
}
