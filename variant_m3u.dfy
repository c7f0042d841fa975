/**
 * The stored per-event playlist of the older model
 * (main/.../model/VariantM3U.java). It is built like the simple playlist, from
 * the files' internal addresses, keeps the event itself, and renders the same
 * document with the event's date as the programme time. The identifier, a
 * digest of the event and its files, is not modelled.
 */
module VariantM3U {
  import opened Outcome
  import opened JavaString
  import opened HlsText
  import opened Domain
  import M3U
  import SimpleM3U

  /** What the playlist reads of an event: its title and its date (null prints "null"). */
  datatype EventHeading = EventHeading(title: String, date: Option<DateTime>)

  class VariantM3U {
    const event: EventHeading
    var mediaSegments: seq<M3U.MediaSegment>
    var targetDuration: real
    var finalized: bool

    /**
     * new VariantM3U(event, eventFiles): one segment per file, at the file's
     * internal address and titled "<event title> - <part name>", the summed
     * duration, finalized.
     */
    constructor (e: EventHeading, internalFiles: seq<SimpleM3U.PlaylistFile>)
      ensures event == e
      ensures mediaSegments == SimpleM3U.SegmentsFor(e.title, internalFiles)
      ensures targetDuration == SimpleM3U.TotalDuration(internalFiles)
      ensures finalized
    {
      var segs, total := SimpleM3U.CollectSegments(e.title, internalFiles);
      event := e;
      mediaSegments := segs;
      targetDuration := total;
      finalized := true;
    }

    /** toString: the corrected head with the event's date, each segment in order, ENDLIST when finalized. */
    method ToString(show: M3U.NumberPrinter, showTime: M3U.DateTimePrinter) returns (r: String)
      ensures r == M3U.Document(M3U.CorrectedHead(show(targetDuration), M3U.TimeText(event.date, showTime)),
                                mediaSegments, show, finalized)
    {
      var head := M3U.CorrectedHead(show(targetDuration), M3U.TimeText(event.date, showTime));
      r := SimpleM3U.AppendSegments(head, mediaSegments, show);
      if finalized {
        r := r + ENDLIST;
      }
    }
  }
}
