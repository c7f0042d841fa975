/**
 * Advice on how long a client should wait before asking for a stream again
 * (src/main/java/self/me/matchday/api/service/video/StreamDelayAdviceService.java).
 *
 * The service keeps the last ping time of each file-server plugin. A
 * playlist in error has no advice; a ready one needs no wait; otherwise the
 * wait is the number of job phases left before COMPLETED times the ping time
 * of the server of the playlist's first stream, plus FFmpeg's start-up time.
 *
 * The job-status enumeration (StreamJobState.java) is not part of this
 * model: its constants' ordinals are a parameter. The plugin lookup of the
 * file-server service and the network ping are parameters as well.
 */
module StreamDelayAdviceService {
  import opened Outcome
  import opened JavaString
  import Plugins = FileServerPluginService

  /** The job states the service names; any other constant is Other. */
  datatype JobStatus = Error | Completed | Streaming | Other(name: String)

  /** A locator playlist: its state and the external URLs of its streams' video files, in order. */
  datatype LocatorPlaylist = LocatorPlaylist(status: JobStatus, completionRatio: real, streamUrls: seq<String>)

  /** What pinging a server found: the round trip, a failure to open, or a failure to connect after opening. */
  datatype PingOutcome = Reached(millis: int) | OpenFailed | ConnectFailed(connectTimeout: int)

  /** The timeout recorded when the connection cannot even be opened. */
  const DefaultTimeout: int := 3000

  /** The threshold of completionRatio above which a stream counts as started. */
  const ReadyRatio: real := 0.01

  /** isStreamReady: COMPLETED or STREAMING, and more than one percent done. */
  predicate IsStreamReady(playlist: LocatorPlaylist)
  {
    (playlist.status == Completed || playlist.status == Streaming) && playlist.completionRatio > ReadyRatio
  }

  /** The time pingFileServer records for a ping outcome. */
  function Recorded(outcome: PingOutcome): (t: int)
    ensures outcome.Reached? ==> t == outcome.millis
    ensures outcome == OpenFailed ==> t == DefaultTimeout
    ensures outcome.ConnectFailed? ==> t == outcome.connectTimeout
  {
    match outcome
    case Reached(millis) => millis
    case OpenFailed => DefaultTimeout
    case ConnectFailed(timeout) => timeout
  }

  /** computeWaitMillis: steps times ping plus overhead, in long arithmetic; the stream count is not used. */
  function ComputeWaitMillis(numStreams: int, stepsToComplete: int, pingTime: int, ffmpegOverhead: int): (w: int)
    ensures LONG_MIN <= w <= LONG_MAX
    ensures LONG_MIN <= stepsToComplete * pingTime + ffmpegOverhead <= LONG_MAX ==>
              w == stepsToComplete * pingTime + ffmpegOverhead
  {
    Wrap64(stepsToComplete * pingTime + ffmpegOverhead)
  }

  class StreamDelayAdviceService {
    var delayIndex: map<Plugins.Plugin, int>
    const defaultPingTime: int
    const ffmpegStartUpTime: int

    constructor (defaultPingTime: int, ffmpegStartUpTime: int)
      ensures delayIndex == map[]
      ensures this.defaultPingTime == defaultPingTime && this.ffmpegStartUpTime == ffmpegStartUpTime
    {
      delayIndex := map[];
      this.defaultPingTime := defaultPingTime;
      this.ffmpegStartUpTime := ffmpegStartUpTime;
    }

    /**
     * getPingTime: the recorded ping of the enabled plugin for the first
     * stream's URL; the default without a stream, without such a plugin, or
     * without a recorded ping.
     */
    function PingTime(playlist: LocatorPlaylist, pluginFor: String -> Option<Plugins.Plugin>): (t: int)
      reads this
      ensures |playlist.streamUrls| == 0 ==> t == defaultPingTime
      ensures |playlist.streamUrls| > 0 && pluginFor(playlist.streamUrls[0]).None? ==> t == defaultPingTime
      ensures |playlist.streamUrls| > 0 && pluginFor(playlist.streamUrls[0]).Some? ==>
                t == if pluginFor(playlist.streamUrls[0]).value in delayIndex
                     then delayIndex[pluginFor(playlist.streamUrls[0]).value] else defaultPingTime
    {
      if |playlist.streamUrls| == 0 then defaultPingTime
      else match pluginFor(playlist.streamUrls[0])
        case None => defaultPingTime
        case Some(p) => if p in delayIndex then delayIndex[p] else defaultPingTime
    }

    /**
     * getDelayAdvice: IllegalStateException in ERROR; 0 for a ready stream;
     * otherwise COMPLETED.compareTo(status) phases of ping time, plus FFmpeg's
     * start-up time.
     */
    function DelayAdvice(playlist: LocatorPlaylist, pluginFor: String -> Option<Plugins.Plugin>,
                         ordinal: JobStatus -> int): (r: Result<int>)
      reads this
      ensures playlist.status == Error <==> r == Fail(IllegalState)
      ensures playlist.status != Error && IsStreamReady(playlist) ==> r == Ok(0)
      ensures playlist.status != Error && !IsStreamReady(playlist) ==>
                r == Ok(ComputeWaitMillis(|playlist.streamUrls|, ordinal(Completed) - ordinal(playlist.status),
                                          PingTime(playlist, pluginFor), ffmpegStartUpTime))
    {
      if playlist.status == Error then Fail(IllegalState)
      else if !IsStreamReady(playlist) then
        var stepsToComplete := ordinal(Completed) - ordinal(playlist.status);
        var locatorCount := |playlist.streamUrls|;
        var pingTime := PingTime(playlist, pluginFor);
        Ok(ComputeWaitMillis(locatorCount, stepsToComplete, pingTime, ffmpegStartUpTime))
      else Ok(0)
    }

    /** The advice depends on the first stream only: adding streams after it changes nothing. */
    lemma AdviceIgnoresLaterStreams(playlist: LocatorPlaylist, more: seq<String>,
                                    pluginFor: String -> Option<Plugins.Plugin>, ordinal: JobStatus -> int)
      requires |playlist.streamUrls| > 0
      ensures DelayAdvice(playlist.(streamUrls := playlist.streamUrls + more), pluginFor, ordinal)
              == DelayAdvice(playlist, pluginFor, ordinal)
    {
      var longer := playlist.(streamUrls := playlist.streamUrls + more);
      assert longer.streamUrls[0] == playlist.streamUrls[0];
      assert PingTime(longer, pluginFor) == PingTime(playlist, pluginFor);
    }

    /** A completed stream that is not yet ready waits only for FFmpeg's start-up. */
    lemma CompletedWaitsStartUp(playlist: LocatorPlaylist, pluginFor: String -> Option<Plugins.Plugin>,
                                ordinal: JobStatus -> int)
      requires playlist.status == Completed && !IsStreamReady(playlist)
      requires LONG_MIN <= ffmpegStartUpTime <= LONG_MAX
      ensures DelayAdvice(playlist, pluginFor, ordinal) == Ok(ffmpegStartUpTime)
    {
    }

    /** pingFileServer: the plugin's ping outcome recorded under the plugin, nothing else touched. */
    method PingFileServer(plugin: Plugins.Plugin, ping: Plugins.Plugin -> PingOutcome)
      modifies this
      ensures delayIndex == old(delayIndex)[plugin := Recorded(ping(plugin))]
    {
      var timeout := DefaultTimeout;
      match ping(plugin)
      case Reached(millis) =>
        delayIndex := delayIndex[plugin := millis];
      case OpenFailed =>
        delayIndex := delayIndex[plugin := timeout];
      case ConnectFailed(connectTimeout) =>
        timeout := connectTimeout;
        delayIndex := delayIndex[plugin := timeout];
    }

    /**
     * pingActiveFileServers: every enabled plugin pinged and recorded;
     * plugins not enabled keep what was recorded for them.
     */
    method PingActiveFileServers(enabled: seq<Plugins.Plugin>, ping: Plugins.Plugin -> PingOutcome)
      modifies this
      ensures forall p :: p in enabled ==> p in delayIndex && delayIndex[p] == Recorded(ping(p))
      ensures forall p :: p !in enabled ==> (p in delayIndex <==> p in old(delayIndex))
      ensures forall p :: p !in enabled && p in old(delayIndex) ==> delayIndex[p] == old(delayIndex)[p]
    {
      var i := 0;
      while i < |enabled|
        invariant i <= |enabled|
        invariant forall p :: p in enabled[..i] ==> p in delayIndex && delayIndex[p] == Recorded(ping(p))
        invariant forall p :: p !in enabled[..i] ==> (p in delayIndex <==> p in old(delayIndex))
        invariant forall p :: p !in enabled[..i] && p in old(delayIndex) ==> delayIndex[p] == old(delayIndex)[p]
      {
        assert enabled[..i + 1] == enabled[..i] + [enabled[i]];
        PingFileServer(enabled[i], ping);
        i := i + 1;
      }
      assert enabled[..i] == enabled;
    }
  }
}
