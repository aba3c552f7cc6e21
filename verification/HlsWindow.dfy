/** The refresh loop of the HLS writer and its choice of new segments from a sliding live window
    (proxy/stream/buffer/coordinator_m3u8.go; RFC 8216, sections 4.3.3.2 and 6.2.2). Segments are named by their
    media sequence numbers: segment i of a playlist with media sequence m has number m + i. */
module HlsWindow {
  import opened BufferPools

  const STARTUP_LIVE_EDGE_SEGMENTS := 2

  /** getNewSegments: a suffix of the playlist's segments. */
  function GetNewSegments<T>(all: seq<T>, lastSeq: int, currentSeq: int): seq<T> {
    if lastSeq < 0 then
      if |all| <= STARTUP_LIVE_EDGE_SEGMENTS then all else all[|all| - STARTUP_LIVE_EDGE_SEGMENTS..]
    else
      var seqDiff := currentSeq - lastSeq;
      if seqDiff <= 0 || seqDiff >= |all| then all
      else
        var skipCount := |all| - seqDiff;
        all[if skipCount < 0 then 0 else skipCount..]
  }

  /** How the download of the chosen segments goes: all of them, or an error after the first `k`, with the
      context cancelled or not. */
  datatype Download = All | Broken(k: nat, cancelled: bool)

  /** What one turn of the loop finds. `self` says whether the first variant of a master playlist is the playlist's
      own URL. */
  datatype Refresh =
    | Unreadable
    | Stopped
    | Master(variants: nat, self: bool)
    | Media(first: int, count: nat, endlist: bool, download: Download)

  /** The numbers of the segments of a playlist. */
  function Window(first: int, count: nat): seq<int> { seq(count, i => first + i) }

  function Fetched(segments: seq<int>, d: Download): seq<int> {
    match d
    case All => segments
    case Broken(k, _) => if k < |segments| then segments[..k] else segments
  }

  datatype Writer = Writer(lastMediaSeq: int, emptyCount: nat, emitted: seq<int>, over: bool)

  const START := Writer(-1, 0, [], false)

  function Poll(w: Writer, r: Refresh): Writer {
    if w.over then w
    else
      match r
      case Unreadable => w
      case Stopped => w.(over := true)
      case Master(variants, self) =>
        if variants == 0 || self then w.(over := true) else w.(lastMediaSeq := -1, emptyCount := 0)
      case Media(first, count, endlist, download) =>
        if count == 0 then w.(emptyCount := w.emptyCount + 1, over := w.emptyCount + 1 >= 3)
        else if endlist then w.(emptyCount := 0, emitted := w.emitted + Fetched(Window(first, count), download), over := true)
        else if first > w.lastMediaSeq then
          var news := GetNewSegments(Window(first, count), w.lastMediaSeq, first);
          Writer(if download.All? then first else w.lastMediaSeq, 0, w.emitted + Fetched(news, download),
                 download.Broken? && download.cancelled)
        else w.(emptyCount := 0)
  }

  function Run(w: Writer, rs: seq<Refresh>): Writer {
    if rs == [] then w else Poll(Run(w, rs[..|rs| - 1]), rs[|rs| - 1])
  }

  lemma {:induction false} OverForGood(w: Writer, rs: seq<Refresh>, i: nat)
    requires i <= |rs| && Run(w, rs[..i]).over
    ensures Run(w, rs) == Run(w, rs[..i])
    decreases |rs| - i
  {
    if i < |rs| {
      assert rs[..i + 1][..i] == rs[..i];
      OverForGood(w, rs, i + 1);
    } else {
      assert rs[..i] == rs;
    }
  }

  /** processSegments, as the numbers that reach the clients, and whether it ends in an error. */
  method ProcessSegments(segments: seq<int>, download: Download) returns (sent: seq<int>, failed: bool)
    ensures sent == Fetched(segments, download) && failed == download.Broken?
    ensures sent <= segments && (if failed && download.k < |segments| then |sent| == download.k else sent == segments)
  {
    sent, failed := [], download.Broken?;
    for i := 0 to |segments|
      invariant sent == segments[..i] && (download.Broken? ==> i <= download.k)
    {
      if download.Broken? && i == download.k {
        return;
      }
      sent := sent + [segments[i]];
    }
  }

  /** The loop of StartHLSWriter. Told by the refreshes alone: when it is over, what it remembers until then, and what
      it has emitted. */
  method StartHLSWriter(rs: seq<Refresh>) returns (w: Writer)
    ensures w == Run(START, rs)
    ensures w.over <==> Ended(rs)
    ensures !w.over ==> w.lastMediaSeq == Highest(rs) && w.emptyCount == Empties(rs)
    ensures w.emitted == Emission(rs)
  {
    RunIs(rs);
    var lastMediaSeq, emptyPlaylistCount, emitted := -1, 0, [];
    for i := 0 to |rs|
      invariant Run(START, rs[..i]) == Writer(lastMediaSeq, emptyPlaylistCount, emitted, false)
    {
      assert rs[..i + 1][..i] == rs[..i];
      var over := false;
      match rs[i] {
        case Unreadable => continue;
        case Stopped => over := true;
        case Master(variants, self) =>
          if variants == 0 || self {
            over := true;
          } else {
            lastMediaSeq, emptyPlaylistCount := -1, 0;
          }
        case Media(first, count, endlist, download) =>
          var segments := Window(first, count);
          if |segments| == 0 {
            emptyPlaylistCount := emptyPlaylistCount + 1;
            over := emptyPlaylistCount >= 3;
          } else {
            emptyPlaylistCount := 0;
            if endlist {
              var sent, failed := ProcessSegments(segments, download);
              emitted, over := emitted + sent, true;
            } else if first > lastMediaSeq {
              var sent, failed := ProcessSegments(GetNewSegments(segments, lastMediaSeq, first), download);
              emitted := emitted + sent;
              if failed {
                over := download.cancelled;
              } else {
                lastMediaSeq := first;
              }
            }
          }
      }
      if over {
        OverForGood(START, rs, i + 1);
        return Writer(lastMediaSeq, emptyPlaylistCount, emitted, true);
      }
    }
    assert rs[..|rs|] == rs;
    return Writer(lastMediaSeq, emptyPlaylistCount, emitted, false);
  }

  function Max(a: int, b: int): int { if a < b then b else a }

  /** The first segment number that a refresh to window (first, count) brings in after one at `last`. */
  function FirstNew(last: int, first: int, count: nat): int {
    if last < 0 then first + Max(0, count - STARTUP_LIVE_EDGE_SEGMENTS) else last + Max(first - last, count)
  }

  /** The choice of segments, in numbers: from last + max(first - last, count), where `last` is the previous media
      sequence, up to the end of the window; at startup from the live edge. */
  lemma NewSegmentsAre(last: int, first: int, count: nat)
    requires -1 <= last < first && count >= 1
    ensures FirstNew(last, first, count) < first + count
    ensures GetNewSegments(Window(first, count), last, first) ==
            Window(FirstNew(last, first, count), first + count - FirstNew(last, first, count))
  {
  }

  /** A window of a playlist without end marker, downloaded completely. */
  predicate Complete(r: Refresh) { r.Media? && r.count >= 1 && !r.endlist && r.download.All? }

  predicate IsEmpty(r: Refresh) { r.Media? && r.count == 0 }

  /** The refreshes since the last master playlist. */
  function Recent(rs: seq<Refresh>): seq<Refresh> {
    if rs == [] || rs[|rs| - 1].Master? then [] else Recent(rs[..|rs| - 1]) + [rs[|rs| - 1]]
  }

  /** The highest media sequence among the complete windows since the last master playlist, -1 without any. */
  function Highest(rs: seq<Refresh>): (h: int)
    ensures h >= -1
  {
    if rs == [] then -1
    else
      var before, r := Highest(rs[..|rs| - 1]), rs[|rs| - 1];
      if r.Master? then -1 else if Complete(r) && r.first > before then r.first else before
  }

  lemma {:induction false} HighestIsMaximum(rs: seq<Refresh>)
    ensures forall r :: r in Recent(rs) && Complete(r) ==> r.first <= Highest(rs)
    ensures Highest(rs) == -1 || exists r :: r in Recent(rs) && Complete(r) && r.first == Highest(rs)
  {
    if rs != [] && !rs[|rs| - 1].Master? {
      var front, last := rs[..|rs| - 1], rs[|rs| - 1];
      HighestIsMaximum(front);
      assert forall r :: r in Recent(rs) <==> r in Recent(front) || r == last;
      if Highest(rs) != -1 && Highest(rs) == Highest(front) {
        var r :| r in Recent(front) && Complete(r) && r.first == Highest(front);
        assert r in Recent(rs);
      }
    }
  }

  /** How many empty playlists there were since the last master playlist or playlist with segments. */
  function Empties(rs: seq<Refresh>): nat {
    if rs == [] then 0
    else
      var r := rs[|rs| - 1];
      if IsEmpty(r) then Empties(rs[..|rs| - 1]) + 1
      else if r.Master? || r.Media? then 0
      else Empties(rs[..|rs| - 1])
  }

  /** Refresh r ends a run of `before`: a stop, a master playlist that leads nowhere, a third empty playlist, an end
      marker, or a cancelled download of new segments. */
  predicate Ends(before: seq<Refresh>, r: Refresh) {
    || r.Stopped?
    || (r.Master? && (r.variants == 0 || r.self))
    || (IsEmpty(r) && Empties(before) >= 2)
    || (r.Media? && r.count >= 1 && r.endlist)
    || (r.Media? && r.count >= 1 && r.first > Highest(before) && r.download.Broken? && r.download.cancelled)
  }

  ghost predicate Ended(rs: seq<Refresh>) { exists k :: 0 <= k < |rs| && Ends(rs[..k], rs[k]) }

  /** The segments of a window from number `from` on. */
  function Rest(from: int, r: Refresh): seq<int>
    requires r.Media? && from <= r.first + r.count
  {
    Window(from, r.first + r.count - from)
  }

  /** What refresh r makes a run of `before` ask for: with an end marker the whole window, otherwise what is new in it. */
  function Wanted(before: seq<Refresh>, r: Refresh): seq<int> {
    if !r.Media? || r.count == 0 then []
    else if r.endlist then Rest(r.first, r)
    else if r.first <= Highest(before) then []
    else Rest(FirstNew(Highest(before), r.first, r.count), r)
  }

  /** All that arrives of what is asked for, until the run ends. */
  ghost function Emission(rs: seq<Refresh>): seq<int> {
    if rs == [] then []
    else
      var front, r := rs[..|rs| - 1], rs[|rs| - 1];
      Emission(front) + (if Ended(front) || !r.Media? then [] else Fetched(Wanted(front, r), r.download))
  }

  lemma EndedOneMore(rs: seq<Refresh>, r: Refresh)
    ensures Ended(rs + [r]) <==> Ended(rs) || Ends(rs, r)
  {
    var all := rs + [r];
    assert all[..|rs|] == rs && all[|rs|] == r;
    assert forall k :: 0 <= k < |rs| ==> all[..k] == rs[..k] && all[k] == rs[k];
    if Ended(rs) {
      var k :| 0 <= k < |rs| && Ends(rs[..k], rs[k]);
      assert Ends(all[..k], all[k]);
    } else if Ends(rs, r) {
      assert Ends(all[..|rs|], all[|rs|]);
    }
  }

  lemma OnePoll(w: Writer, rs: seq<Refresh>, r: Refresh)
    requires !w.over && w.lastMediaSeq == Highest(rs) && w.emptyCount == Empties(rs)
    ensures Poll(w, r).over <==> Ends(rs, r)
    ensures !Poll(w, r).over ==> Poll(w, r).lastMediaSeq == Highest(rs + [r]) && Poll(w, r).emptyCount == Empties(rs + [r])
    ensures Poll(w, r).emitted == w.emitted + if r.Media? then Fetched(Wanted(rs, r), r.download) else []
  {
    assert (rs + [r])[..|rs|] == rs;
    assert w.emitted + [] == w.emitted;
    if r.Media? && r.count >= 1 && r.first > Highest(rs) {
      NewSegmentsAre(Highest(rs), r.first, r.count);
    }
  }

  /** Every run, told by its refreshes: when it is over, what the writer remembers until then, and all it emits. */
  lemma {:induction false} RunIs(rs: seq<Refresh>)
    ensures var w := Run(START, rs);
            && (w.over <==> Ended(rs))
            && (!w.over ==> w.lastMediaSeq == Highest(rs) && w.emptyCount == Empties(rs))
            && w.emitted == Emission(rs)
  {
    if rs != [] {
      var front, r := rs[..|rs| - 1], rs[|rs| - 1];
      assert rs == front + [r];
      RunIs(front);
      EndedOneMore(front, r);
      if !Ended(front) {
        OnePoll(Run(START, front), front, r);
      }
    }
  }

  lemma RunOneMore(rs: seq<Refresh>, r: Refresh)
    requires !Run(START, rs).over
    ensures Run(START, rs + [r]).over <==> Ends(rs, r)
    ensures Run(START, rs + [r]).emitted ==
            Run(START, rs).emitted + if r.Media? then Fetched(Wanted(rs, r), r.download) else []
    ensures Run(START, rs).lastMediaSeq == Highest(rs)
    ensures !Ends(rs, r) ==> Run(START, rs + [r]).lastMediaSeq == Highest(rs + [r])
    ensures Highest(rs + [r]) ==
            if r.Master? then -1 else if Complete(r) && r.first > Highest(rs) then r.first else Highest(rs)
  {
    RunIs(rs);
    RunIs(rs + [r]);
    assert (rs + [r])[..|rs|] == rs;
    OnePoll(Run(START, rs), rs, r);
  }

  /** No window was taken over and no master playlist followed. */
  ghost predicate NothingTaken(rs: seq<Refresh>) {
    forall r :: r in rs ==> !r.Master? && !Complete(r)
  }

  lemma {:induction false} HighestStays(rs: seq<Refresh>, tries: seq<Refresh>)
    requires NothingTaken(tries)
    ensures Highest(rs + tries) == Highest(rs)
  {
    if tries == [] {
      assert rs + tries == rs;
    } else {
      HighestStays(rs, tries[..|tries| - 1]);
      assert (rs + tries)[..|rs + tries| - 1] == rs + tries[..|tries| - 1];
    }
  }

  /** What a broken download missed is not lost: after any tries that took nothing over, the next complete window emits
      all that is new since the last window that was taken over before them. */
  lemma BrokenWindowsAreMadeUp(rs: seq<Refresh>, tries: seq<Refresh>, r: Refresh)
    requires NothingTaken(tries) && !Run(START, rs + tries).over && Complete(r) && r.first > Highest(rs)
    ensures FirstNew(Highest(rs), r.first, r.count) < r.first + r.count
    ensures Run(START, rs + tries + [r]).emitted ==
            Run(START, rs + tries).emitted + Rest(FirstNew(Highest(rs), r.first, r.count), r)
    ensures !Run(START, rs + tries + [r]).over && Run(START, rs + tries + [r]).lastMediaSeq == r.first
  {
    HighestStays(rs, tries);
    RunOneMore(rs + tries, r);
    NewSegmentsAre(Highest(rs), r.first, r.count);
  }

  /** A window whose download breaks emits what came before the break, and the run goes on from where it was. */
  lemma BrokenWindowEmitsItsPart(rs: seq<Refresh>, r: Refresh)
    requires !Run(START, rs).over && r.Media? && r.count >= 1 && !r.endlist && r.first > Highest(rs)
    requires r.download.Broken? && !r.download.cancelled
    ensures var w, w', from := Run(START, rs), Run(START, rs + [r]), FirstNew(Highest(rs), r.first, r.count);
            && !w'.over && w'.lastMediaSeq == w.lastMediaSeq
            && from < r.first + r.count
            && w'.emitted == w.emitted + if r.download.k < r.first + r.count - from then Window(from, r.download.k) else Rest(from, r)
  {
    RunOneMore(rs, r);
    NewSegmentsAre(Highest(rs), r.first, r.count);
    FetchedOfWindow(FirstNew(Highest(rs), r.first, r.count), r.first + r.count - FirstNew(Highest(rs), r.first, r.count), r.download);
  }

  lemma FetchedOfWindow(first: int, count: nat, d: Download)
    requires d.Broken?
    ensures Fetched(Window(first, count), d) == Window(first, if d.k < count then d.k else count)
  {
  }

  function CountEmpty(rs: seq<Refresh>): nat {
    if rs == [] then 0 else CountEmpty(rs[..|rs| - 1]) + if IsEmpty(rs[|rs| - 1]) then 1 else 0
  }

  /** Among refreshes that are empty or unreadable, the third empty one ends the run, and no earlier one. */
  lemma {:induction false} ThirdEmptyEnds(rs: seq<Refresh>, tries: seq<Refresh>)
    requires !Run(START, rs).over && Empties(rs) == 0 && forall r :: r in tries ==> IsEmpty(r) || r.Unreadable?
    ensures Run(START, rs + tries).over <==> CountEmpty(tries) >= 3
    ensures Run(START, rs + tries).emitted == Run(START, rs).emitted
    ensures Empties(rs + tries) == CountEmpty(tries)
  {
    if tries == [] {
      assert rs + tries == rs;
    } else {
      var front, r := tries[..|tries| - 1], tries[|tries| - 1];
      ThirdEmptyEnds(rs, front);
      assert rs + tries == (rs + front) + [r] && ((rs + front) + [r])[..|rs + front|] == rs + front;
      if !Run(START, rs + front).over {
        RunOneMore(rs + front, r);
      }
    }
  }

  /** An end marker emits the whole playlist, old segments included, and ends the run. */
  lemma EndMarkerEmitsAll(rs: seq<Refresh>, first: int, count: nat)
    requires !Run(START, rs).over && count >= 1
    ensures var w := Run(START, rs + [Media(first, count, true, All)]);
            w.over && w.emitted == Run(START, rs).emitted + Window(first, count)
  {
    RunOneMore(rs, Media(first, count, true, All));
  }

  /** After a master playlist was followed, the next window starts two segments from its live edge, whatever was emitted
      before. */
  lemma MasterStartsAgain(rs: seq<Refresh>, variants: nat, first: nat, count: nat)
    requires !Run(START, rs).over && variants >= 1 && count >= 1
    ensures var w := Run(START, rs + [Master(variants, false), Media(first, count, false, All)]);
            && !w.over && w.lastMediaSeq == first
            && w.emitted == Run(START, rs).emitted + if count == 1 then [first] else [first + count - 2, first + count - 1]
  {
    var m, r := Master(variants, false), Media(first, count, false, All);
    RunOneMore(rs, m);
    RunOneMore(rs + [m], r);
    assert rs + [m] + [r] == rs + [m, r];
  }

  /** A refresh of one live playlist: it cannot be read this time, or it has no end marker and at least one segment, and
      all downloads succeed. */
  predicate Live(r: Refresh) { r.Unreadable? || (r.Media? && r.count >= 1 && !r.endlist && r.download.All?) }

  ghost predicate AllLive(rs: seq<Refresh>) { forall i :: 0 <= i < |rs| ==> Live(rs[i]) }

  ghost predicate Increasing(xs: seq<int>) { forall i, j :: 0 <= i < j < |xs| ==> xs[i] < xs[j] }

  /** A playlist window. */
  datatype Span = Span(first: int, count: nat)

  function LastOf(before: Option<Span>): int { if before.Some? then before.value.first else -1 }

  /** The last window taken over in a run of live refreshes; stale ones, whose media sequence is not higher, do
      not count. */
  function Accepted(rs: seq<Refresh>): Option<Span> {
    if rs == [] then None
    else
      var before, r := Accepted(rs[..|rs| - 1]), rs[|rs| - 1];
      if r.Media? && r.first > LastOf(before) then Some(Span(r.first, r.count)) else before
  }

  /** Refresh r is unreadable or stale, or brings in nothing that the window accepted before it already brought: its end, or its
      jump, covers the length of that window. */
  predicate KeepsUp(before: Option<Span>, r: Refresh)
    requires Live(r)
  {
    r.Media? && before.Some? && r.first > before.value.first ==> Max(r.first - before.value.first, r.count) >= before.value.count
  }

  ghost predicate AllKeepUp(rs: seq<Refresh>)
    requires AllLive(rs)
  {
    forall i :: 0 <= i < |rs| ==> KeepsUp(Accepted(rs[..i]), rs[i])
  }

  /** What a live refresh adds to the numbers emitted. */
  function News(last: int, r: Refresh): seq<int>
    requires Live(r) && last >= -1
  {
    if r.Unreadable? || r.first <= last then []
    else Window(FirstNew(last, r.first, r.count), r.first + r.count - FirstNew(last, r.first, r.count))
  }

  lemma PollLive(w: Writer, r: Refresh)
    requires !w.over && w.lastMediaSeq >= -1 && Live(r)
    ensures !Poll(w, r).over && Poll(w, r).lastMediaSeq == if r.Media? then Max(w.lastMediaSeq, r.first) else w.lastMediaSeq
    ensures Poll(w, r).emitted == w.emitted + News(w.lastMediaSeq, r)
  {
    if r.Media? && r.first > w.lastMediaSeq {
      NewSegmentsAre(w.lastMediaSeq, r.first, r.count);
    } else {
      assert w.emitted + [] == w.emitted;
    }
  }

  /** After live refreshes the writer is at the end of the last window it took over. */
  lemma {:induction false} AtEdge(rs: seq<Refresh>)
    requires AllLive(rs)
    ensures var w, a := Run(START, rs), Accepted(rs);
            && !w.over && w.lastMediaSeq == LastOf(a) && LastOf(a) >= -1
            && (a == None <==> w.emitted == [])
            && (a.Some? ==> a.value.first >= 0 && a.value.count >= 1
                            && w.emitted[|w.emitted| - 1] == a.value.first + a.value.count - 1)
  {
    if rs != [] {
      var front, r := rs[..|rs| - 1], rs[|rs| - 1];
      AtEdge(front);
      PollLive(Run(START, front), r);
    }
  }

  /** One live refresh: a stale one emits nothing; any other emits the rest of its window from FirstNew on. */
  lemma OneRefresh(rs: seq<Refresh>, r: Refresh)
    requires AllLive(rs) && Live(r)
    ensures LastOf(Accepted(rs)) >= -1
    ensures Run(START, rs + [r]).emitted == Run(START, rs).emitted + News(LastOf(Accepted(rs)), r)
  {
    AtEdge(rs);
    assert (rs + [r])[..|rs|] == rs;
    PollLive(Run(START, rs), r);
  }

  lemma AppendWindow(xs: seq<int>, first: int, count: nat)
    requires count >= 1
    ensures Increasing(xs + Window(first, count)) <==> Increasing(xs) && (xs == [] || xs[|xs| - 1] < first)
  {
    var ys := xs + Window(first, count);
    if Increasing(ys) {
      assert forall i, j :: 0 <= i < j < |xs| ==> ys[i] == xs[i] && ys[j] == xs[j];
      assert xs != [] ==> ys[|xs| - 1] < ys[|xs|];
    }
    if Increasing(xs) && (xs == [] || xs[|xs| - 1] < first) {
      forall i, j | 0 <= i < j < |ys|
        ensures ys[i] < ys[j]
      {
        if i < |xs| <= j {
          assert xs[i] <= xs[|xs| - 1];
        }
      }
    }
  }

  /** The sliding window, for windows of any lengths and any run of refreshes, stale ones included: the numbers
      emitted are strictly increasing, so that no segment is replayed, if and only if every refresh keeps up. */
  lemma {:induction false} NoReplayIffKeepsUp(rs: seq<Refresh>)
    requires AllLive(rs)
    ensures Increasing(Run(START, rs).emitted) <==> AllKeepUp(rs)
  {
    if rs != [] {
      var front, r := rs[..|rs| - 1], rs[|rs| - 1];
      assert rs == front + [r];
      NoReplayIffKeepsUp(front);
      KeepUpSplits(front, r);
      ReplaysIffBehind(front, r);
    }
  }

  lemma KeepUpSplits(front: seq<Refresh>, r: Refresh)
    requires AllLive(front) && Live(r)
    ensures AllLive(front + [r])
    ensures AllKeepUp(front + [r]) <==> AllKeepUp(front) && KeepsUp(Accepted(front), r)
  {
    var rs := front + [r];
    assert rs[..|front|] == front;
    assert forall i :: 0 <= i < |front| ==> front[..i] == rs[..i] && front[i] == rs[i];
    if AllKeepUp(front) && KeepsUp(Accepted(front), r) {
      forall i | 0 <= i < |rs|
        ensures KeepsUp(Accepted(rs[..i]), rs[i])
      {
        if i < |front| {
          assert KeepsUp(Accepted(front[..i]), front[i]);
        }
      }
    }
    if AllKeepUp(rs) {
      assert KeepsUp(Accepted(rs[..|front|]), rs[|front|]);
      forall i | 0 <= i < |front|
        ensures KeepsUp(Accepted(front[..i]), front[i])
      {
        assert KeepsUp(Accepted(rs[..i]), rs[i]);
      }
    }
  }

  lemma ReplaysIffBehind(front: seq<Refresh>, r: Refresh)
    requires AllLive(front) && Live(r)
    ensures Increasing(Run(START, front + [r]).emitted) <==>
            Increasing(Run(START, front).emitted) && KeepsUp(Accepted(front), r)
  {
    AtEdge(front);
    OneRefresh(front, r);
    AppendNews(Run(START, front).emitted, Accepted(front), r);
  }

  lemma AppendNews(xs: seq<int>, a: Option<Span>, r: Refresh)
    requires Live(r) && LastOf(a) >= -1 && (a == None <==> xs == [])
    requires a.Some? ==> a.value.first >= 0 && a.value.count >= 1 && xs[|xs| - 1] == a.value.first + a.value.count - 1
    ensures Increasing(xs + News(LastOf(a), r)) <==> Increasing(xs) && KeepsUp(a, r)
  {
    if r.Media? && r.first > LastOf(a) {
      var start := FirstNew(LastOf(a), r.first, r.count);
      AppendWindow(xs, start, r.first + r.count - start);
    } else {
      assert xs + [] == xs;
    }
  }

  ghost predicate ConstantLength(rs: seq<Refresh>, n: nat) { forall i :: 0 <= i < |rs| && rs[i].Media? ==> rs[i].count == n }

  /** With windows of constant length nothing is ever replayed, emission starts at most two segments from the live
      edge, and numbers are skipped only where the media sequence jumped by more than the window's length. */
  lemma ConstantWindow(rs: seq<Refresh>, r: Refresh, n: nat)
    requires AllLive(rs) && Live(r) && r.Media? && r.count == n && ConstantLength(rs, n)
    ensures Increasing(Run(START, rs + [r]).emitted)
    ensures var w, w', a := Run(START, rs), Run(START, rs + [r]), Accepted(rs);
            && (a == None && r.first >= 0 ==> w'.emitted != [] && w'.emitted[0] == Max(r.first, r.first + n - 2))
            && (a.Some? && r.first > a.value.first ==>
                  && |w.emitted| > 0 && |w'.emitted| > |w.emitted|
                  && w'.emitted[|w.emitted|] - w.emitted[|w.emitted| - 1] == 1 + Max(0, (r.first - a.value.first) - n))
  {
    var all := rs + [r];
    assert AllLive(all);
    ConstantCount(rs, n);
    forall i | 0 <= i < |all|
      ensures KeepsUp(Accepted(all[..i]), all[i])
    {
      ConstantCount(all[..i], n);
    }
    NoReplayIffKeepsUp(all);
    ConstantStep(rs, r, n);
  }

  lemma ConstantStep(rs: seq<Refresh>, r: Refresh, n: nat)
    requires AllLive(rs) && Live(r) && r.Media? && r.count == n && (Accepted(rs).Some? ==> Accepted(rs).value.count == n)
    ensures var w, w', a := Run(START, rs), Run(START, rs + [r]), Accepted(rs);
            && (a == None && r.first >= 0 ==> w'.emitted != [] && w'.emitted[0] == Max(r.first, r.first + n - 2))
            && (a.Some? && r.first > a.value.first ==>
                  && |w.emitted| > 0 && |w'.emitted| > |w.emitted|
                  && w'.emitted[|w.emitted|] - w.emitted[|w.emitted| - 1] == 1 + Max(0, (r.first - a.value.first) - n))
  {
    AtEdge(rs);
    OneRefresh(rs, r);
    var last := LastOf(Accepted(rs));
    if r.first > last {
      var news := News(last, r);
      assert |news| > 0 && news[0] == FirstNew(last, r.first, n);
    }
  }

  lemma {:induction false} ConstantCount(rs: seq<Refresh>, n: nat)
    requires AllLive(rs) && ConstantLength(rs, n)
    ensures Accepted(rs).Some? ==> Accepted(rs).value.count == n
  {
    if rs != [] {
      ConstantCount(rs[..|rs| - 1], n);
    }
  }

  /** A window that shrinks while it slides makes the writer replay segments. */
  lemma ShrinkingWindowReplays()
    ensures var rs := [Media(10, 5, false, All), Media(11, 3, false, All)];
            AllLive(rs) && Run(START, rs).emitted == [13, 14, 13]
  {
    var r0, r1 := Media(10, 5, false, All), Media(11, 3, false, All);
    PollLive(START, r0);
    assert News(-1, r0) == [13, 14];
    var w := Poll(START, r0);
    assert w.emitted == [13, 14];
    PollLive(w, r1);
    assert News(10, r1) == [13];
    assert [r0, r1][..1] == [r0] && [r0][..0] == [];
    assert Run(START, [r0]) == w && Run(START, [r0, r1]) == Poll(w, r1);
  }
}
