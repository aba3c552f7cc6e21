/** Expanding channels that are grouped under one number into a row per source (sourceproc/epg_groups.go). How a
    group's tvg-id is chosen, which other streams it applies to and which URL of a source comes first are parameters. */
module GroupExpansion {
  import opened BufferPools
  import opened Text
  import Sorting

  /** `urls` holds the URLs of each source, by the source's index as text. */
  datatype Channel = Channel(
    title: string, tvgID: string, tvgChNo: string, subChannelID: string, displayTitle: string,
    urls: map<string, map<string, string>>, sourceM3U: string, sourceURL: string, sourceIndex: int)

  datatype GroupEntry = GroupEntry(sourceIndex: int, channelTitle: string, subNumber: string)

  datatype Group = Group(canonical: string, entries: seq<GroupEntry>)

  datatype Env = Env(
    lower: char -> char, itoa: int -> string, resolve: (Group, seq<Channel>) -> string,
    matches: (Channel, Group) -> bool, primary: map<string, string> -> (string, int))

  function KeyOf(env: Env, title: string): string { ToLower(env.lower, TrimSpace(title)) }

  predicate HasKey(env: Env, g: Group, key: string) { |g.entries| >= 2 && key != "" && KeyOf(env, g.canonical) == key }

  /** The last group of several entries with this key. */
  function GroupOf(env: Env, groups: seq<Group>, key: string): Option<Group> {
    if groups == [] then None
    else if HasKey(env, groups[|groups| - 1], key) then Some(groups[|groups| - 1])
    else GroupOf(env, groups[..|groups| - 1], key)
  }

  ghost predicate IsGroupMap(env: Env, groups: seq<Group>, m: map<string, Group>) {
    forall key {:trigger GroupOf(env, groups, key)} :: GroupOf(env, groups, key) == if key in m then Some(m[key]) else None
  }

  method MultiEntryGroups(env: Env, groups: seq<Group>) returns (m: map<string, Group>)
    ensures IsGroupMap(env, groups, m)
  {
    m := map[];
    for i := 0 to |groups|
      invariant IsGroupMap(env, groups[..i], m)
    {
      assert groups[..i + 1][..i] == groups[..i];
      if |groups[i].entries| < 2 {
        continue;
      }
      var key := KeyOf(env, groups[i].canonical);
      if key == "" {
        continue;
      }
      m := m[key := groups[i]];
    }
    assert groups[..|groups|] == groups;
  }

  /** streamHasSourceIndex */
  predicate HasSource(c: Channel, source: string) { source in c.urls && c.urls[source] != map[] }

  /** cloneStreamForGroupEntry and cloneSingleSourceURLs, for a source that the stream has. */
  function Clone(env: Env, c: Channel, e: GroupEntry, g: Group, tvgID: string): Channel
    requires HasSource(c, env.itoa(e.sourceIndex))
  {
    var source := env.itoa(e.sourceIndex);
    var (url, line) := env.primary(c.urls[source]);
    c.(tvgID := tvgID, tvgChNo := TrimSpace(e.subNumber), subChannelID := TrimSpace(g.canonical) + "\0" + source,
       displayTitle := if TrimSpace(e.channelTitle) == "" then TrimSpace(g.canonical) else TrimSpace(e.channelTitle),
       urls := map[source := c.urls[source]], sourceM3U := source, sourceURL := url, sourceIndex := line)
  }

  /** The entries of a group whose source the stream has, in order. */
  function Sourced(env: Env, c: Channel, entries: seq<GroupEntry>): (es: seq<GroupEntry>)
    ensures forall e :: e in es <==> e in entries && HasSource(c, env.itoa(e.sourceIndex))
  {
    if entries == [] then []
    else
      var last := entries[|entries| - 1];
      Sourced(env, c, entries[..|entries| - 1]) + if HasSource(c, env.itoa(last.sourceIndex)) then [last] else []
  }

  /** One row per entry whose source the stream has, in the order of the entries: only that source's URLs, that entry's
      number, and one tvg-id for all of them. */
  ghost predicate RowPerSource(env: Env, c: Channel, g: Group, tvgID: string, rows: seq<Channel>) {
    var es := Sourced(env, c, g.entries);
    && |rows| == |es|
    && (forall k :: 0 <= k < |es| ==> rows[k] == Clone(env, c, es[k], g, tvgID))
  }

  /** What one entry's row is: the stream under that entry's number and title, with the URLs of that source only. */
  lemma CloneIs(env: Env, c: Channel, e: GroupEntry, g: Group, tvgID: string)
    requires HasSource(c, env.itoa(e.sourceIndex))
    ensures var r, source := Clone(env, c, e, g, tvgID), env.itoa(e.sourceIndex);
            && r.title == c.title && r.tvgID == tvgID && r.tvgChNo == TrimSpace(e.subNumber)
            && r.urls.Keys == {source} && r.urls[source] == c.urls[source] && r.sourceM3U == source
            && (r.sourceURL, r.sourceIndex) == env.primary(c.urls[source])
            && r.displayTitle == (if TrimSpace(e.channelTitle) != "" then TrimSpace(e.channelTitle) else TrimSpace(g.canonical))
    ensures forall e2: GroupEntry :: HasSource(c, env.itoa(e2.sourceIndex)) ==>
              (Clone(env, c, e2, g, tvgID).subChannelID == Clone(env, c, e, g, tvgID).subChannelID <==>
               env.itoa(e2.sourceIndex) == env.itoa(e.sourceIndex))
  {
    var id, one := TrimSpace(g.canonical) + "\0", env.itoa(e.sourceIndex);
    forall e2: GroupEntry | HasSource(c, env.itoa(e2.sourceIndex))
      ensures id + env.itoa(e2.sourceIndex) == id + one <==> env.itoa(e2.sourceIndex) == one
    {
      var two := env.itoa(e2.sourceIndex);
      assert (id + two)[|id|..] == two && (id + one)[|id|..] == one;
    }
  }

  /** The tvg-id of a stream: that of the first group of several entries that it matches, or its own. */
  function GroupTvgID(env: Env, groups: seq<Group>, c: Channel, all: seq<Channel>): string {
    if groups == [] then c.tvgID
    else if |groups[0].entries| < 2 || !env.matches(c, groups[0]) then GroupTvgID(env, groups[1..], c, all)
    else if env.resolve(groups[0], all) == "" then c.tvgID
    else env.resolve(groups[0], all)
  }

  /** The stream becomes rows of a group. */
  ghost predicate IsSplit(env: Env, groups: seq<Group>, c: Channel) {
    var g := GroupOf(env, groups, KeyOf(env, c.title));
    g.Some? && Sourced(env, c, g.value.entries) != []
  }

  /** The tvg-id of the rows of one stream, when the streams are `all`: resolved from the group it is split by, or else that of
      the first group it matches. */
  ghost function IdFor(env: Env, groups: seq<Group>, c: Channel, all: seq<Channel>): string {
    if IsSplit(env, groups, c) then env.resolve(GroupOf(env, groups, KeyOf(env, c.title)).value, all)
    else GroupTvgID(env, groups, c, all)
  }

  /** The streams when the loop comes to number n: those before it that stayed themselves have their new tvg-ids. */
  ghost function Current(env: Env, groups: seq<Group>, entries: seq<Channel>, n: nat): (all: seq<Channel>)
    requires n <= |entries|
    ensures |all| == |entries|
  {
    if n == 0 then entries
    else
      var all, c := Current(env, groups, entries, n - 1), entries[n - 1];
      all[n - 1 := Changed(env, groups, c, all, Repeated(env, entries, n - 1))]
  }

  /** What the loop makes of the stream itself. */
  ghost function Changed(env: Env, groups: seq<Group>, c: Channel, all: seq<Channel>, repeated: bool): Channel {
    if GroupOf(env, groups, KeyOf(env, c.title)).Some? && (repeated || IsSplit(env, groups, c)) then c
    else c.(tvgID := GroupTvgID(env, groups, c, all))
  }

  ghost predicate HasIds(env: Env, groups: seq<Group>, entries: seq<Channel>, ids: seq<string>) {
    && |ids| <= |entries|
    && (ids == [] ||
        (HasIds(env, groups, entries, ids[..|ids| - 1])
         && ids[|ids| - 1] == IdFor(env, groups, entries[|ids| - 1], Current(env, groups, entries, |ids| - 1))))
  }

  lemma OneMoreId(env: Env, groups: seq<Group>, entries: seq<Channel>, ids: seq<string>, id: string)
    requires HasIds(env, groups, entries, ids) && |ids| < |entries|
    requires id == IdFor(env, groups, entries[|ids|], Current(env, groups, entries, |ids|))
    ensures HasIds(env, groups, entries, ids + [id])
  {
    assert (ids + [id])[..|ids|] == ids;
  }

  /** The rows of one stream. `repeated`: an earlier stream has the same grouped title. */
  ghost predicate AreRows(env: Env, groups: seq<Group>, c: Channel, repeated: bool, tvgID: string, rows: seq<Channel>) {
    match GroupOf(env, groups, KeyOf(env, c.title))
    case None => rows == [c.(tvgID := tvgID)]
    case Some(g) =>
      if repeated then rows == []
      else if Sourced(env, c, g.entries) == [] then rows == [c.(tvgID := tvgID)]
      else RowPerSource(env, c, g, tvgID, rows)
  }

  /** An earlier stream has the same title, as groups compare titles. */
  ghost predicate Repeated(env: Env, entries: seq<Channel>, i: nat)
    requires i < |entries|
  {
    AmongFirst(env, entries, i, KeyOf(env, entries[i].title))
  }

  ghost predicate AmongFirst(env: Env, entries: seq<Channel>, n: nat, key: string)
    requires n <= |entries|
  {
    exists j :: 0 <= j < n && KeyOf(env, entries[j].title) == key
  }

  /** `rows` are the rows of the first streams, one after the other, with a tvg-id for each stream. */
  ghost predicate Expanded(env: Env, groups: seq<Group>, entries: seq<Channel>, ids: seq<string>,
                           rows: seq<seq<Channel>>)
    decreases |rows|
  {
    && |rows| == |ids| <= |entries|
    && (rows == []
        || (Expanded(env, groups, entries, ids[..|ids| - 1], rows[..|rows| - 1])
            && RowsAt(env, groups, entries, |rows| - 1, ids[|ids| - 1], rows[|rows| - 1])))
  }

  ghost predicate RowsAt(env: Env, groups: seq<Group>, entries: seq<Channel>, i: nat, id: string, rows: seq<Channel>)
    requires i < |entries|
  {
    AreRows(env, groups, entries[i], Repeated(env, entries, i), id, rows)
  }

  lemma OneMoreExpanded(env: Env, groups: seq<Group>, entries: seq<Channel>, ids: seq<string>, rows: seq<seq<Channel>>,
                        id: string, one: seq<Channel>)
    requires Expanded(env, groups, entries, ids, rows) && |rows| < |entries|
    requires RowsAt(env, groups, entries, |rows|, id, one)
    ensures Expanded(env, groups, entries, ids + [id], rows + [one]) && Concat(rows + [one]) == Concat(rows) + one
  {
    assert (ids + [id])[..|ids|] == ids && (rows + [one])[..|rows|] == rows;
  }

  function Concat<T>(rows: seq<seq<T>>): seq<T> { if rows == [] then [] else Concat(rows[..|rows| - 1]) + rows[|rows| - 1] }

  function WithoutIds(cs: seq<Channel>): seq<Channel> { seq(|cs|, i requires 0 <= i < |cs| => cs[i].(tvgID := "")) }

  /** The rows that stream number i has to become, up to their tvg-ids. */
  ghost function RowsFor(env: Env, groups: seq<Group>, entries: seq<Channel>, i: nat): seq<Channel>
    requires i < |entries|
  {
    var c := entries[i];
    match GroupOf(env, groups, KeyOf(env, c.title))
    case None => [c.(tvgID := "")]
    case Some(g) =>
      var es := Sourced(env, c, g.entries);
      if Repeated(env, entries, i) then []
      else if es == [] then [c.(tvgID := "")]
      else seq(|es|, k requires 0 <= k < |es| => (assert es[k] in es; Clone(env, c, es[k], g, "")))
  }

  ghost function RowsForFirst(env: Env, groups: seq<Group>, entries: seq<Channel>, n: nat): seq<Channel>
    requires n <= |entries|
  {
    if n == 0 then [] else RowsForFirst(env, groups, entries, n - 1) + RowsFor(env, groups, entries, n - 1)
  }

  lemma AreRowsFor(env: Env, groups: seq<Group>, entries: seq<Channel>, i: nat, tvgID: string, rows: seq<Channel>)
    requires i < |entries| && AreRows(env, groups, entries[i], Repeated(env, entries, i), tvgID, rows)
    ensures WithoutIds(rows) == RowsFor(env, groups, entries, i)
  {
    var c := entries[i];
    match GroupOf(env, groups, KeyOf(env, c.title))
    case None =>
    case Some(g) =>
      forall e | e in Sourced(env, c, g.entries)
        ensures Clone(env, c, e, g, tvgID).(tvgID := "") == Clone(env, c, e, g, "")
      {
      }
  }

  lemma {:induction false} ExpandedAreRowsForFirst(env: Env, groups: seq<Group>, entries: seq<Channel>,
                                                   ids: seq<string>, rows: seq<seq<Channel>>)
    requires Expanded(env, groups, entries, ids, rows)
    ensures WithoutIds(Concat(rows)) == RowsForFirst(env, groups, entries, |rows|)
    decreases |rows|
  {
    if rows != [] {
      var n := |rows| - 1;
      ExpandedAreRowsForFirst(env, groups, entries, ids[..n], rows[..n]);
      AreRowsFor(env, groups, entries, n, ids[n], rows[n]);
      WithoutIdsJoin(Concat(rows[..n]), rows[n]);
    }
  }

  lemma WithoutIdsJoin(a: seq<Channel>, b: seq<Channel>)
    ensures WithoutIds(a + b) == WithoutIds(a) + WithoutIds(b)
  {
  }

  /** applyGroupTvgID */
  method ApplyGroupTvgID(env: Env, c: Channel, groups: seq<Group>, all: seq<Channel>) returns (d: Channel)
    ensures d == c.(tvgID := GroupTvgID(env, groups, c, all))
  {
    d := c;
    for i := 0 to |groups|
      invariant d == c && GroupTvgID(env, groups[i..], c, all) == GroupTvgID(env, groups, c, all)
    {
      assert groups[i..][1..] == groups[i + 1..];
      if |groups[i].entries| < 2 || !env.matches(c, groups[i]) {
        continue;
      }
      var resolved := env.resolve(groups[i], all);
      if resolved != "" {
        d := d.(tvgID := resolved);
      }
      return;
    }
  }

  lemma OneMoreClone(env: Env, c: Channel, g: Group, i: nat, tvgID: string, clones: seq<Channel>)
    requires i < |g.entries| && HasSource(c, env.itoa(g.entries[i].sourceIndex))
    requires RowPerSource(env, c, g.(entries := g.entries[..i]), tvgID, clones)
    ensures RowPerSource(env, c, g.(entries := g.entries[..i + 1]), tvgID, clones + [Clone(env, c, g.entries[i], g, tvgID)])
  {
    assert g.entries[..i + 1][..i] == g.entries[..i];
    assert Sourced(env, c, g.entries[..i + 1]) == Sourced(env, c, g.entries[..i]) + [g.entries[i]];
  }

  /** The inner loop of expandStreamsForCompile. */
  method Clones(env: Env, c: Channel, g: Group, tvgID: string) returns (clones: seq<Channel>)
    ensures RowPerSource(env, c, g, tvgID, clones)
  {
    clones := [];
    for i := 0 to |g.entries|
      invariant RowPerSource(env, c, g.(entries := g.entries[..i]), tvgID, clones)
    {
      assert g.entries[..i + 1][..i] == g.entries[..i];
      ghost var es := Sourced(env, c, g.entries[..i]);
      if !HasSource(c, env.itoa(g.entries[i].sourceIndex)) {
        assert Sourced(env, c, g.entries[..i + 1]) == es;
        continue;
      }
      OneMoreClone(env, c, g, i, tvgID, clones);
      clones := clones + [Clone(env, c, g.entries[i], g, tvgID)];
    }
    assert g.(entries := g.entries[..|g.entries|]) == g;
  }

  /** The outer loop, for one stream. Entries change while the loop runs: `all` is what they are at this point. */
  method ExpandOne(env: Env, groups: seq<Group>, m: map<string, Group>, c: Channel, all: seq<Channel>, seen: bool)
    returns (rows: seq<Channel>, changed: Channel, ghost tvgID: string)
    requires IsGroupMap(env, groups, m)
    ensures tvgID == IdFor(env, groups, c, all) && AreRows(env, groups, c, seen, tvgID, rows)
    ensures changed == Changed(env, groups, c, all, seen)
  {
    var key := KeyOf(env, c.title);
    changed, tvgID := c, IdFor(env, groups, c, all);
    assert GroupOf(env, groups, key) == if key in m then Some(m[key]) else None;
    if key !in m {
      changed := ApplyGroupTvgID(env, c, groups, all);
      rows := [changed];
      return;
    }
    if seen {
      rows := [];
      return;
    }
    var resolved := env.resolve(m[key], all);
    rows := Clones(env, c, m[key], resolved);
    if |rows| > 0 {
      return;
    }
    changed := ApplyGroupTvgID(env, c, groups, all);
    rows := [changed];
  }

  /** expandStreamsForCompile, when merging of channels is active and there are groups. */
  method ExpandStreamsForCompile(env: Env, entries: seq<Channel>, groups: seq<Group>)
    returns (output: seq<Channel>, ghost rows: seq<seq<Channel>>, ghost ids: seq<string>)
    ensures WithoutIds(output) == RowsForFirst(env, groups, entries, |entries|)
    ensures Expanded(env, groups, entries, ids, rows) && |rows| == |entries| && output == Concat(rows)
    ensures HasIds(env, groups, entries, ids)
  {
    var m := MultiEntryGroups(env, groups);
    var handled: set<string> := {};
    var all := entries;
    output, rows, ids := [], [], [];
    for i := 0 to |entries|
      invariant Expanded(env, groups, entries, ids, rows) && |rows| == i && output == Concat(rows)
      invariant all == Current(env, groups, entries, i) && HasIds(env, groups, entries, ids)
      invariant IsHandled(env, m, entries, i, handled)
    {
      var key := KeyOf(env, entries[i].title);
      assert GroupOf(env, groups, key) == if key in m then Some(m[key]) else None;
      var one, changed, id := ExpandOne(env, groups, m, entries[i], all, key in handled);
      OneMoreHandled(env, m, entries, i, handled);
      if key in m {
        handled := handled + {key};
      }
      all := all[i := changed];
      OneMoreExpanded(env, groups, entries, ids, rows, id, one);
      OneMoreId(env, groups, entries, ids, id);
      output, rows, ids := output + one, rows + [one], ids + [id];
    }
    ExpandedAreRowsForFirst(env, groups, entries, ids, rows);
  }

  /** The keys of groups that the first streams have come to. */
  ghost predicate IsHandled(env: Env, m: map<string, Group>, entries: seq<Channel>, i: nat, handled: set<string>)
    requires i <= |entries|
  {
    forall key {:trigger AmongFirst(env, entries, i, key)} :: key in handled <==> key in m && AmongFirst(env, entries, i, key)
  }

  lemma OneMoreHandled(env: Env, m: map<string, Group>, entries: seq<Channel>, i: nat, handled: set<string>)
    requires i < |entries| && IsHandled(env, m, entries, i, handled)
    ensures var key := KeyOf(env, entries[i].title);
            IsHandled(env, m, entries, i + 1, if key in m then handled + {key} else handled)
  {
    var key := KeyOf(env, entries[i].title);
    OneMoreAmongFirst(env, entries, i);
    forall k
      ensures k in (if key in m then handled + {key} else handled) <==> k in m && AmongFirst(env, entries, i + 1, k)
    {
      assert AmongFirst(env, entries, i + 1, k) <==> AmongFirst(env, entries, i, k) || k == key;
    }
  }

  lemma OneMoreAmongFirst(env: Env, entries: seq<Channel>, i: nat)
    requires i < |entries|
    ensures forall key :: AmongFirst(env, entries, i + 1, key) <==> AmongFirst(env, entries, i, key) || key == KeyOf(env, entries[i].title)
  {
    forall key
      ensures AmongFirst(env, entries, i + 1, key) <==> AmongFirst(env, entries, i, key) || key == KeyOf(env, entries[i].title)
    {
      if j :| 0 <= j < i + 1 && KeyOf(env, entries[j].title) == key {
        assert AmongFirst(env, entries, i + 1, key);
      }
    }
  }

  /** No stream is lost if and only if no two streams have the same grouped title. */
  lemma NothingIsLostIff(env: Env, groups: seq<Group>, entries: seq<Channel>)
    ensures (forall i: nat :: i < |entries| ==> RowsFor(env, groups, entries, i) != []) <==>
            (forall i, j :: 0 <= j < i < |entries| && GroupOf(env, groups, KeyOf(env, entries[i].title)).Some? ==>
               KeyOf(env, entries[j].title) != KeyOf(env, entries[i].title))
  {
    forall i: nat | i < |entries|
      ensures RowsFor(env, groups, entries, i) == [] <==>
              GroupOf(env, groups, KeyOf(env, entries[i].title)).Some? && Repeated(env, entries, i)
    {
    }
  }

  /** Lower case leaves the characters alone that the sorter replaces, and gives no others of them. */
  ghost predicate LeavesMarks(lower: char -> char) {
    && lower('_') == '_'
    && forall c :: if Sorting.Sanitized(c) == [c] then Sorting.Sanitized(lower(c)) == [lower(c)] else lower(c) == c
  }

  lemma OneLowered(lower: char -> char, c: char)
    requires LeavesMarks(lower)
    ensures ToLower(lower, Sorting.Sanitized(c)) == Sorting.Sanitized(lower(c))
  {
    var mark := Sorting.Sanitized(c);
    assert mark == "" || mark == "_" || mark == [c];
    assert ToLower(lower, mark) == if mark == "" then "" else [lower(mark[0])];
  }

  lemma LowerJoin(lower: char -> char, a: string, b: string)
    ensures ToLower(lower, a + b) == ToLower(lower, a) + ToLower(lower, b)
  {
  }

  lemma {:induction false} ReplaceLowered(lower: char -> char, s: string)
    requires LeavesMarks(lower)
    ensures ToLower(lower, Sorting.Replace(s)) == Sorting.Replace(ToLower(lower, s))
  {
    if s != "" {
      ReplaceLowered(lower, s[1..]);
      OneLowered(lower, s[0]);
      LowerJoin(lower, Sorting.Sanitized(s[0]), Sorting.Replace(s[1..]));
      assert ToLower(lower, s)[1..] == ToLower(lower, s[1..]);
    }
  }

  /** Streams that the sorter tells apart are told apart by groups, so of what it lists nothing is lost. */
  lemma NothingIsLostOfSorted(env: Env, groups: seq<Group>, entries: seq<Channel>)
    requires LeavesMarks(env.lower)
    requires forall i, j :: 0 <= j < i < |entries| ==>
               Sorting.SanitizeField(env.lower, entries[j].title) != Sorting.SanitizeField(env.lower, entries[i].title)
    ensures forall i: nat :: i < |entries| ==> RowsFor(env, groups, entries, i) != []
  {
    forall i, j | 0 <= j < i < |entries|
      ensures KeyOf(env, entries[j].title) != KeyOf(env, entries[i].title)
    {
      ReplaceLowered(env.lower, TrimSpace(entries[i].title));
      ReplaceLowered(env.lower, TrimSpace(entries[j].title));
    }
    NothingIsLostIff(env, groups, entries);
  }

  /** The rows of a grouped stream keep all its URLs exactly if the group names every source that has any. */
  lemma UrlsAreKeptIff(env: Env, c: Channel, g: Group, tvgID: string, rows: seq<Channel>)
    requires RowPerSource(env, c, g, tvgID, rows)
    ensures forall r, source :: r in rows && source in r.urls ==> HasSource(c, source) && r.urls[source] == c.urls[source]
    ensures (forall source :: HasSource(c, source) ==> exists r :: r in rows && source in r.urls) <==>
            (forall source :: HasSource(c, source) ==> exists e :: e in g.entries && env.itoa(e.sourceIndex) == source)
  {
    var es := Sourced(env, c, g.entries);
    forall source | HasSource(c, source)
      ensures (exists r :: r in rows && source in r.urls) <==> (exists e :: e in g.entries && env.itoa(e.sourceIndex) == source)
    {
      if e :| e in g.entries && env.itoa(e.sourceIndex) == source {
        assert e in es;
        var k :| 0 <= k < |es| && es[k] == e;
        assert rows[k] in rows && source in rows[k].urls;
      }
      if r :| r in rows && source in r.urls {
        var k :| 0 <= k < |rows| && rows[k] == r;
        assert es[k] in es;
        assert es[k] in g.entries && env.itoa(es[k].sourceIndex) == source;
      }
    }
  }

  /** Of two streams with the same grouped title the second is lost, whatever its sources. */
  lemma RepeatedTitleIsLost(env: Env, c: Channel, d: Channel, e: GroupEntry)
    requires KeyOf(env, c.title) == KeyOf(env, d.title) != ""
    ensures RowsFor(env, [Group(c.title, [e, e])], [c, d], 1) == []
  {
    var g := Group(c.title, [e, e]);
    assert HasKey(env, g, KeyOf(env, d.title));
    assert GroupOf(env, [g], KeyOf(env, d.title)) == Some(g);
    assert [c, d][0] == c;
  }

  /** A source that a group does not name has no row. */
  lemma UnnamedSourceIsLost(env: Env, c: Channel, rest: string, e: GroupEntry)
    requires c.urls == map[env.itoa(e.sourceIndex) := map["1" := "x"], rest := map["2" := "y"]] && rest != env.itoa(e.sourceIndex)
    ensures HasSource(c, rest)
    ensures forall rows, tvgID :: RowPerSource(env, c, Group(c.title, [e, e]), tvgID, rows) ==>
              rows != [] && forall r :: r in rows ==> rest !in r.urls
  {
    var one, two: map<string, string> := map["1" := "x"], map["2" := "y"];
    assert "1" in one && "2" in two;
    var g := Group(c.title, [e, e]);
    assert c.urls[env.itoa(e.sourceIndex)] == one && c.urls[rest] == two;
    assert HasSource(c, env.itoa(e.sourceIndex)) && HasSource(c, rest);
    assert [e, e][..1] == [e] && [e][..0] == [];
    assert Sourced(env, c, [e]) == [e] && Sourced(env, c, [e, e]) == [e, e];
    forall rows, tvgID | RowPerSource(env, c, g, tvgID, rows)
      ensures rows != [] && forall r :: r in rows ==> rest !in r.urls
    {
      UrlsAreKeptIff(env, c, g, tvgID, rows);
    }
  }
}
