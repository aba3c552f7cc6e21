/** The desktop application's map of merged channels: flattening it, and resolving a channel through it
    (windows-app/gui_app.py). A key is a case-folded channel name. Case folding and stripping are parameters. */
module ChannelMergeMap {
  import opened BufferPools
  import opened MergeRules

  datatype Names = Names(fold: string -> Key, strip: string -> string)

  /** channel_name_by_key: of channels with the same key the last one wins. */
  function ByKey(names: Names, loaded: seq<string>): map<Key, string> {
    if loaded == [] then map[] else ByKey(names, loaded[..|loaded| - 1])[names.fold(loaded[|loaded| - 1]) := loaded[|loaded| - 1]]
  }

  /** Channel names as discovery delivers them: stripped, and not blank. */
  ghost predicate Tidy(names: Names, name: string) { names.strip(name) == name && names.fold(name) != "" }

  ghost predicate AllTidy(names: Names, loaded: seq<string>, merges: map<Key, string>) {
    (forall c :: c in loaded ==> Tidy(names, c)) && (forall k :: k in merges ==> names.strip(merges[k]) == merges[k])
  }

  /** The edges that resolving follows: to a loaded channel, possibly the same one. */
  function Edges(names: Names, loaded: seq<string>, merges: map<Key, string>): map<Key, Key> {
    map k | k in merges && names.fold(names.strip(merges[k])) != "" && names.fold(names.strip(merges[k])) in ByKey(names, loaded)
      :: names.fold(names.strip(merges[k]))
  }

  /** raw_edges: between different loaded channels. */
  function RawEdges(names: Names, loaded: seq<string>, merges: map<Key, string>): map<Key, Key> {
    var byKey := ByKey(names, loaded);
    map k | k in merges && k in byKey && names.fold(merges[k]) in byKey && k != names.fold(merges[k]) :: names.fold(merges[k])
  }

  function GraphOn(edges: map<Key, Key>): Graph { Graph(k => k, edges) }

  /** Where the edges lead from k, stopping at the first key met twice. */
  function End(edges: map<Key, Key>, k: Key): Key { GraphOn(edges).Walk(k, edges.Keys) }

  /** The flattened edges: straight to the end, unless the chain runs into a cycle. */
  function Flat(raw: map<Key, Key>): map<Key, Key> { map k | k in raw && End(raw, k) !in raw :: End(raw, k) }

  function Normalized(names: Names, loaded: seq<string>, merges: map<Key, string>): map<Key, string> {
    if loaded == [] then map[]
    else
      var byKey := ByKey(names, loaded);
      var flat := Flat(RawEdges(names, loaded, merges));
      map k | k in flat && flat[k] in byKey :: byKey[flat[k]]
  }

  function Resolve(names: Names, loaded: seq<string>, merges: map<Key, string>, channel: string): string {
    var byKey := ByKey(names, loaded);
    if channel == "" || names.fold(channel) !in byKey then channel
    else
      var end := End(Edges(names, loaded, merges), names.fold(channel));
      if end in byKey then byKey[end] else channel
  }

  lemma {:induction false} ByKeyIsLoaded(names: Names, loaded: seq<string>)
    ensures forall k :: k in ByKey(names, loaded) ==> ByKey(names, loaded)[k] in loaded && names.fold(ByKey(names, loaded)[k]) == k
    ensures forall c :: c in loaded ==> names.fold(c) in ByKey(names, loaded)
  {
    if loaded != [] {
      ByKeyIsLoaded(names, loaded[..|loaded| - 1]);
      assert loaded == loaded[..|loaded| - 1] + [loaded[|loaded| - 1]];
    }
  }

  /** Of loaded channels with one key the last one is its name. */
  lemma {:induction false} ByKeyIsLast(names: Names, loaded: seq<string>, i: nat)
    requires i < |loaded| && forall j :: i < j < |loaded| ==> names.fold(loaded[j]) != names.fold(loaded[i])
    ensures names.fold(loaded[i]) in ByKey(names, loaded) && ByKey(names, loaded)[names.fold(loaded[i])] == loaded[i]
  {
    if i < |loaded| - 1 {
      ByKeyIsLast(names, loaded[..|loaded| - 1], i);
      assert names.fold(loaded[|loaded| - 1]) != names.fold(loaded[i]);
    }
  }

  /** A loaded channel resolves to the name of the key where its edges first stop. */
  lemma ResolvesWhereEdgesStop(names: Names, loaded: seq<string>, merges: map<Key, string>, channel: string)
    requires channel != "" && names.fold(channel) in ByKey(names, loaded)
    ensures exists n, k :: GraphOn(Edges(names, loaded, merges)).EndsAt(names.fold(channel), n, k)
                           && k in ByKey(names, loaded) && Resolve(names, loaded, merges, channel) == ByKey(names, loaded)[k]
  {
    var edges, start := Edges(names, loaded, merges), names.fold(channel);
    var g := GraphOn(edges);
    assert g.Unseen([]) == edges.Keys;
    g.WalkStops(start, start, []);
    g.WalkFromTheStart(start);
    var n :| g.EndsAt(start, n, End(edges, start));
    assert End(edges, start) in ByKey(names, loaded);
  }

  /** The inner loop of normalize_merge_map_for_loaded_channels. */
  method FollowRaw(raw: map<Key, Key>, source: Key) returns (current: Key, cyclic: bool)
    requires source in raw && forall k :: k in raw ==> raw[k] != ""
    ensures current == End(raw, source) && (cyclic <==> current in raw)
  {
    ghost var g := GraphOn(raw);
    var seen: set<Key> := {source};
    current := raw[source];
    while current in raw && current !in seen
      invariant seen <= raw.Keys
      invariant g.Walk(current, raw.Keys - seen) == End(raw, source)
      decreases raw.Keys - seen
    {
      assert raw.Keys - (seen + {current}) == (raw.Keys - seen) - {current};
      seen := seen + {current};
      current := raw[current];
    }
    cyclic := current in seen;
  }

  /** The first loop of normalize_merge_map_for_loaded_channels. */
  method CollectRaw(names: Names, loaded: seq<string>, merges: map<Key, string>) returns (rawEdges: map<Key, Key>)
    ensures rawEdges == RawEdges(names, loaded, merges)
  {
    var byKey := ByKey(names, loaded);
    ghost var raw := RawEdges(names, loaded, merges);
    rawEdges := map[];
    var todo := merges.Keys;
    while todo != {}
      invariant todo <= merges.Keys
      invariant forall k :: k in rawEdges <==> k in raw && k !in todo
      invariant forall k :: k in rawEdges ==> rawEdges[k] == raw[k]
    {
      var source :| source in todo;
      todo := todo - {source};
      var target := names.fold(merges[source]);
      if source !in byKey { continue; }
      if target !in byKey { continue; }
      if source == target { continue; }
      rawEdges := rawEdges[source := target];
    }
    assert rawEdges == raw;
  }

  /** The second loop, which flattens. */
  method Flatten(raw: map<Key, Key>) returns (resolved: map<Key, Key>)
    requires forall k :: k in raw ==> raw[k] != ""
    ensures resolved == Flat(raw)
  {
    resolved := map[];
    var todo := raw.Keys;
    while todo != {}
      invariant todo <= raw.Keys
      invariant forall k :: k in resolved <==> k in raw && k !in todo && End(raw, k) !in raw
      invariant forall k :: k in resolved ==> resolved[k] == End(raw, k)
    {
      var source :| source in todo;
      todo := todo - {source};
      var current, cyclic := FollowRaw(raw, source);
      if cyclic { continue; }
      if source != current {
        resolved := resolved[source := current];
      }
    }
  }

  /** normalize_merge_map_for_loaded_channels */
  method Normalize(names: Names, loaded: seq<string>, merges: map<Key, string>) returns (merges': map<Key, string>)
    requires AllTidy(names, loaded, merges)
    ensures merges' == Normalized(names, loaded, merges)
  {
    if loaded == [] { return map[]; }
    var byKey := ByKey(names, loaded);
    ByKeyIsLoaded(names, loaded);
    var raw := CollectRaw(names, loaded, merges);
    var resolved := Flatten(raw);
    EndsAreLoaded(names, loaded, merges);
    merges' := map k | k in resolved :: byKey[resolved[k]];
  }

  /** resolve_channel_name */
  method ResolveChannelName(names: Names, loaded: seq<string>, merges: map<Key, string>, channel: string)
    returns (name: string)
    ensures name == Resolve(names, loaded, merges, channel)
  {
    if channel == "" { return channel; }
    var byKey := ByKey(names, loaded);
    var current := names.fold(channel);
    if current !in byKey { return channel; }
    ghost var edges := Edges(names, loaded, merges);
    ghost var g := GraphOn(edges);
    var seen: set<Key> := {};
    assert edges.Keys - seen == edges.Keys;
    while current in merges
      invariant g.Walk(current, edges.Keys - seen) == End(edges, names.fold(channel))
      decreases merges.Keys - seen
    {
      if current in seen { break; }
      assert edges.Keys - (seen + {current}) == (edges.Keys - seen) - {current};
      seen := seen + {current};
      var next := names.fold(names.strip(merges[current]));
      if next == "" || next !in byKey { break; }
      current := next;
    }
    return if current in byKey then byKey[current] else channel;
  }

  lemma EndsAreLoaded(names: Names, loaded: seq<string>, merges: map<Key, string>)
    requires AllTidy(names, loaded, merges)
    ensures forall k :: k in Flat(RawEdges(names, loaded, merges)) ==> Flat(RawEdges(names, loaded, merges))[k] in ByKey(names, loaded)
  {
    var raw := RawEdges(names, loaded, merges);
    forall k | k in Flat(raw)
      ensures End(raw, k) in ByKey(names, loaded)
    {
      GraphOn(raw).WalkFromTheStart(k);
    }
  }

  /** After flattening no target is itself a source. */
  lemma TargetsAreNoSources(names: Names, loaded: seq<string>, merges: map<Key, string>)
    ensures var merges' := Normalized(names, loaded, merges);
            forall k :: k in merges' ==> names.fold(merges'[k]) !in merges'
  {
    ByKeyIsLoaded(names, loaded);
  }

  /** Edges from a key to itself, or from channels not loaded, make no difference to where a loaded channel ends. */
  lemma {:induction false} OtherEdgesDoNotMatter(edges: map<Key, Key>, raw: map<Key, Key>, loaded: set<Key>, k: Key,
                                                 unseen: set<Key>)
    requires k in loaded && forall l :: l in edges ==> edges[l] != "" && edges[l] in loaded
    requires forall l :: l in loaded ==> (l in raw <==> l in edges && edges[l] != l) && (l in raw ==> raw[l] == edges[l])
    ensures GraphOn(edges).Walk(k, unseen) == GraphOn(raw).Walk(k, unseen * raw.Keys)
    decreases unseen
  {
    if k in edges && k in unseen {
      if k in raw {
        OtherEdgesDoNotMatter(edges, raw, loaded, raw[k], unseen - {k});
        assert (unseen - {k}) * raw.Keys == unseen * raw.Keys - {k};
      } else {
        assert GraphOn(edges).Walk(k, unseen - {k}) == k;
      }
    }
  }

  /** Before flattening, a loaded channel resolves to where the raw edges end. */
  lemma EndBefore(names: Names, loaded: seq<string>, merges: map<Key, string>, k: Key)
    requires AllTidy(names, loaded, merges) && k in ByKey(names, loaded)
    ensures End(Edges(names, loaded, merges), k) == End(RawEdges(names, loaded, merges), k)
  {
    var edges, raw := Edges(names, loaded, merges), RawEdges(names, loaded, merges);
    ByKeyIsLoaded(names, loaded);
    forall l | l in ByKey(names, loaded)
      ensures (l in raw <==> l in edges && edges[l] != l) && (l in raw ==> raw[l] == edges[l])
    {
      if l in merges {
        assert names.strip(merges[l]) == merges[l];
      }
    }
    OtherEdgesDoNotMatter(edges, raw, ByKey(names, loaded).Keys, k, edges.Keys);
    assert raw.Keys <= edges.Keys;
    assert edges.Keys * raw.Keys == raw.Keys;
  }

  /** After flattening, it resolves to its flattened edge, or to itself. */
  lemma EndAfter(names: Names, loaded: seq<string>, merges: map<Key, string>, k: Key)
    requires AllTidy(names, loaded, merges) && loaded != []
    ensures var flat := Flat(RawEdges(names, loaded, merges));
            End(Edges(names, loaded, Normalized(names, loaded, merges)), k) == if k in flat then flat[k] else k
  {
    var flat := Flat(RawEdges(names, loaded, merges));
    var merges' := Normalized(names, loaded, merges);
    ByKeyIsLoaded(names, loaded);
    EndsAreLoaded(names, loaded, merges);
    forall l | l in flat
      ensures l in merges' && names.fold(names.strip(merges'[l])) == flat[l] != ""
    {
      assert Tidy(names, merges'[l]);
    }
    assert Edges(names, loaded, merges') == flat;
    if k in flat {
      assert GraphOn(flat).Walk(flat[k], flat.Keys - {k}) == flat[k];
    }
  }

  /** Flattening keeps what a loaded channel resolves to if and only if its chain of merges comes to an end or comes
      back to the channel itself; it is lost for the channels that lead into a cycle without being on it. */
  lemma FlatteningKeepsMeaningIff(names: Names, loaded: seq<string>, merges: map<Key, string>, channel: string)
    requires AllTidy(names, loaded, merges) && channel in loaded && channel != ""
    ensures var g := GraphOn(RawEdges(names, loaded, merges));
            Resolve(names, loaded, Normalized(names, loaded, merges), channel) == Resolve(names, loaded, merges, channel)
            <==> g.ComesToAnEnd(names.fold(channel)) || g.ComesBack(names.fold(channel))
  {
    var k, raw := names.fold(channel), RawEdges(names, loaded, merges);
    var g, byKey := GraphOn(raw), ByKey(names, loaded);
    ByKeyIsLoaded(names, loaded);
    EndBefore(names, loaded, merges, k);
    EndAfter(names, loaded, merges, k);
    EndsAreLoaded(names, loaded, merges);
    assert g.Unseen([]) == raw.Keys;
    g.WalkEnds(k, k, []);
    g.WalkComesBack(k, k, []);
    EndIsLoaded(names, loaded, merges, k);
    var before, after := End(raw, k), if k in Flat(raw) then Flat(raw)[k] else k;
    assert byKey[before] == byKey[after] <==> before == after;
  }

  lemma ThreeByKey(names: Names, a: string, b: string, c: string)
    ensures ByKey(names, [a, b, c]) == map[names.fold(a) := a][names.fold(b) := b][names.fold(c) := c]
  {
    var none: seq<string> := [];
    assert [a][..0] == none && [a, b][..1] == [a] && [a, b, c][..2] == [a, b];
    assert ByKey(names, none) == map[];
    assert ByKey(names, [a]) == map[names.fold(a) := a];
    assert ByKey(names, [a, b]) == map[names.fold(a) := a][names.fold(b) := b];
  }

  /** With a merged into b, and b and c into each other, a resolved to b; after flattening it is on its own. */
  lemma TailOfACycleIsLost()
    ensures var names := Names(k => k, k => k);
            var loaded, merges := ["a", "b", "c"], map["a" := "b", "b" := "c", "c" := "b"];
            && AllTidy(names, loaded, merges)
            && Resolve(names, loaded, merges, "a") == "b"
            && Resolve(names, loaded, Normalized(names, loaded, merges), "a") == "a"
  {
    var names := Names(k => k, k => k);
    var loaded, merges := ["a", "b", "c"], map["a" := "b", "b" := "c", "c" := "b"];
    var byKey := ByKey(names, loaded);
    ThreeByKey(names, "a", "b", "c");
    var raw := RawEdges(names, loaded, merges);
    assert "a" in merges && "b" in merges && "c" in merges && "a" != "b" && "b" != "c" && "a" != "c";
    assert forall k :: k in raw <==> k in merges;
    assert raw["a"] == "b" && raw["b"] == "c" && raw["c"] == "b";
    assert raw == merges;
    var g := GraphOn(raw);
    var bc, c, none: set<string> := {"b", "c"}, {"c"}, {};
    assert raw.Keys - {"a"} == bc && bc - {"b"} == c && c - {"c"} == none;
    assert g.Leads("a") && g.Leads("b") && g.Leads("c");
    assert g.Walk("b", none) == "b";
    assert g.Walk("c", c) == g.Walk("b", none);
    assert g.Walk("b", bc) == g.Walk("c", c);
    assert End(raw, "a") == g.Walk("b", bc);
    EndBefore(names, loaded, merges, "a");
    EndAfter(names, loaded, merges, "a");
  }

  lemma EndIsLoaded(names: Names, loaded: seq<string>, merges: map<Key, string>, k: Key)
    requires AllTidy(names, loaded, merges) && k in ByKey(names, loaded)
    ensures End(RawEdges(names, loaded, merges), k) in ByKey(names, loaded)
    ensures forall l :: GraphOn(RawEdges(names, loaded, merges)).Leads(l) <==> l in RawEdges(names, loaded, merges)
  {
    ByKeyIsLoaded(names, loaded);
    GraphOn(RawEdges(names, loaded, merges)).WalkFromTheStart(k);
  }
}
