/** The two readers of HLS master playlists, which are written separately: the HLS writer's parser
    (proxy/stream/buffer/coordinator_m3u8.go) and the passthrough's scan (proxy/stream/failovers/m3u8.go);
    RFC 8216, section 4.3.4.2. Parsing a URI and resolving it against the playlist's own URL is the parameter
    `resolve`; it gives None where the URI does not parse. */
module HlsParsers {
  import opened BufferPools
  import opened Text

  type Resolver = string -> Option<string>

  predicate IsStreamInf(line: string) { "#EXT-X-STREAM-INF" <= line }

  predicate IsUri(line: string) { line != "" && !("#" <= line) }

  datatype Metadata = Metadata(isMaster: bool, variants: seq<string>, segments: seq<string>, mediaSequence: int, endlist: bool)

  /** What a playlist turns out to be for the code that follows master playlists. */
  datatype Follow = NotMaster | Next(url: string) | NoVariants | ResolvesToItself | BadUri

  /** The URIs of the lines, in order. */
  function Uris(lines: seq<string>): seq<string> {
    if lines == [] then []
    else
      var line := TrimSpace(lines[0]);
      (if IsUri(line) then [line] else []) + Uris(lines[1..])
  }

  /** The lines after the first one that announces a variant; None when there is no such line. */
  function AfterStreamInf(lines: seq<string>): Option<seq<string>> {
    if lines == [] then None
    else if IsStreamInf(TrimSpace(lines[0])) then Some(lines[1..])
    else AfterStreamInf(lines[1..])
  }

  function Resolved(resolve: Resolver, uris: seq<string>): seq<string> {
    if uris == [] then []
    else One(resolve, uris[0]) + Resolved(resolve, uris[1..])
  }

  /** The URIs that count as variants: all after the first announcement. */
  function VariantUris(lines: seq<string>): seq<string> {
    match AfterStreamInf(lines)
    case None => []
    case Some(rest) => Uris(rest)
  }

  predicate IsMaster(lines: seq<string>) { AfterStreamInf(lines).Some? }

  lemma {:induction false} SnocUris(lines: seq<string>, line: string)
    ensures Uris(lines + [line]) == Uris(lines) + (if IsUri(TrimSpace(line)) then [TrimSpace(line)] else [])
  {
    if lines != [] {
      assert (lines + [line])[1..] == lines[1..] + [line];
      SnocUris(lines[1..], line);
    }
  }

  lemma {:induction false} SnocAfter(lines: seq<string>, line: string)
    ensures AfterStreamInf(lines + [line]) ==
            match AfterStreamInf(lines)
            case Some(rest) => Some(rest + [line])
            case None => if IsStreamInf(TrimSpace(line)) then Some([]) else None
  {
    if lines != [] {
      assert (lines + [line])[1..] == lines[1..] + [line];
      SnocAfter(lines[1..], line);
    } else {
      assert [line][1..] == [];
    }
  }

  lemma {:induction false} SnocResolved(resolve: Resolver, uris: seq<string>, uri: string)
    ensures Resolved(resolve, uris + [uri]) == Resolved(resolve, uris) + One(resolve, uri)
  {
    if uris != [] {
      assert (uris + [uri])[1..] == uris[1..] + [uri];
      SnocResolved(resolve, uris[1..], uri);
    }
  }

  lemma SnocIf(resolve: Resolver, uris: seq<string>, uri: string, more: bool)
    ensures Resolved(resolve, uris + (if more then [uri] else [])) ==
            Resolved(resolve, uris) + (if more then One(resolve, uri) else [])
  {
    if more {
      SnocResolved(resolve, uris, uri);
    } else {
      assert uris + [] == uris;
    }
  }

  lemma SnocVariants(lines: seq<string>, line: string)
    ensures IsMaster(lines + [line]) <==> IsMaster(lines) || IsStreamInf(TrimSpace(line))
    ensures VariantUris(lines + [line]) ==
            VariantUris(lines) + (if IsMaster(lines) && IsUri(TrimSpace(line)) then [TrimSpace(line)] else [])
  {
    SnocAfter(lines, line);
    if IsMaster(lines) {
      SnocUris(AfterStreamInf(lines).value, line);
    }
  }

  /** The resolved form of one URI, if it parses. */
  function One(resolve: Resolver, uri: string): seq<string> {
    match resolve(uri) case Some(u) => [u] case None => []
  }

  ghost predicate LineRead(m: Metadata, line: string, resolve: Resolver, m': Metadata) {
    && m'.isMaster == (m.isMaster || IsStreamInf(line))
    && m'.variants == m.variants + (if m.isMaster && IsUri(line) then One(resolve, line) else [])
    && m'.segments == m.segments + (if !m.isMaster && IsUri(line) then One(resolve, line) else [])
    && m'.endlist == (m.endlist || line == "#EXT-X-ENDLIST")
  }

  /** What the metadata say about the lines: the variants are the URIs after the first announcement that parse, and
      a playlist that is no master has all its URIs that parse as segments. */
  ghost predicate Describes(m: Metadata, lines: seq<string>, resolve: Resolver) {
    && (m.isMaster <==> IsMaster(lines))
    && m.variants == Resolved(resolve, VariantUris(lines))
    && (!m.isMaster ==> m.segments == Resolved(resolve, Uris(lines)))
    && (m.endlist <==> exists i :: 0 <= i < |lines| && TrimSpace(lines[i]) == "#EXT-X-ENDLIST")
  }

  lemma DescribesMore(m: Metadata, lines: seq<string>, raw: string, resolve: Resolver, m': Metadata)
    requires Describes(m, lines, resolve) && LineRead(m, TrimSpace(raw), resolve, m')
    ensures Describes(m', lines + [raw], resolve)
  {
    var line, lines' := TrimSpace(raw), lines + [raw];
    SnocVariants(lines, raw);
    SnocUris(lines, raw);
    SnocIf(resolve, VariantUris(lines), line, IsMaster(lines) && IsUri(line));
    SnocIf(resolve, Uris(lines), line, IsUri(line));
    assert lines'[|lines|] == raw && forall i :: 0 <= i < |lines| ==> lines'[i] == lines[i];
  }

  /** What a line adds to what was read before it. */
  function AfterLine(m: Metadata, line: string, resolve: Resolver, scan: string -> Option<int>): Metadata {
    Metadata(m.isMaster || IsStreamInf(line),
             m.variants + (if m.isMaster && IsUri(line) then One(resolve, line) else []),
             m.segments + (if !m.isMaster && IsUri(line) then One(resolve, line) else []),
             if "#EXT-X-MEDIA-SEQUENCE:" <= line && scan(line).Some? then scan(line).value else m.mediaSequence,
             m.endlist || line == "#EXT-X-ENDLIST")
  }

  /** One line of parsePlaylist: its switch. `scan` reads the number of a media sequence tag. */
  method ReadLine(m: Metadata, line: string, resolve: Resolver, scan: string -> Option<int>) returns (m': Metadata)
    ensures m' == AfterLine(m, line, resolve, scan)
  {
    m' := m;
    if "#" <= line {
      assert !IsUri(line);
      if "#EXTM3U" <= line {
        assert line[4] == 'M';
      } else if "#EXT-X-STREAM-INF" <= line {
        assert line[7] == 'S';
        m' := m.(isMaster := true);
      } else if "#EXT-X-MEDIA-SEQUENCE:" <= line {
        assert line[7] == 'M';
        match scan(line) {
          case Some(n) => m' := m.(mediaSequence := n);
          case None =>
        }
      } else if line == "#EXT-X-ENDLIST" {
        assert line[7] == 'E';
        m' := m.(endlist := true);
      }
    } else if line != "" {
      match resolve(line) {
        case None =>
        case Some(url) =>
          if m.isMaster {
            m' := m.(variants := m.variants + [url]);
          } else {
            m' := m.(segments := m.segments + [url]);
          }
      }
    }
  }

  /** The number of the last media sequence tag that has one, or 0. */
  function LastSequence(lines: seq<string>, scan: string -> Option<int>): int {
    if lines == [] then 0
    else
      var line := TrimSpace(lines[|lines| - 1]);
      if "#EXT-X-MEDIA-SEQUENCE:" <= line && scan(line).Some? then scan(line).value else LastSequence(lines[..|lines| - 1], scan)
  }

  lemma SnocSequence(lines: seq<string>, raw: string, scan: string -> Option<int>)
    ensures var line := TrimSpace(raw);
            LastSequence(lines + [raw], scan) ==
            if "#EXT-X-MEDIA-SEQUENCE:" <= line && scan(line).Some? then scan(line).value else LastSequence(lines, scan)
  {
    assert (lines + [raw])[..|lines|] == lines;
  }

  /** What the lines of a playlist add up to. */
  function AfterLines(lines: seq<string>, resolve: Resolver, scan: string -> Option<int>): Metadata {
    if lines == [] then Metadata(false, [], [], 0, false)
    else AfterLine(AfterLines(lines[..|lines| - 1], resolve, scan), TrimSpace(lines[|lines| - 1]), resolve, scan)
  }

  lemma {:induction false} AfterLinesDescribes(lines: seq<string>, resolve: Resolver, scan: string -> Option<int>)
    ensures Describes(AfterLines(lines, resolve, scan), lines, resolve)
    ensures AfterLines(lines, resolve, scan).mediaSequence == LastSequence(lines, scan)
  {
    if lines != [] {
      var front, last := lines[..|lines| - 1], lines[|lines| - 1];
      AfterLinesDescribes(front, resolve, scan);
      assert lines == front + [last];
      DescribesMore(AfterLines(front, resolve, scan), front, last, resolve, AfterLines(lines, resolve, scan));
      SnocSequence(front, last, scan);
    }
  }

  /** parsePlaylist */
  method ParsePlaylist(lines: seq<string>, resolve: Resolver, scan: string -> Option<int>) returns (m: Metadata)
    ensures Describes(m, lines, resolve) && m.mediaSequence == LastSequence(lines, scan)
  {
    m := Metadata(false, [], [], 0, false);
    for i := 0 to |lines|
      invariant m == AfterLines(lines[..i], resolve, scan)
    {
      assert lines[..i + 1][..i] == lines[..i];
      m := ReadLine(m, TrimSpace(lines[i]), resolve, scan);
    }
    assert lines[..|lines|] == lines;
    AfterLinesDescribes(lines, resolve, scan);
  }

  /** What the HLS writer does with what it parsed; `own` is the playlist's own URL. */
  function WriterFollows(m: Metadata, own: string): Follow {
    if !m.isMaster then NotMaster
    else if |m.variants| == 0 then NoVariants
    else if m.variants[0] == own then ResolvesToItself
    else Next(m.variants[0])
  }

  /** firstMasterVariant */
  method FirstMasterVariant(lines: seq<string>, resolve: Resolver, own: string) returns (f: Follow)
    ensures f == PassthroughFollows(lines, resolve, own)
  {
    var expectVariant, isMaster := false, false;
    for i := 0 to |lines|
      invariant isMaster <==> IsMaster(lines[..i])
      invariant isMaster ==> expectVariant
      invariant VariantUris(lines[..i]) == []
    {
      assert lines[..i + 1] == lines[..i] + [lines[i]];
      SnocVariants(lines[..i], lines[i]);
      var line := TrimSpace(lines[i]);
      if line == "" { continue; }
      if "#EXT-X-STREAM-INF" <= line {
        assert line[0] == '#';
        isMaster, expectVariant := true, true;
        continue;
      }
      if !isMaster { continue; }
      if "#" <= line { continue; }
      if !expectVariant { continue; }
      FirstStays(lines, i + 1);
      match resolve(line) {
        case None => return BadUri;
        case Some(url) => return if url == own then ResolvesToItself else Next(url);
      }
    }
    assert lines[..|lines|] == lines;
    return if isMaster then NoVariants else NotMaster;
  }

  /** Later lines do not change the first variant. */
  lemma {:induction false} FirstStays(lines: seq<string>, i: nat)
    requires i <= |lines| && VariantUris(lines[..i]) != []
    ensures IsMaster(lines) && VariantUris(lines) != [] && VariantUris(lines)[0] == VariantUris(lines[..i])[0]
    decreases |lines| - i
  {
    if i < |lines| {
      assert lines[..i + 1] == lines[..i] + [lines[i]];
      SnocVariants(lines[..i], lines[i]);
      FirstStays(lines, i + 1);
    } else {
      assert lines[..i] == lines;
    }
  }

  /** The passthrough's verdict, as FirstMasterVariant computes it. */
  function PassthroughFollows(lines: seq<string>, resolve: Resolver, own: string): Follow {
    if !IsMaster(lines) then NotMaster
    else if VariantUris(lines) == [] then NoVariants
    else match resolve(VariantUris(lines)[0])
         case None => BadUri
         case Some(url) => if url == own then ResolvesToItself else Next(url)
  }

  /** Where the first variant URI does not parse, the writer goes on to the next one that does. */
  lemma {:induction false} WriterSkipsBadUris(resolve: Resolver, uris: seq<string>, i: nat)
    requires i < |uris| && resolve(uris[i]).Some? && forall j :: 0 <= j < i ==> resolve(uris[j]) == None
    ensures Resolved(resolve, uris) != [] && Resolved(resolve, uris)[0] == resolve(uris[i]).value
  {
    if i > 0 {
      WriterSkipsBadUris(resolve, uris[1..], i - 1);
    }
  }

  lemma {:induction false} NoneResolved(resolve: Resolver, uris: seq<string>)
    requires forall uri :: uri in uris ==> resolve(uri) == None
    ensures Resolved(resolve, uris) == []
  {
    if uris != [] {
      assert forall uri :: uri in uris[1..] ==> uri in uris;
      NoneResolved(resolve, uris[1..]);
    }
  }

  /** The two readers always agree on whether a playlist is a master playlist. They agree on what to do next, the
      refusals included, if and only if there is no variant URI or the first one parses; otherwise the passthrough
      gives up and the writer goes on to the first variant URI that parses. */
  lemma ReadersAgreeIffFirstVariantParses(lines: seq<string>, resolve: Resolver, own: string, m: Metadata)
    requires Describes(m, lines, resolve)
    ensures WriterFollows(m, own).NotMaster? <==> PassthroughFollows(lines, resolve, own).NotMaster?
    ensures WriterFollows(m, own) == PassthroughFollows(lines, resolve, own) <==>
            VariantUris(lines) == [] || resolve(VariantUris(lines)[0]).Some?
    ensures IsMaster(lines) && (forall uri :: uri in VariantUris(lines) ==> resolve(uri) == None) ==> WriterFollows(m, own) == NoVariants
    ensures forall i :: FirstParsing(resolve, VariantUris(lines), i) ==>
              WriterFollows(m, own) == var url := resolve(VariantUris(lines)[i]).value;
                                       if url == own then ResolvesToItself else Next(url)
  {
    if forall uri :: uri in VariantUris(lines) ==> resolve(uri) == None {
      NoneResolved(resolve, VariantUris(lines));
    }
    forall i | FirstParsing(resolve, VariantUris(lines), i)
      ensures Resolved(resolve, VariantUris(lines)) != []
      ensures Resolved(resolve, VariantUris(lines))[0] == resolve(VariantUris(lines)[i]).value
    {
      WriterSkipsBadUris(resolve, VariantUris(lines), i);
    }
  }

  /** URI number i is the first one that parses. */
  ghost predicate FirstParsing(resolve: Resolver, uris: seq<string>, i: int) {
    0 <= i < |uris| && resolve(uris[i]).Some? && forall j :: 0 <= j < i ==> resolve(uris[j]) == None
  }

  /** Where the first variant URI does not parse and the second one does, the readers part. */
  lemma BadFirstVariantParts(header: string, a: string, b: string, resolve: Resolver, m: Metadata, own: string)
    requires Trimmed(header) && Trimmed(a) && Trimmed(b) && IsStreamInf(header) && IsUri(a) && IsUri(b)
    requires resolve(a) == None && resolve(b).Some? && resolve(b).value != own && Describes(m, [header, a, b], resolve)
    ensures PassthroughFollows([header, a, b], resolve, own) == BadUri
    ensures WriterFollows(m, own) == Next(resolve(b).value)
  {
    TwoVariants(header, a, b);
    assert FirstParsing(resolve, [a, b], 1);
    ReadersAgreeIffFirstVariantParses([header, a, b], resolve, own, m);
  }

  lemma TwoVariants(header: string, a: string, b: string)
    requires Trimmed(header) && Trimmed(a) && Trimmed(b) && IsStreamInf(header) && IsUri(a) && IsUri(b)
    ensures IsMaster([header, a, b]) && VariantUris([header, a, b]) == [a, b]
  {
    TrimIsTrimmed(header);
    TrimIsTrimmed(a);
    TrimIsTrimmed(b);
    assert [header, a, b][1..] == [a, b] && [a, b][1..] == [b] && [b][1..] == [];
    assert Uris([b]) == [b];
  }
}
