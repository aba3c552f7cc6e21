/** Printing streams as an M3U playlist and reading them back (sourceproc/parser.go, the line scanner of
    sourceproc/processor.go and scanAndStream of sourceproc/downloader.go). */
module M3uEntries {
  import opened BufferPools
  import opened Text
  import opened Streams
  import MergeRules

  /** Unicode and the merge rules; what TvgLogoParser makes of a logo; the automatic icon for a title and an id, "" if
      there is none; what a URL is resolved to, which for a remote source is the URL itself; the URL under which the
      proxy serves a stream; and whether it hands out the URL of the source instead. */
  datatype Env = Env(
    unicode: MergeRules.Unicode, rules: MergeRules.Rules,
    logo: string -> string, icon: (string, string) -> string, locate: string -> string,
    generated: Stream -> string, direct: bool)

  // Attributes: key="value"

  datatype Attr = Attr(key: string, value: string)

  function Show(a: Attr): string { a.key + "=\"" + a.value + "\"" }

  predicate IsKeyChar(c: char) { 'a' <= c <= 'z' || 'A' <= c <= 'Z' || '0' <= c <= '9' || c == '_' || c == '-' }

  predicate IsAttr(a: Attr) { a.key != "" && (forall c :: c in a.key ==> IsKeyChar(c)) && '"' !in a.value }

  /** The length of the leading run of key characters. */
  function KeyRun(s: string): (n: nat)
    ensures n <= |s| && (forall i :: 0 <= i < n ==> IsKeyChar(s[i])) && (n < |s| ==> !IsKeyChar(s[n]))
  {
    if s == "" || !IsKeyChar(s[0]) then 0 else 1 + KeyRun(s[1..])
  }

  /** The match of the attribute pattern at the start of the text. */
  function AttrAt(s: string): (r: Option<Attr>)
    ensures r.Some? ==> IsAttr(r.value) && |Show(r.value)| <= |s|
  {
    var k := KeyRun(s);
    if k == 0 || k + 2 > |s| || s[k..k + 2] != "=\"" then None
    else
      var q := Find(s[k + 2..], '"');
      if k + 2 + q == |s| then None else Some(Attr(s[..k], s[k + 2..k + 2 + q]))
  }

  lemma AttrAtIsPrefix(s: string)
    ensures AttrAt(s).Some? ==> Show(AttrAt(s).value) <= s
  {
    var k := KeyRun(s);
    if AttrAt(s).Some? {
      var a := AttrAt(s).value;
      assert s == s[..k] + s[k..k + 2] + s[k + 2..];
      assert s[k + 2..] == a.value + ['"'] + s[k + 2..][|a.value| + 1..];
    }
  }

  /** FindAllStringSubmatch of the attribute pattern. */
  function Attributes(s: string): seq<Attr>
    decreases |s|
  {
    if s == "" then []
    else
      match AttrAt(s)
      case Some(a) => [a] + Attributes(s[|Show(a)|..])
      case None => Attributes(s[1..])
  }

  /** A text has at most one match at its start. */
  lemma AttrAtFindsIt(a: Attr, rest: string)
    requires IsAttr(a)
    ensures AttrAt(Show(a) + rest) == Some(a)
  {
    var s, k := Show(a) + rest, |a.key|;
    ShowSplits(a, rest);
    RunOfKey(a.key, s[k..]);
    ValueAt(s, k, a.value, rest);
  }

  lemma ShowSplits(a: Attr, rest: string)
    ensures var s, k := Show(a) + rest, |a.key|;
            && s == a.key + s[k..] && s[..k] == a.key && s[k..k + 2] == "=\"" && s[k] == '='
            && s[k + 2..] == a.value + "\"" + rest
  {
  }

  lemma RunOfKey(key: string, rest: string)
    requires (forall c :: c in key ==> IsKeyChar(c)) && (rest == "" || !IsKeyChar(rest[0]))
    ensures KeyRun(key + rest) == |key|
  {
    var s := key + rest;
    assert forall i :: 0 <= i < |key| ==> s[i] == key[i] && key[i] in key;
    assert rest != "" ==> s[|key|] == rest[0];
  }

  lemma ValueAt(s: string, k: nat, value: string, rest: string)
    requires k + 2 <= |s| && s[k + 2..] == value + "\"" + rest && '"' !in value
    ensures Find(s[k + 2..], '"') == |value| && k + 2 + |value| < |s| && s[k + 2..k + 2 + |value|] == value
  {
    FindIn(value, '"', rest);
    assert s[k + 2..k + 2 + |value|] == s[k + 2..][..|value|];
  }

  lemma {:induction false} NoQuoteNoAttribute(s: string)
    requires '"' !in s
    ensures Attributes(s) == []
  {
    if s != "" {
      NoQuoteNoAttribute(s[1..]);
      var k := KeyRun(s);
      assert k + 2 <= |s| ==> s[k..k + 2][1] == s[k + 1] && s[k + 1] in s;
    }
  }

  lemma NoAttributeAcross(p: string, rest: string)
    requires '"' !in p && p != "" && p[|p| - 1] == ' '
    ensures AttrAt(p + rest) == None
  {
    var s := p + rest;
    var k := KeyRun(s);
    assert s[|p| - 1] == ' ' && k < |p|;
    assert k + 1 < |p| ==> s[k + 1] == p[k + 1] && p[k + 1] in p;
    assert k + 2 <= |s| ==> s[k..k + 2] == [s[k], s[k + 1]];
  }

  lemma {:induction false} SkipToAttribute(p: string, rest: string)
    requires '"' !in p && (p == "" || p[|p| - 1] == ' ')
    ensures Attributes(p + rest) == Attributes(rest)
  {
    if p == "" {
      assert p + rest == rest;
    } else {
      NoAttributeAcross(p, rest);
      AfterFirst(p, rest);
      SkipToAttribute(p[1..], rest);
    }
  }

  lemma AfterFirst(p: string, rest: string)
    requires p != ""
    ensures (p + rest)[1..] == p[1..] + rest
  {
  }

  // Stripping the attributes off a line

  function Index(s: string, m: string): (r: Option<nat>)
    ensures r.Some? ==> r.value + |m| <= |s|
  {
    if m <= s then Some(0)
    else if s == "" then None
    else
      match Index(s[1..], m)
      case Some(i) => Some(i + 1)
      case None => None
  }

  /** strings.Replace(s, m, "", 1) */
  function Without(s: string, m: string): string {
    match Index(s, m)
    case Some(i) => s[..i] + s[i + |m|..]
    case None => s
  }

  function Stripped(line: string, attrs: seq<Attr>): string {
    if attrs == [] then line else Without(Stripped(line, attrs[..|attrs| - 1]), Show(attrs[|attrs| - 1]))
  }

  lemma {:induction false} FirstIndex(p: string, a: Attr, rest: string)
    requires '"' !in p && IsAttr(a)
    ensures Index(p + Show(a) + rest, Show(a)) == Some(|p|)
  {
    var s := p + Show(a) + rest;
    if p == "" {
      assert s == Show(a) + rest;
    } else {
      FirstIndex(p[1..], a, rest);
      assert s[1..] == p[1..] + Show(a) + rest;
      assert !(Show(a) <= s) by {
        var k := |a.key| + 1;
        assert Show(a)[k] == '"';
        if k < |p| {
          assert s[k] == p[k] && p[k] in p;
        } else {
          assert s[k] == Show(a)[k - |p|] && k - |p| < k;
          assert k - |p| < |a.key| ==> Show(a)[k - |p|] == a.key[k - |p|] && a.key[k - |p|] in a.key;
        }
      }
    }
  }

  lemma WithoutFirst(p: string, a: Attr, rest: string)
    requires '"' !in p && IsAttr(a)
    ensures Without(p + Show(a) + rest, Show(a)) == p + rest
  {
    FirstIndex(p, a, rest);
    var s := p + Show(a) + rest;
    assert s[..|p|] == p && s[|p| + |Show(a)|..] == rest;
  }

  // Reading

  /** utils.GeneralParser: quotes at both ends are trimmed. */
  function GeneralParser(value: string): string {
    if value != "" && value[0] == '"' && value[|value| - 1] == '"' then QuotesOffRight(QuotesOffLeft(value)) else value
  }

  function QuotesOffLeft(s: string): string { if s != "" && s[0] == '"' then QuotesOffLeft(s[1..]) else s }

  function QuotesOffRight(s: string): string {
    if s != "" && s[|s| - 1] == '"' then QuotesOffRight(s[..|s| - 1]) else s
  }

  /** strings.ToLower on key characters */
  function Lower(key: string): string {
    seq(|key|, i requires 0 <= i < |key| => if 'A' <= key[i] <= 'Z' then key[i] + 32 as char else key[i])
  }

  /** The fields of a stream that attributes give. */
  datatype Field = Name | Id | Number | Logo | GroupTitle | Kind

  /** The field that a key gives. */
  function Reads(key: string): Option<Field> {
    match Lower(TrimSpace(key))
    case "tvg-id" => Some(Id)
    case "tvg-chno" | "channel-id" | "channel-number" => Some(Number)
    case "tvg-name" => Some(Name)
    case "tvg-type" => Some(Kind)
    case "tvg-group" | "group-title" => Some(GroupTitle)
    case "tvg-logo" => Some(Logo)
    case _ => None
  }

  /** The value of the last of the attributes that gives the field, if one does. */
  function Last(attrs: seq<Attr>, f: Field): Option<string> {
    if attrs == [] then None
    else if Reads(attrs[|attrs| - 1].key) == Some(f) then Some(GeneralParser(TrimSpace(attrs[|attrs| - 1].value)))
    else Last(attrs[..|attrs| - 1], f)
  }

  lemma {:induction false} LastIs(attrs: seq<Attr>, f: Field, i: nat)
    requires i < |attrs| && Reads(attrs[i].key) == Some(f) && forall j :: i < j < |attrs| ==> Reads(attrs[j].key) != Some(f)
    ensures Last(attrs, f) == Some(GeneralParser(TrimSpace(attrs[i].value)))
  {
    if i < |attrs| - 1 {
      LastIs(attrs[..|attrs| - 1], f, i);
    }
  }

  /** Quotes are cut off when they are at both ends. */
  lemma GeneralParserIs(v: string)
    requires v == "" || (v[0] != '"' && v[|v| - 1] != '"')
    ensures GeneralParser(v) == v && GeneralParser(['"'] + v + ['"']) == v
  {
    var quoted, half := ['"'] + v + ['"'], v + ['"'];
    assert quoted[1..] == half && half[..|v|] == v && quoted[|quoted| - 1] == '"';
    assert QuotesOffRight(v) == v && QuotesOffLeft(quoted) == QuotesOffLeft(half);
    if v == "" {
      assert half[1..] == v;
      assert QuotesOffLeft(half) == v;
    } else {
      assert QuotesOffLeft(half) == half;
      assert QuotesOffRight(half) == QuotesOffRight(v);
    }
  }

  function LastOr(attrs: seq<Attr>, f: Field): string {
    match Last(attrs, f)
    case Some(v) => v
    case None => ""
  }

  function LogoOf(env: Env, attrs: seq<Attr>): string {
    match Last(attrs, Logo)
    case Some(v) => env.logo(v)
    case None => ""
  }

  /** The title of a line: what follows the first comma outside attributes, or else the name attribute. */
  function TitleOf(line: string): string {
    var rest := Stripped(line, Attributes(line));
    var c := Find(rest, ',');
    if c < |rest| then GeneralParser(TrimSpace(rest[c + 1..])) else LastOr(Attributes(line), Name)
  }

  function Named(env: Env, title: string): string {
    if MergeRules.Apply(env.unicode, env.rules, title) == "" then "Unknown Channel"
    else MergeRules.Apply(env.unicode, env.rules, title)
  }

  /** maybeApplyAutoChannelIcon */
  function WithIcon(env: Env, s: Stream): Stream {
    if TrimSpace(s.logoURL) != "" || env.icon(s.title, s.tvgID) == "" then s
    else s.(logoURL := env.logo(env.icon(s.title, s.tvgID)), autoLogoURL := true)
  }

  /** indexStreamURL, without the files it writes. */
  function Indexed(s: Stream, index: string, lineNum: int, url: string): Stream {
    s.(sourceM3U := index, sourceIndex := lineNum, sourceURL := TrimSpace(url), epgMeta := RecordMeta(s.epgMeta, index, s.tvgID))
  }

  const NO_STREAM := Stream("", "", "", "", "", false, "", "", 0, "", map[], "", "")

  /** What attributes say of a stream. */
  function Fields(env: Env, attrs: seq<Attr>): Stream {
    NO_STREAM.(title := LastOr(attrs, Name), tvgID := LastOr(attrs, Id), tvgChNo := LastOr(attrs, Number),
               tvgType := LastOr(attrs, Kind), group := LastOr(attrs, GroupTitle), logoURL := LogoOf(env, attrs))
  }

  /** What a line and the line after it say of a stream. */
  function Parsed(env: Env, line: string, next: string, lineNum: int, index: string): Stream {
    var s := Fields(env, Attributes(line)).(title := Named(env, TitleOf(line)));
    Indexed(WithIcon(env, s), index, lineNum, env.locate(TrimSpace(next)))
  }

  /** The switch of parseLine. */
  method ReadAttribute(env: Env, s: Stream, a: Attr, ghost attrs: seq<Attr>) returns (t: Stream)
    requires s == Fields(env, attrs)
    ensures t == Fields(env, attrs + [a])
  {
    assert (attrs + [a])[..|attrs|] == attrs;
    var value := TrimSpace(a.value);
    match Lower(TrimSpace(a.key)) {
      case "tvg-id" => t := s.(tvgID := GeneralParser(value));
      case "tvg-chno" | "channel-id" | "channel-number" => t := s.(tvgChNo := GeneralParser(value));
      case "tvg-name" => t := s.(title := GeneralParser(value));
      case "tvg-type" => t := s.(tvgType := GeneralParser(value));
      case "tvg-group" | "group-title" => t := s.(group := GeneralParser(value));
      case "tvg-logo" => t := s.(logoURL := env.logo(GeneralParser(value)));
      case _ => t := s;
    }
  }

  /** The loop of parseLine. */
  method ReadAttributes(env: Env, line: string) returns (s: Stream, lineWithoutPairs: string)
    ensures s == Fields(env, Attributes(line)) && lineWithoutPairs == Stripped(line, Attributes(line))
  {
    s, lineWithoutPairs := NO_STREAM, line;
    var matches := Attributes(line);
    for i := 0 to |matches|
      invariant lineWithoutPairs == Stripped(line, matches[..i]) && s == Fields(env, matches[..i])
    {
      assert matches[..i + 1] == matches[..i] + [matches[i]] && matches[..i + 1][..i] == matches[..i];
      s := ReadAttribute(env, s, matches[i], matches[..i]);
      lineWithoutPairs := Without(lineWithoutPairs, Show(matches[i]));
    }
    assert matches[..|matches|] == matches;
  }

  /** What the attributes of a line make of its stream: their last values; an icon in place of a blank logo, if there is one;
      and the id recorded for the source. */
  predicate IsTagged(env: Env, s: Stream, attrs: seq<Attr>, index: string) {
    && s.tvgID == LastOr(attrs, Id) && s.tvgChNo == LastOr(attrs, Number)
    && s.tvgType == LastOr(attrs, Kind) && s.group == LastOr(attrs, GroupTitle)
    && s.autoLogoURL == (TrimSpace(LogoOf(env, attrs)) == "" && env.icon(s.title, s.tvgID) != "")
    && s.logoURL == (if s.autoLogoURL then env.logo(env.icon(s.title, s.tvgID)) else LogoOf(env, attrs))
    && s.epgMeta == (if TrimSpace(index) == "" || TrimSpace(s.tvgID) == "" then map[] else map[TrimSpace(index) := TrimSpace(s.tvgID)])
  }

  lemma ParsedIs(env: Env, line: string, next: string, lineNum: int, index: string)
    ensures var s := Parsed(env, line, next, lineNum, index);
            s.title != "" && s.sourceM3U == index && s.sourceIndex == lineNum && IsTagged(env, s, Attributes(line), index)
  {
    var t := Fields(env, Attributes(line)).(title := Named(env, TitleOf(line)));
    IndexedIs(WithIcon(env, t), index, lineNum, env.locate(TrimSpace(next)));
  }

  lemma IndexedIs(s: Stream, index: string, lineNum: int, url: string)
    requires s.epgMeta == map[]
    ensures var t := Indexed(s, index, lineNum, url);
            && t == s.(sourceM3U := t.sourceM3U, sourceIndex := t.sourceIndex, sourceURL := t.sourceURL, epgMeta := t.epgMeta)
            && t.sourceM3U == index && t.sourceIndex == lineNum
            && t.epgMeta == if TrimSpace(index) == "" || TrimSpace(s.tvgID) == "" then map[] else map[TrimSpace(index) := TrimSpace(s.tvgID)]
  {
  }

  /** parseLine */
  method ParseLine(env: Env, line: string, next: string, lineNum: int, index: string) returns (s: Stream)
    ensures s == Parsed(env, line, next, lineNum, index)
    ensures s.title != "" && s.sourceM3U == index && s.sourceIndex == lineNum
    ensures IsTagged(env, s, Attributes(line), index)
  {
    var cleanUrl := env.locate(TrimSpace(next));
    var lineWithoutPairs: string;
    s, lineWithoutPairs := ReadAttributes(env, line);
    var title := s.title;
    var comma := Find(lineWithoutPairs, ',');
    if comma < |lineWithoutPairs| {
      title := GeneralParser(TrimSpace(lineWithoutPairs[comma + 1..]));
    }
    title := MergeRules.ApplyChannelMergeRule(env.unicode, env.rules, title);
    if title == "" {
      title := "Unknown Channel";
    }
    s := s.(title := title);
    assert s == Fields(env, Attributes(line)).(title := Named(env, TitleOf(line)));
    s := Indexed(WithIcon(env, s), index, lineNum, cleanUrl);
    ParsedIs(env, line, next, lineNum, index);
  }

  predicate Announces(line: string) { "#EXTINF:" <= line || "#EXT-X-STREAM-INF:" <= line }

  /** What the scanner makes of lines, the first of which has number n, after an announcement. */
  function Scanned(env: Env, index: string, lines: seq<string>, n: int, current: string): seq<Stream> {
    if lines == [] then []
    else
      var line := TrimSpace(lines[0]);
      if Announces(line) then Scanned(env, index, lines[1..], n + 1, line)
      else if current != "" && !("#" <= line) then
        [Parsed(env, current, lines[0], n, index)] + Scanned(env, index, lines[1..], n + 1, "")
      else Scanned(env, index, lines[1..], n + 1, current)
  }

  predicate IsComment(line: string) { !Announces(TrimSpace(line)) && "#" <= TrimSpace(line) }

  /** The announcement before a line: the last one, if only comments came after it; "" if there is none. */
  function Pending(lines: seq<string>): string {
    if lines == [] then ""
    else
      var last := lines[|lines| - 1];
      if Announces(TrimSpace(last)) then TrimSpace(last) else if IsComment(last) then Pending(lines[..|lines| - 1]) else ""
  }

  lemma {:induction false} PendingIs(lines: seq<string>)
    ensures Pending(lines) != "" <==> exists i :: AnnouncesLast(lines, i)
    ensures forall i :: AnnouncesLast(lines, i) ==> Pending(lines) == TrimSpace(lines[i])
  {
    if lines != [] {
      var front := lines[..|lines| - 1];
      PendingIs(front);
      assert forall i :: 0 <= i < |front| ==> front[i] == lines[i];
      forall i | 0 <= i < |lines|
        ensures AnnouncesLast(lines, i) <==>
                if i == |front| then Announces(TrimSpace(lines[i])) else IsComment(lines[|front|]) && AnnouncesLast(front, i)
      {
      }
      if Announces(TrimSpace(lines[|front|])) {
        assert AnnouncesLast(lines, |front|);
      }
      if i :| AnnouncesLast(front, i) {
        assert IsComment(lines[|front|]) ==> AnnouncesLast(lines, i);
      }
    }
  }

  predicate AnnouncesLast(lines: seq<string>, i: int) {
    0 <= i < |lines| && Announces(TrimSpace(lines[i])) && forall j :: i < j < |lines| ==> IsComment(lines[j])
  }

  /** The streams of all lines that are neither announcements nor comments and have an announcement before them. */
  function Announced(env: Env, index: string, lines: seq<string>): seq<Stream> {
    if lines == [] then []
    else
      var front, n := lines[..|lines| - 1], |lines| - 1;
      Announced(env, index, front) + Emitted(env, index, Pending(front), lines[n], n)
  }

  /** The stream of line number n, if it is one. */
  function Emitted(env: Env, index: string, pending: string, line: string, n: int): seq<Stream> {
    if !Announces(TrimSpace(line)) && !IsComment(line) && pending != "" then [Parsed(env, pending, line, n, index)] else []
  }

  function NextPending(pending: string, line: string): string {
    if Announces(TrimSpace(line)) then TrimSpace(line) else if IsComment(line) then pending else ""
  }

  lemma ScannedStep(env: Env, index: string, lines: seq<string>, n: int, current: string)
    requires lines != []
    ensures Scanned(env, index, lines, n, current) ==
            Emitted(env, index, current, lines[0], n) + Scanned(env, index, lines[1..], n + 1, NextPending(current, lines[0]))
  {
  }

  lemma UpTo<T>(xs: seq<T>, i: nat)
    requires i < |xs|
    ensures xs[..i] + [xs[i]] == xs[..i + 1] && xs[i..][1..] == xs[i + 1..] && xs[i..][0] == xs[i]
  {
  }

  lemma AnnouncedStep(env: Env, index: string, lines: seq<string>, line: string)
    ensures Announced(env, index, lines + [line]) ==
            Announced(env, index, lines) + Emitted(env, index, Pending(lines), line, |lines|)
    ensures Pending(lines + [line]) == NextPending(Pending(lines), line)
  {
    assert (lines + [line])[..|lines|] == lines;
  }

  /** `streams` is what the scanner has made of the first i lines, and `current` is the announcement that it remembers. */
  ghost predicate AtLine(env: Env, index: string, lines: seq<string>, i: nat, streams: seq<Stream>, current: string) {
    && i <= |lines|
    && streams == Announced(env, index, lines[..i]) && current == Pending(lines[..i])
    && streams + Scanned(env, index, lines[i..], i, current) == Scanned(env, index, lines, 0, "")
  }

  lemma FirstLine(env: Env, index: string, lines: seq<string>)
    ensures AtLine(env, index, lines, 0, [], "")
  {
    assert lines[0..] == lines && lines[..0] == [];
  }

  lemma AfterLastLine(env: Env, index: string, lines: seq<string>, streams: seq<Stream>, current: string)
    requires AtLine(env, index, lines, |lines|, streams, current)
    ensures streams == Scanned(env, index, lines, 0, "") == Announced(env, index, lines)
  {
    assert lines[..|lines|] == lines;
  }

  lemma NextLine(env: Env, index: string, lines: seq<string>, i: nat, streams: seq<Stream>, current: string)
    requires i < |lines| && AtLine(env, index, lines, i, streams, current)
    ensures AtLine(env, index, lines, i + 1, streams + Emitted(env, index, current, lines[i], i), NextPending(current, lines[i]))
  {
    UpTo(lines, i);
    AnnouncedStep(env, index, lines[..i], lines[i]);
    ScannedStep(env, index, lines[i..], i, current);
    Regroup(streams, Emitted(env, index, current, lines[i], i),
            Scanned(env, index, lines[i + 1..], i + 1, NextPending(current, lines[i])));
  }

  lemma Regroup<T>(a: seq<T>, b: seq<T>, c: seq<T>)
    ensures a + (b + c) == a + b + c
  {
  }

  /** One line of the scanner. */
  method ScanLine(env: Env, index: string, raw: string, n: int, currentLine: string)
    returns (streams: seq<Stream>, current: string)
    ensures streams == Emitted(env, index, currentLine, raw, n) && current == NextPending(currentLine, raw)
  {
    streams, current := [], currentLine;
    var line := TrimSpace(raw);
    if Announces(line) {
      current := line;
    } else if currentLine != "" && !("#" <= line) {
      var stream := ParseLine(env, currentLine, raw, n, index);
      streams, current := [stream], "";
    }
  }

  /** handleDownloaded, for a source that is not a discovered one and without filters. */
  method HandleDownloaded(env: Env, index: string, lines: seq<string>) returns (streams: seq<Stream>)
    ensures streams == Scanned(env, index, lines, 0, "") == Announced(env, index, lines)
  {
    var currentLine := "";
    streams := [];
    FirstLine(env, index, lines);
    for i := 0 to |lines|
      invariant AtLine(env, index, lines, i, streams, currentLine)
    {
      NextLine(env, index, lines, i, streams, currentLine);
      var more: seq<Stream>;
      more, currentLine := ScanLine(env, index, lines[i], i, currentLine);
      streams := streams + more;
    }
    AfterLastLine(env, index, lines, streams, currentLine);
  }

  // Printing

  /** One more attribute, unless it is empty. */
  function Plus(attrs: seq<Attr>, key: string, value: string): seq<Attr> {
    if value == "" then attrs else attrs + [Attr(key, value)]
  }

  /** The title that is printed. */
  function Displayed(s: Stream): string { if TrimSpace(s.displayTitle) == "" then s.title else TrimSpace(s.displayTitle) }

  function FirstTags(s: Stream): seq<Attr> {
    Plus(Plus(Plus([], "tvg-id", s.tvgID), "tvg-chno", s.tvgChNo), "tvg-logo", s.logoURL)
  }

  function Tags(s: Stream): seq<Attr> {
    Plus(Plus(Plus(Plus(FirstTags(s), "tvg-group", s.group), "group-title", s.group), "tvg-type", s.tvgType), "tvg-name", Displayed(s))
  }

  function Spaced(attrs: seq<Attr>): string { if attrs == [] then "" else " " + Show(attrs[0]) + Spaced(attrs[1..]) }

  function Line(attrs: seq<Attr>, title: string): string { "#EXTINF:-1" + Spaced(attrs) + ("," + title) }

  function InfoLine(s: Stream): string { Line(Tags(s), Displayed(s)) }

  function Url(env: Env, s: Stream): string {
    if env.direct && TrimSpace(s.sourceURL) != "" then TrimSpace(s.sourceURL) else env.generated(s)
  }

  /** formatStreamEntry, without grouping by source. */
  function FormatStreamEntry(env: Env, s: Stream): string { InfoLine(s) + "\n" + Url(env, s) + "\n" }

  function Printed(env: Env, ss: seq<Stream>): string {
    if ss == [] then "" else FormatStreamEntry(env, ss[0]) + Printed(env, ss[1..])
  }

  /** scanAndStream: bufio.ScanLines drops a carriage return before the line break. */
  function ScanLines(text: string): seq<string> {
    if text == "" then []
    else
      var n := Find(text, '\n');
      if n == |text| then [DropReturn(text)] else [DropReturn(text[..n])] + ScanLines(text[n + 1..])
  }

  function DropReturn(line: string): string {
    if line != "" && line[|line| - 1] == '\r' then line[..|line| - 1] else line
  }

  // What is printed comes back

  /** A value that can stand in a playlist: trimmed, on one line, and without quotes. */
  predicate Plain(v: string) { Trimmed(v) && '"' !in v && '\n' !in v }

  predicate Printable(env: Env, s: Stream) {
    && Plain(s.tvgID) && Plain(s.tvgChNo) && Plain(s.logoURL) && Plain(s.group) && Plain(s.tvgType) && Plain(Displayed(s))
    && Trimmed(Url(env, s)) && '\n' !in Url(env, s)
  }

  lemma AttributeAfter(q: string, a: Attr, rest: string)
    requires '"' !in q && q != "" && q[|q| - 1] == ' ' && IsAttr(a)
    ensures Attributes(q + (Show(a) + rest)) == [a] + Attributes(rest)
  {
    SkipToAttribute(q, Show(a) + rest);
    AttrAtFindsIt(a, rest);
    assert (Show(a) + rest)[|Show(a)|..] == rest;
  }

  lemma Regrouped(p: string, a: string, b: string, c: string)
    ensures p + (" " + a + b) + c == (p + " ") + (a + (b + c))
    ensures p + (" " + a + b) + c == (p + " ") + a + (b + c)
  {
  }

  lemma NextTag(p: string, attrs: seq<Attr>, rest: string)
    requires attrs != []
    ensures p + Spaced(attrs) + rest == (p + " ") + (Show(attrs[0]) + (Spaced(attrs[1..]) + rest))
    ensures Spaced(attrs) + rest == " " + (Show(attrs[0]) + (Spaced(attrs[1..]) + rest))
  {
    Regrouped(p, Show(attrs[0]), Spaced(attrs[1..]), rest);
    Grouped(" ", Show(attrs[0]), Spaced(attrs[1..]));
    Grouped(" " + Show(attrs[0]), Spaced(attrs[1..]), rest);
    Grouped(" ", Show(attrs[0]), Spaced(attrs[1..]) + rest);
  }

  lemma {:induction false} SpacedAreFound(attrs: seq<Attr>, rest: string)
    requires '"' !in rest && forall a :: a in attrs ==> IsAttr(a)
    ensures Attributes(Spaced(attrs) + rest) == attrs
  {
    if attrs == [] {
      assert Spaced(attrs) + rest == rest;
      NoQuoteNoAttribute(rest);
    } else {
      SpacedAreFound(attrs[1..], rest);
      NextTag("", attrs, rest);
      AttributeAfter(" ", attrs[0], Spaced(attrs[1..]) + rest);
    }
  }

  lemma TagsAreFound(p: string, attrs: seq<Attr>, rest: string)
    requires '"' !in p && '"' !in rest && forall a :: a in attrs ==> IsAttr(a)
    ensures Attributes(p + Spaced(attrs) + rest) == attrs
  {
    if attrs == [] {
      NoQuoteNoAttribute(p + Spaced(attrs) + rest);
    } else {
      SpacedAreFound(attrs[1..], rest);
      NextTag(p, attrs, rest);
      AttributeAfter(p + " ", attrs[0], Spaced(attrs[1..]) + rest);
    }
  }

  function Blanks(n: nat): string { seq(n, i => ' ') }

  lemma OneIsStripped(p: string, n: nat, attrs: seq<Attr>, rest: string)
    requires '"' !in p && attrs != [] && IsAttr(attrs[0])
    ensures Without(p + Blanks(n) + Spaced(attrs) + rest, Show(attrs[0])) == p + Blanks(n + 1) + Spaced(attrs[1..]) + rest
  {
    BlanksGrow(n);
    var q, m, t := p + Blanks(n), Show(attrs[0]), Spaced(attrs[1..]);
    assert p + Blanks(n + 1) == q + " ";
    Regrouped(q, m, t, rest);
    WithoutFirst(q + " ", attrs[0], t + rest) by {
      }
    Grouped(q + " ", t, rest);
  }

  lemma Grouped(a: string, b: string, c: string)
    ensures a + b + c == a + (b + c)
  {
  }

  /** Each attribute leaves the blank before it. */
  lemma {:induction false} TagsAreStripped(p: string, attrs: seq<Attr>, rest: string, n: nat)
    requires '"' !in p && n <= |attrs| && forall a :: a in attrs ==> IsAttr(a)
    ensures Stripped(p + Spaced(attrs) + rest, attrs[..n]) == p + Blanks(n) + Spaced(attrs[n..]) + rest
    decreases n
  {
    if n == 0 {
      assert attrs[0..] == attrs && p + "" == p;
    } else {
      TagsAreStripped(p, attrs, rest, n - 1);
      assert attrs[..n][..n - 1] == attrs[..n - 1] && attrs[n - 1..][1..] == attrs[n..];
      OneIsStripped(p, n - 1, attrs[n - 1..], rest);
    }
  }

  lemma BlanksGrow(n: nat)
    ensures Blanks(n + 1) == Blanks(n) + " "
  {
  }

  lemma PlainIsKept(v: string)
    requires Plain(v)
    ensures TrimSpace(v) == v && GeneralParser(v) == v
  {
    TrimIsTrimmed(v);
    assert v != "" ==> v[0] in v;
  }

  lemma AllStripped(p: string, attrs: seq<Attr>, rest: string)
    requires '"' !in p && forall a :: a in attrs ==> IsAttr(a)
    ensures Stripped(p + Spaced(attrs) + rest, attrs) == p + Blanks(|attrs|) + rest
  {
    TagsAreStripped(p, attrs, rest, |attrs|);
    assert attrs[..|attrs|] == attrs && Spaced(attrs[|attrs|..]) == "";
    EmptyBetween(p + Blanks(|attrs|), rest);
  }

  lemma EmptyBetween(a: string, b: string)
    ensures a + "" + b == a + b
  {
    assert a + "" == a;
  }

  lemma AfterComma(n: nat, title: string)
    ensures var rest := "#EXTINF:-1" + Blanks(n) + ("," + title);
            Find(rest, ',') == 10 + n < |rest| && rest[10 + n + 1..] == title
  {
    BlanksGrow(n);
    var p := "#EXTINF:-1" + Blanks(n);
    FindIn(p, ',', title);
    Grouped(p, ",", title);
  }

  lemma LineIsRead(attrs: seq<Attr>, title: string)
    requires Plain(title) && forall a :: a in attrs ==> IsAttr(a)
    ensures Attributes(Line(attrs, title)) == attrs && TitleOf(Line(attrs, title)) == title
  {
    TagsAreFound("#EXTINF:-1", attrs, "," + title);
    AllStripped("#EXTINF:-1", attrs, "," + title);
    AfterComma(|attrs|, title);
    PlainIsKept(title);
  }

  lemma FirstKeysRead()
    ensures Reads("tvg-id") == Some(Id) && Reads("tvg-chno") == Some(Number) && Reads("tvg-logo") == Some(Logo)
  {
    KeyIsLower("tvg-id");
    KeyIsLower("tvg-chno");
    KeyIsLower("tvg-logo");
  }

  lemma KeysRead()
    ensures Reads("tvg-id") == Some(Id) && Reads("tvg-chno") == Some(Number) && Reads("tvg-logo") == Some(Logo)
    ensures Reads("tvg-group") == Reads("group-title") == Some(GroupTitle)
    ensures Reads("tvg-type") == Some(Kind) && Reads("tvg-name") == Some(Name)
  {
    FirstKeysRead();
    KeyIsLower("tvg-group");
    KeyIsLower("group-title");
    KeyIsLower("tvg-type");
    KeyIsLower("tvg-name");
  }

  /** Other names that are read, in any case of letters. */
  lemma AliasesAreRead(key: string)
    ensures Reads("channel-id") == Reads("channel-number") == Reads("tvg-chno") == Some(Number)
    ensures Lower(TrimSpace(key)) in {"channel-id", "channel-number", "tvg-chno"} <==> Reads(key) == Some(Number)
    ensures Lower(TrimSpace(key)) in {"tvg-group", "group-title"} <==> Reads(key) == Some(GroupTitle)
  {
    KeyIsLower("channel-id");
    KeyIsLower("channel-number");
    KeyIsLower("tvg-chno");
  }

  lemma KeyIsLower(k: string)
    requires k != "" && forall i :: 0 <= i < |k| ==> k[i] == '-' || 'a' <= k[i] <= 'z'
    ensures Lower(TrimSpace(k)) == k
  {
    TrimIsTrimmed(k);
  }

  lemma PlusIsRead(attrs: seq<Attr>, k: string, v: string, f: Field)
    requires Plain(v)
    ensures Last(Plus(attrs, k, v), f) == if v != "" && Reads(k) == Some(f) then Some(v) else Last(attrs, f)
  {
    PlainIsKept(v);
    assert (attrs + [Attr(k, v)])[..|attrs|] == attrs;
  }

  /** Attributes that can be printed on one line. */
  predicate Fit(attrs: seq<Attr>) { forall a :: a in attrs ==> IsAttr(a) && '\n' !in a.value && '\n' !in a.key }

  lemma PlusFits(attrs: seq<Attr>, k: string, v: string)
    requires Fit(attrs) && Plain(v) && k != "" && (forall c :: c in k ==> IsKeyChar(c))
    ensures Fit(Plus(attrs, k, v))
  {
  }

  lemma TagsFit(env: Env, s: Stream)
    requires Printable(env, s)
    ensures Fit(Tags(s))
  {
    var t1 := Plus([], "tvg-id", s.tvgID);
    var t2 := Plus(t1, "tvg-chno", s.tvgChNo);
    var t3 := Plus(t2, "tvg-logo", s.logoURL);
    var t4 := Plus(t3, "tvg-group", s.group);
    var t5 := Plus(t4, "group-title", s.group);
    var t6 := Plus(t5, "tvg-type", s.tvgType);
    PlusFits([], "tvg-id", s.tvgID);
    PlusFits(t1, "tvg-chno", s.tvgChNo);
    PlusFits(t2, "tvg-logo", s.logoURL);
    PlusFits(t3, "tvg-group", s.group);
    PlusFits(t4, "group-title", s.group);
    PlusFits(t5, "tvg-type", s.tvgType);
    PlusFits(t6, "tvg-name", Displayed(s));
  }

  /** What a stream has in a field, if anything. */
  function ValueOf(s: Stream, f: Field): Option<string> {
    var v := match f
             case Name => Displayed(s)
             case Id => s.tvgID
             case Number => s.tvgChNo
             case Logo => s.logoURL
             case GroupTitle => s.group
             case Kind => s.tvgType;
    if v == "" then None else Some(v)
  }

  lemma FirstTagsAreRead(s: Stream, f: Field, id: string, number: string, logo: string)
    requires Plain(s.tvgID) && Plain(s.tvgChNo) && Plain(s.logoURL)
    requires Reads(id) == Some(Id) && Reads(number) == Some(Number) && Reads(logo) == Some(Logo)
    ensures Last(Plus(Plus(Plus([], id, s.tvgID), number, s.tvgChNo), logo, s.logoURL), f) ==
            if f in {Id, Number, Logo} then ValueOf(s, f) else None
  {
    PlusIsRead([], id, s.tvgID, f);
    PlusIsRead(Plus([], id, s.tvgID), number, s.tvgChNo, f);
    PlusIsRead(Plus(Plus([], id, s.tvgID), number, s.tvgChNo), logo, s.logoURL, f);
  }

  lemma MoreTagsAreRead(s: Stream, f: Field, t3: seq<Attr>, group: string, title: string, kind: string, name: string)
    requires Plain(s.group) && Plain(s.tvgType) && Plain(Displayed(s))
    requires Last(t3, f) == if f in {Id, Number, Logo} then ValueOf(s, f) else None
    requires Reads(group) == Reads(title) == Some(GroupTitle) && Reads(kind) == Some(Kind) && Reads(name) == Some(Name)
    ensures Last(Plus(Plus(Plus(Plus(t3, group, s.group), title, s.group), kind, s.tvgType), name, Displayed(s)), f) == ValueOf(s, f)
  {
    var t4 := Plus(t3, group, s.group);
    var t5 := Plus(t4, title, s.group);
    var t6 := Plus(t5, kind, s.tvgType);
    PlusIsRead(t3, group, s.group, f);
    PlusIsRead(t4, title, s.group, f);
    PlusIsRead(t5, kind, s.tvgType, f);
    PlusIsRead(t6, name, Displayed(s), f);
  }

  lemma TagsAreRead(env: Env, s: Stream, f: Field)
    requires Printable(env, s)
    ensures Last(Tags(s), f) == ValueOf(s, f)
  {
    KeysRead();
    FirstTagsAreRead(s, f, "tvg-id", "tvg-chno", "tvg-logo");
    MoreTagsAreRead(s, f, FirstTags(s), "tvg-group", "group-title", "tvg-type", "tvg-name");
  }

  /** What comes back of a stream that was printed, when its URL is read from line n. */
  function Reparsed(env: Env, index: string, n: int, s: Stream): Stream {
    var t := NO_STREAM.(title := Named(env, Displayed(s)), tvgID := s.tvgID, tvgChNo := s.tvgChNo, tvgType := s.tvgType,
                        group := s.group, logoURL := if s.logoURL == "" then "" else env.logo(s.logoURL));
    Indexed(WithIcon(env, t), index, n, env.locate(Url(env, s)))
  }

  lemma EntryIsRead(env: Env, index: string, n: int, s: Stream)
    requires Printable(env, s)
    ensures Parsed(env, InfoLine(s), Url(env, s), n, index) == Reparsed(env, index, n, s)
  {
    TagsFit(env, s);
    LineIsRead(Tags(s), Displayed(s));
    forall f
      ensures Last(Tags(s), f) == ValueOf(s, f)
    {
      TagsAreRead(env, s, f);
    }
    FieldsOfValues(env, s, Tags(s));
    TrimIsTrimmed(Url(env, s));
  }

  lemma FieldsOfValues(env: Env, s: Stream, attrs: seq<Attr>)
    requires forall f :: Last(attrs, f) == ValueOf(s, f)
    ensures Fields(env, attrs) ==
            NO_STREAM.(title := Displayed(s), tvgID := s.tvgID, tvgChNo := s.tvgChNo, tvgType := s.tvgType,
                       group := s.group, logoURL := if s.logoURL == "" then "" else env.logo(s.logoURL))
  {
  }

  lemma OneLine(line: string, rest: string)
    requires '\n' !in line && Trimmed(line)
    ensures ScanLines(line + "\n" + rest) == [line] + ScanLines(rest)
  {
    FindIn(line, '\n', rest);
    var text := line + "\n" + rest;
    assert text[..|line|] == line && text[|line| + 1..] == rest;
  }

  lemma {:induction false} SpacedIsOneLine(attrs: seq<Attr>)
    requires Fit(attrs)
    ensures '\n' !in Spaced(attrs)
  {
    if attrs != [] {
      SpacedIsOneLine(attrs[1..]);
    }
  }

  lemma LineIsOne(attrs: seq<Attr>, title: string)
    requires Fit(attrs) && Plain(title)
    ensures '\n' !in Line(attrs, title) && Trimmed(Line(attrs, title)) && Announces(Line(attrs, title))
  {
    SpacedIsOneLine(attrs);
    var line := Line(attrs, title);
    assert line[..8] == "#EXTINF:" && line[0] == '#';
    assert line[|line| - 1] == if title == "" then ',' else title[|title| - 1];
  }

  lemma EntryIsTwoLines(env: Env, s: Stream, rest: string)
    requires Printable(env, s)
    ensures Trimmed(InfoLine(s)) && Announces(InfoLine(s))
    ensures ScanLines(FormatStreamEntry(env, s) + rest) == [InfoLine(s)] + ([Url(env, s)] + ScanLines(rest))
  {
    TagsFit(env, s);
    LineIsOne(Tags(s), Displayed(s));
    var info, url := InfoLine(s), Url(env, s);
    assert FormatStreamEntry(env, s) + rest == info + "\n" + (url + "\n" + rest);
    OneLine(info, url + "\n" + rest);
    OneLine(url, rest);
  }

  /** What comes back of streams that were printed, from line n on. */
  function Recovered(env: Env, index: string, ss: seq<Stream>, n: int): seq<Stream> {
    if ss == [] then []
    else
      (if "#" <= Url(env, ss[0]) then [] else [Reparsed(env, index, n + 1, ss[0])]) + Recovered(env, index, ss[1..], n + 2)
  }

  lemma {:induction false} PrintedIsScanned(env: Env, index: string, ss: seq<Stream>, n: int, current: string)
    requires forall s :: s in ss ==> Printable(env, s)
    ensures Scanned(env, index, ScanLines(Printed(env, ss)), n, current) == Recovered(env, index, ss, n)
    decreases |ss|
  {
    if ss != [] {
      var s, rest := ss[0], Printed(env, ss[1..]);
      EntryIsTwoLines(env, s, rest);
      TwoLines(env, index, InfoLine(s), Url(env, s), ScanLines(rest), n, current);
      EntryIsRead(env, index, n + 1, s);
      PrintedIsScanned(env, index, ss[1..], n + 2, LeftOver(InfoLine(s), Url(env, s)));
    }
  }

  /** The announcement that is left over after an entry was scanned. */
  function LeftOver(info: string, url: string): string {
    if Announces(url) then url else if "#" <= url then info else ""
  }

  lemma TwoLines(env: Env, index: string, info: string, url: string, lines: seq<string>, n: int, current: string)
    requires Trimmed(info) && Announces(info) && Trimmed(url)
    ensures Scanned(env, index, [info] + ([url] + lines), n, current) ==
            (if "#" <= url then [] else [Parsed(env, info, url, n + 1, index)]) + Scanned(env, index, lines, n + 2, LeftOver(info, url))
  {
    TrimIsTrimmed(info);
    TrimIsTrimmed(url);
    assert ([info] + ([url] + lines))[1..] == [url] + lines;
    assert ([url] + lines)[1..] == lines;
    assert Scanned(env, index, [info] + ([url] + lines), n, current) == Scanned(env, index, [url] + lines, n + 1, info);
    assert Announces(url) ==> "#" <= url;
  }

  /** A playlist that was printed, with any header line, and read back: exactly those streams come back whose URL does
      not look like a comment, in order, with the same ids, numbers, groups and types. */
  lemma RoundTrip(env: Env, index: string, header: string, ss: seq<Stream>)
    requires forall s :: s in ss ==> Printable(env, s)
    requires '\n' !in header && Trimmed(header) && !Announces(header)
    ensures Scanned(env, index, ScanLines(header + "\n" + Printed(env, ss)), 0, "") == Recovered(env, index, ss, 1)
  {
    OneLine(header, Printed(env, ss));
    TrimIsTrimmed(header);
    var lines := [header] + ScanLines(Printed(env, ss));
    assert lines[1..] == ScanLines(Printed(env, ss));
    PrintedIsScanned(env, index, ss, 1, "");
  }

  /** The proxy hands out the URLs of the sources, automatic icons are off, and the stream has what a playlist shows of
      it: a title that the merge rules leave alone, no logo and no second title. */
  predicate Shows(env: Env, s: Stream) {
    && env.direct && env.icon(s.title, s.tvgID) == "" && env.locate(s.sourceURL) == s.sourceURL && s.sourceURL != ""
    && s.title != "" && MergeRules.Apply(env.unicode, env.rules, s.title) == s.title && s.logoURL == "" && s.displayTitle == ""
    && Plain(s.title) && Plain(s.tvgID) && Plain(s.tvgChNo) && Plain(s.group) && Plain(s.tvgType)
    && Trimmed(s.sourceURL) && '\n' !in s.sourceURL
  }

  predicate SameStream(a: Stream, b: Stream) {
    && a.title == b.title && a.tvgID == b.tvgID && a.tvgChNo == b.tvgChNo && a.tvgType == b.tvgType
    && a.group == b.group && a.sourceURL == b.sourceURL && a.logoURL == b.logoURL
  }

  lemma {:induction false} RecoveredSize(env: Env, index: string, ss: seq<Stream>, n: int)
    ensures |Recovered(env, index, ss, n)| <= |ss|
    ensures |Recovered(env, index, ss, n)| == |ss| <==> forall i :: 0 <= i < |ss| ==> !("#" <= Url(env, ss[i]))
  {
    if ss != [] {
      RecoveredSize(env, index, ss[1..], n + 2);
      assert forall i :: 1 <= i < |ss| ==> ss[i] == ss[1..][i - 1];
      assert forall i :: 0 <= i < |ss[1..]| ==> ss[1..][i] == ss[i + 1];
    }
  }

  lemma RecoveredFirst(env: Env, index: string, ss: seq<Stream>, n: int)
    requires ss != [] && !("#" <= Url(env, ss[0])) && Shows(env, ss[0])
    ensures var r := Recovered(env, index, ss, n);
            |r| > 0 && r[1..] == Recovered(env, index, ss[1..], n + 2) && SameStream(r[0], ss[0])
  {
    OneComesBack(env, index, n + 1, ss[0]);
  }

  lemma {:induction false} RecoveredAll(env: Env, index: string, ss: seq<Stream>, n: int, i: nat)
    requires forall s :: s in ss ==> Shows(env, s)
    requires i < |ss| && forall k :: 0 <= k < |ss| ==> !("#" <= Url(env, ss[k]))
    ensures i < |Recovered(env, index, ss, n)| && SameStream(Recovered(env, index, ss, n)[i], ss[i])
    decreases |ss|
  {
    RecoveredFirst(env, index, ss, n);
    if i > 0 {
      RecoveredAll(env, index, ss[1..], n + 2, i - 1);
      assert ss[1..][i - 1] == ss[i];
      assert Recovered(env, index, ss, n)[1..][i - 1] == Recovered(env, index, ss, n)[i];
    }
  }

  /** Such a playlist comes back whole exactly when no URL looks like a comment, and then with the same titles, ids,
      numbers, types, groups and URLs, in order. */
  lemma RoundTripIsWholeIff(env: Env, index: string, ss: seq<Stream>, n: int)
    requires forall s :: s in ss ==> Shows(env, s)
    ensures forall s :: s in ss ==> Printable(env, s)
    ensures |Recovered(env, index, ss, n)| <= |ss|
    ensures |Recovered(env, index, ss, n)| == |ss| <==> forall s :: s in ss ==> !("#" <= s.sourceURL)
    ensures |Recovered(env, index, ss, n)| == |ss| ==>
              forall i :: 0 <= i < |ss| ==> SameStream(Recovered(env, index, ss, n)[i], ss[i])
  {
    forall s | s in ss
      ensures Printable(env, s) && Url(env, s) == s.sourceURL
    {
      OneComesBack(env, index, n, s);
    }
    RecoveredSize(env, index, ss, n);
    forall i | 0 <= i < |ss| && |Recovered(env, index, ss, n)| == |ss|
      ensures SameStream(Recovered(env, index, ss, n)[i], ss[i])
    {
      RecoveredAll(env, index, ss, n, i);
    }
  }

  lemma OneComesBack(env: Env, index: string, n: int, s: Stream)
    requires Shows(env, s)
    ensures Printable(env, s) && Url(env, s) == s.sourceURL && SameStream(Reparsed(env, index, n, s), s)
  {
    TrimIsTrimmed(s.sourceURL);
    TrimIsTrimmed("");
    assert TrimSpace("") == "";
  }

  /** A stream whose URL looks like a comment is lost. */
  lemma CommentUrlIsLost(env: Env, index: string, s: Stream, n: int)
    requires Shows(env, s) && s.sourceURL == "#x"
    ensures Printable(env, s) && Recovered(env, index, [s], n) == []
  {
    OneComesBack(env, index, n, s);
  }
}
