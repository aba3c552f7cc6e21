/** The sorting manager: it collects streams by sanitized title in shards that are buffered in memory and spilled
    to disk, and hands them out sorted (sourceproc/sorting.go). Hashing is the parameter `hash`; URL maps are not
    part of this model; reading and writing shard files succeeds. */
module Sorting {
  import opened BufferPools
  import opened Text
  import opened Shards
  import opened Streams
  import opened Merging
  import Sorts

  predicate IsMark(c: char) { c in {'/', '\\', ':', '*', '?', '"', '<', '>', '|'} }

  /** strings.NewReplacer of sanitizeField, character by character: "" for a blank. */
  function Sanitized(c: char): string {
    if IsMark(c) then "_" else if c == ' ' then "" else [c]
  }

  function Replace(s: string): string { if s == "" then "" else Sanitized(s[0]) + Replace(s[1..]) }

  /** sanitizeField */
  function SanitizeField(lower: char -> char, value: string): string {
    var lowered := ToLower(lower, Replace(TrimSpace(value)));
    if |lowered| > 100 then lowered[..100] else lowered
  }

  /** A sanitized title has no marks and no blanks, and is not long. A title without them, trimmed, is only put into lower
      case and cut; white space around a title makes no difference. */
  lemma SanitizedIs(lower: char -> char, value: string)
    ensures |SanitizeField(lower, value)| <= 100
    ensures forall c :: c in Replace(value) ==> !IsMark(c) && c != ' '
    ensures (forall c :: c in value ==> c != ' ') ==>
              |Replace(value)| == |value| && forall i :: 0 <= i < |value| ==> Replace(value)[i] == if IsMark(value[i]) then '_' else value[i]
    ensures Trimmed(value) && |value| <= 100 && (forall c :: c in value ==> !IsMark(c) && c != ' ') ==>
              SanitizeField(lower, value) == ToLower(lower, value)
    ensures SanitizeField(lower, TrimSpace(value)) == SanitizeField(lower, value)
  {
    ReplacedIs(value);
    MarksAreReplaced(value);
    TrimIsTrimmed(value);
    TrimIsTrimmed(TrimSpace(value));
  }

  lemma {:induction false} MarksAreReplaced(s: string)
    ensures (forall c :: c in s ==> c != ' ') ==>
              |Replace(s)| == |s| && forall i :: 0 <= i < |s| ==> Replace(s)[i] == if IsMark(s[i]) then '_' else s[i]
  {
    if s != "" {
      MarksAreReplaced(s[1..]);
      assert forall c :: c in s[1..] ==> c in s;
      assert s[0] in s;
      assert forall i :: 1 <= i < |s| ==> s[i] == s[1..][i - 1];
      assert Replace(s) == Sanitized(s[0]) + Replace(s[1..]);
    } else {
      assert Replace(s) == "";
    }
  }

  lemma {:induction false} ReplacedIs(s: string)
    ensures forall c :: c in Replace(s) ==> !IsMark(c) && c != ' '
    ensures (forall c :: c in s ==> !IsMark(c) && c != ' ') ==> Replace(s) == s
  {
    if s == "" {
      assert Replace(s) == "";
    } else {
      ReplacedIs(s[1..]);
      assert Replace(s) == Sanitized(s[0]) + Replace(s[1..]);
      assert s == [s[0]] + s[1..];
    }
  }

  function StreamKind(lower: char -> char): Kind<Stream> {
    Kind((s: Stream) => SanitizeField(lower, s.title), STREAM_OPS, Near, LogoSettled, Like)
  }

  lemma StreamsAreLawful(lower: char -> char)
    ensures Lawful(StreamKind(lower))
  {
    forall v: Stream, w: Stream, s: Stream
      ensures Law(StreamKind(lower), v, w, s)
    {
      NearLaw(v, w, s);
      LikeLaw(v, w, s);
    }
  }

  lemma NearLaw(v: Stream, w: Stream, s: Stream)
    ensures Near(v, w) && LogoSettled(w, s) ==> Near(Merge(v, s), Merge(w, s))
  {
    assert Near(v, w) ==> v == w || v == Persist(w);
  }

  lemma LikeLaw(v: Stream, w: Stream, s: Stream)
    ensures Like(v, w) ==> Like(Merge(v, s), Merge(w, s))
  {
  }

  ghost predicate NoAutoIcons(m: map<string, Stream>) { forall t :: t in m ==> !m[t].autoLogoURL }

  lemma FileWithoutAutoIcons(lower: char -> char, m: map<string, Stream>, s: Stream)
    requires NoAutoIcons(m) && !s.autoLogoURL
    ensures Settles(StreamKind(lower), m, s) && NoAutoIcons(File(StreamKind(lower), m, s))
  {
    var t := SanitizeField(lower, s.title);
    assert t in m ==> !Merge(m[t], s).autoLogoURL;
  }

  /** With automatic icons off, no merge replaces an automatic logo. */
  lemma {:induction false} SettledWithoutAutoIcons(lower: char -> char, arrivals: seq<Stream>)
    requires forall s :: s in arrivals ==> !s.autoLogoURL
    ensures Settled(StreamKind(lower), arrivals)
    ensures NoAutoIcons(Fold(StreamKind(lower), arrivals))
  {
    if arrivals != [] {
      SettledWithoutAutoIcons(lower, arrivals[..|arrivals| - 1]);
      FileWithoutAutoIcons(lower, Fold(StreamKind(lower), arrivals[..|arrivals| - 1]), arrivals[|arrivals| - 1]);
    }
  }

  lemma FilesKeepAll(m: map<string, Stream>)
    requires NoAutoIcons(m)
    ensures Kept(STREAM_OPS, m) == m
  {
  }

  /** strings.Compare */
  function Compare(a: string, b: string): int { if Less(a, b) then -1 else if Less(b, a) then 1 else 0 }

  function CompareNumeric(a: string, b: string): int {
    match (Atoi(a), Atoi(b))
    case (Some(x), Some(y)) => if x < y then -1 else if x > y then 1 else 0
    case _ => Compare(a, b)
  }

  predicate IsNumericKey(key: string) { key in {"tvg-chno", "channel-id", "channel-number", "tvg-id", "source"} }

  /** What a sorting key compares of a stream. */
  function SortText(lower: char -> char, key: string, s: Stream): string {
    if key == "tvg-chno" || key == "channel-id" || key == "channel-number" then s.tvgChNo
    else if key == "tvg-id" then s.tvgID
    else if key == "source" then s.sourceM3U
    else if key == "tvg-group" || key == "group-title" then ToLower(lower, s.group)
    else if key == "tvg-type" then ToLower(lower, s.tvgType)
    else ToLower(lower, s.title)
  }

  /** The comparison of GetSortedEntries. */
  function CompareBy(lower: char -> char, key: string, a: Stream, b: Stream): int {
    if IsNumericKey(key) then CompareNumeric(SortText(lower, key, a), SortText(lower, key, b))
    else Compare(SortText(lower, key, a), SortText(lower, key, b))
  }

  function Before(lower: char -> char, key: string, direction: string): (Stream, Stream) -> bool {
    (a: Stream, b: Stream) => if direction == "desc" then CompareBy(lower, key, a, b) > 0 else CompareBy(lower, key, a, b) < 0
  }

  predicate TextsInOrder(direction: string, a: string, b: string) {
    if direction == "desc" then !Less(a, b) else !Less(b, a)
  }

  /** Two numbers by value, anything else as texts. */
  predicate NumbersInOrder(direction: string, a: string, b: string) {
    if Atoi(a).Some? && Atoi(b).Some? then
      if direction == "desc" then Atoi(a).value >= Atoi(b).value else Atoi(a).value <= Atoi(b).value
    else TextsInOrder(direction, a, b)
  }

  /** Stream a may stand before b: by channel number, id or source as numbers; by group, type or title in lower case. */
  predicate InOrder(lower: char -> char, key: string, direction: string, a: Stream, b: Stream) {
    if key in {"tvg-chno", "channel-id", "channel-number"} then NumbersInOrder(direction, a.tvgChNo, b.tvgChNo)
    else if key == "tvg-id" then NumbersInOrder(direction, a.tvgID, b.tvgID)
    else if key == "source" then NumbersInOrder(direction, a.sourceM3U, b.sourceM3U)
    else if key in {"tvg-group", "group-title"} then TextsInOrder(direction, ToLower(lower, a.group), ToLower(lower, b.group))
    else if key == "tvg-type" then TextsInOrder(direction, ToLower(lower, a.tvgType), ToLower(lower, b.tvgType))
    else TextsInOrder(direction, ToLower(lower, a.title), ToLower(lower, b.title))
  }

  lemma CompareMeans(direction: string, a: string, b: string)
    ensures (if direction == "desc" then Compare(b, a) > 0 else Compare(b, a) < 0) <==> !TextsInOrder(direction, a, b)
    ensures (if direction == "desc" then CompareNumeric(b, a) > 0 else CompareNumeric(b, a) < 0) <==> !NumbersInOrder(direction, a, b)
  {
    LessIsStrict(a);
    if Less(a, b) && Less(b, a) {
      LessIsTransitive(a, b, a);
    }
  }

  /** What the comparison puts in order, by every key and in both directions. */
  lemma BeforeMeans(lower: char -> char, key: string, direction: string, a: Stream, b: Stream)
    ensures !Before(lower, key, direction)(b, a) <==> InOrder(lower, key, direction, a, b)
  {
    CompareMeans(direction, SortText(lower, key, a), SortText(lower, key, b));
  }

  lemma CompareIsAnOrder(a: string, b: string, c: string)
    ensures Compare(a, b) < 0 <==> Compare(b, a) > 0
    ensures Compare(a, b) <= 0 && Compare(b, c) <= 0 ==> Compare(a, c) <= 0
    ensures Compare(a, a) == 0
  {
    LessIsStrict(a);
    LessIsTotal(a, b);
    LessIsTotal(b, c);
    LessIsTotal(a, c);
    if Less(a, b) && Less(b, a) {
      LessIsTransitive(a, b, a);
    }
    if Less(c, a) && (a == b || Less(a, b)) && (b == c || Less(b, c)) {
      if Less(a, b) {
        LessIsTransitive(c, a, b);
      }
      if Less(b, c) {
        LessIsTransitive(b, c, a);
        LessIsTransitive(c, a, b);
      }
    }
    LessIsStrict(b);
    LessIsStrict(c);
  }

  /** A text that is no number cuts numbers where it cuts them as texts: what it is less than, it is less than all that
      are no smaller. */
  predicate Cuts(t: string, x: string, y: string) {
    Atoi(t).None? && Atoi(x).Some? && Atoi(y).Some? && Atoi(x).value <= Atoi(y).value && Less(t, x) ==> Less(t, y)
  }

  lemma CompareNumericIsAnOrder(a: string, b: string, c: string)
    requires Cuts(a, b, c) && Cuts(c, a, b) && Cuts(b, c, a)
    ensures CompareNumeric(a, b) < 0 <==> CompareNumeric(b, a) > 0
    ensures CompareNumeric(a, b) <= 0 && CompareNumeric(b, c) <= 0 ==> CompareNumeric(a, c) <= 0
    ensures CompareNumeric(a, a) == 0
  {
    CompareIsAnOrder(a, b, c);
    CompareIsAnOrder(b, c, a);
    CompareIsAnOrder(c, a, b);
    LessIsTotal(a, b);
    LessIsTotal(b, c);
    LessIsTotal(c, a);
  }

  /** By this key every text that is no number cuts the numbers. */
  ghost predicate AllCut(lower: char -> char, key: string, entries: seq<Filed<Stream>>) {
    IsNumericKey(key) ==>
      forall d, e, f :: d in entries && e in entries && f in entries ==>
        Cuts(SortText(lower, key, d.entry), SortText(lower, key, e.entry), SortText(lower, key, f.entry))
  }

  lemma CompareByIsAnOrder(lower: char -> char, key: string, entries: seq<Filed<Stream>>,
                           d: Filed<Stream>, e: Filed<Stream>, f: Filed<Stream>)
    requires AllCut(lower, key, entries) && d in entries && e in entries && f in entries
    ensures CompareBy(lower, key, d.entry, e.entry) < 0 <==> CompareBy(lower, key, e.entry, d.entry) > 0
    ensures CompareBy(lower, key, d.entry, e.entry) <= 0 && CompareBy(lower, key, e.entry, f.entry) <= 0 ==>
              CompareBy(lower, key, d.entry, f.entry) <= 0
    ensures CompareBy(lower, key, d.entry, d.entry) == 0
  {
    var a, b, c := SortText(lower, key, d.entry), SortText(lower, key, e.entry), SortText(lower, key, f.entry);
    if IsNumericKey(key) {
      CompareNumericIsAnOrder(a, b, c);
    } else {
      CompareIsAnOrder(a, b, c);
    }
  }

  lemma CutAreOrdered(lower: char -> char, key: string, direction: string, entries: seq<Filed<Stream>>)
    requires AllCut(lower, key, entries)
    ensures Sorts.StrictWeakOrder(ByEntry(Before(lower, key, direction)), 0, entries)
  {
    forall a, b, c | a in entries && b in entries && c in entries
      ensures var less := ByEntry(Before(lower, key, direction));
              && !less(0, a, a) && (less(0, a, b) ==> !less(0, b, a))
              && (!less(0, a, b) && !less(0, b, c) ==> !less(0, a, c))
    {
      CompareByIsAnOrder(lower, key, entries, a, b, c);
      CompareByIsAnOrder(lower, key, entries, b, a, c);
      CompareByIsAnOrder(lower, key, entries, a, c, b);
      CompareByIsAnOrder(lower, key, entries, c, b, a);
      CompareByIsAnOrder(lower, key, entries, b, c, a);
    }
  }

  lemma OrderCuts(t: string, x: string, y: string)
    requires || (CompareNumeric(t, x) <= 0 && CompareNumeric(x, y) <= 0 ==> CompareNumeric(t, y) <= 0)
             || (CompareNumeric(y, x) >= 0 && CompareNumeric(x, t) >= 0 ==> CompareNumeric(y, t) >= 0)
    ensures Cuts(t, x, y)
  {
    CompareIsAnOrder(t, x, y);
    CompareIsAnOrder(y, t, x);
    LessIsTotal(t, y);
  }

  /** By any key and in either direction, the comparison is a strict weak order of the streams if and only if the texts
      that are no numbers cut the numbers. In particular it is one by every key that compares no numbers. */
  lemma OrderedIffAllCut(lower: char -> char, key: string, direction: string, entries: seq<Filed<Stream>>)
    ensures Sorts.StrictWeakOrder(ByEntry(Before(lower, key, direction)), 0, entries) <==> AllCut(lower, key, entries)
  {
    if AllCut(lower, key, entries) {
      CutAreOrdered(lower, key, direction, entries);
    }
    if Sorts.StrictWeakOrder(ByEntry(Before(lower, key, direction)), 0, entries) && IsNumericKey(key) {
      forall d, e, f | d in entries && e in entries && f in entries
        ensures Cuts(SortText(lower, key, d.entry), SortText(lower, key, e.entry), SortText(lower, key, f.entry))
      {
        OrderedAreCut(lower, key, direction, entries, d, e, f);
      }
    }
  }

  lemma OrderedAreCut(lower: char -> char, key: string, direction: string, entries: seq<Filed<Stream>>,
                      d: Filed<Stream>, e: Filed<Stream>, f: Filed<Stream>)
    requires Sorts.StrictWeakOrder(ByEntry(Before(lower, key, direction)), 0, entries) && IsNumericKey(key)
    requires d in entries && e in entries && f in entries
    ensures Cuts(SortText(lower, key, d.entry), SortText(lower, key, e.entry), SortText(lower, key, f.entry))
  {
    var less := ByEntry(Before(lower, key, direction));
    if direction == "desc" {
      assert !less(0, d, e) && !less(0, e, f) ==> !less(0, d, f);
    } else {
      assert !less(0, f, e) && !less(0, e, d) ==> !less(0, f, d);
    }
    OrderCuts(SortText(lower, key, d.entry), SortText(lower, key, e.entry), SortText(lower, key, f.entry));
  }

  /** The entries are all numbers by the sorting key, or none of them is. */
  predicate Comparable(lower: char -> char, key: string, entries: seq<Filed<Stream>>) {
    IsNumericKey(key) ==>
      forall d, e :: d in entries && e in entries ==>
        (Atoi(SortText(lower, key, d.entry)).Some? <==> Atoi(SortText(lower, key, e.entry)).Some?)
  }

  /** So streams are ordered as long as numbers do not meet other texts. */
  lemma ComparableAreOrdered(lower: char -> char, key: string, direction: string, entries: seq<Filed<Stream>>)
    requires Comparable(lower, key, entries)
    ensures Sorts.StrictWeakOrder(ByEntry(Before(lower, key, direction)), 0, entries)
  {
    OrderedIffAllCut(lower, key, direction, entries);
  }

  /** A cycle: as a number 9 is less than 10, as a text "10" is less than "1a" and that is less than "9". So "1a" does
      not cut the numbers. */
  lemma NumbersAmongTextsAreNoOrder()
    ensures !Cuts("1a", "9", "10")
    ensures CompareNumeric("9", "10") < 0 && CompareNumeric("10", "1a") < 0 && CompareNumeric("1a", "9") < 0
  {
    assert Digits("") == Some(0);
    assert "9"[..0] == "" && "10"[..1] == "1" && "1"[..0] == "";
    assert Digits("9") == Some(9) && Digits("1") == Some(1) && Digits("10") == Some(10);
    assert Digits("1a") == None;
    assert Less("10", "1a") by {
      assert "10"[1..] == "0" && "1a"[1..] == "a";
    }
  }

  /** The title is stored if a stream arrived under it, as what those streams collect; with their logo, if every merge
      settles or no logo was found automatically. */
  ghost predicate StoredAs(xs: seq<Stream>, stored: map<string, Stream>, settled: bool, t: string) {
    && (t in stored <==> xs != [])
    && (t in stored ==> Collects(xs, stored[t]))
    && (t in stored && settled ==> stored[t].logoURL == LogoOf(xs))
    && (t in stored && settled && (forall s :: s in xs ==> !s.autoLogoURL) ==> stored[t].logoURL == First(LOGO, xs))
  }

  /** Every title is stored as what its streams collect in the order of arrival. */
  ghost predicate IsCompilation(lower: char -> char, arrivals: seq<Stream>, stored: map<string, Stream>) {
    forall t {:trigger Those(StreamKind(lower), arrivals, t)} ::
      StoredAs(Those(StreamKind(lower), arrivals, t), stored, Settled(StreamKind(lower), arrivals), t)
  }

  lemma TitleIsStoredAs(k: Kind<Stream>, arrivals: seq<Stream>, stored: map<string, Stream>, t: string)
    requires k.ops == STREAM_OPS && AllLike(k, stored, Fold(k, arrivals)) && k.like == Like
    requires Settled(k, arrivals) ==> stored == Kept(STREAM_OPS, Fold(k, arrivals))
    ensures StoredAs(Those(k, arrivals, t), stored, Settled(k, arrivals), t)
  {
    FoldIs(k, arrivals, t);
    if t in stored {
      var xs := Those(k, arrivals, t);
      MergedFields(xs);
      MergedLogo(xs);
      OwnLogoIsLogo(xs);
      LikeCollects(xs, stored[t], Fold(k, arrivals)[t]);
    }
  }

  lemma CompilationOf(lower: char -> char, arrivals: seq<Stream>, stored: map<string, Stream>)
    requires AllLike(StreamKind(lower), stored, Fold(StreamKind(lower), arrivals))
    requires Settled(StreamKind(lower), arrivals) ==> stored == Kept(STREAM_OPS, Fold(StreamKind(lower), arrivals))
    ensures IsCompilation(lower, arrivals, stored)
  {
    forall t
      ensures StoredAs(Those(StreamKind(lower), arrivals, t), stored, Settled(StreamKind(lower), arrivals), t)
    {
      TitleIsStoredAs(StreamKind(lower), arrivals, stored, t);
    }
  }

  /** A whole compilation: all streams go through the manager. Whatever the hash is and whenever shards spill, each
      title comes out once, as what the streams of that title collect in the order of arrival: the first texts that are not
      empty, the least source, the ids last recorded. */
  method MergeStreams(lower: char -> char, hash: string -> nat, key: string, direction: string, arrivals: seq<Stream>)
    returns (entries: seq<Filed<Stream>>, ghost stored: map<string, Stream>)
    ensures IsListing(entries, stored) && IsCompilation(lower, arrivals, stored)
    ensures (forall s :: s in arrivals ==> !s.autoLogoURL) ==> Settled(StreamKind(lower), arrivals)
    ensures stored.Keys == Fold(StreamKind(lower), arrivals).Keys
    ensures Settled(StreamKind(lower), arrivals) ==> stored == Kept(STREAM_OPS, Fold(StreamKind(lower), arrivals))
    ensures (forall s :: s in arrivals ==> !s.autoLogoURL) ==> stored == Fold(StreamKind(lower), arrivals)
    ensures AllCut(lower, key, entries) ==> Sorts.Sorted(ByEntry(Before(lower, key, direction)), 0, entries)
    ensures AllCut(lower, key, entries) ==>
              forall i, j :: 0 <= i < j < |entries| ==> InOrder(lower, key, direction, entries[i].entry, entries[j].entry)
  {
    StreamsAreLawful(lower);
    entries, stored := Compile(StreamKind(lower), hash, Before(lower, key, direction), arrivals);
    CompilationOf(lower, arrivals, stored);
    if forall s :: s in arrivals ==> !s.autoLogoURL {
      SettledWithoutAutoIcons(lower, arrivals);
      FilesKeepAll(Fold(StreamKind(lower), arrivals));
    }
    OrderedIffAllCut(lower, key, direction, entries);
    if AllCut(lower, key, entries) {
      SortedMeans(lower, key, direction, entries);
    }
  }

  lemma SortedMeans(lower: char -> char, key: string, direction: string, entries: seq<Filed<Stream>>)
    requires Sorts.Sorted(ByEntry(Before(lower, key, direction)), 0, entries)
    ensures forall i, j :: 0 <= i < j < |entries| ==> InOrder(lower, key, direction, entries[i].entry, entries[j].entry)
  {
    forall i, j | 0 <= i < j < |entries|
      ensures InOrder(lower, key, direction, entries[i].entry, entries[j].entry)
    {
      assert !ByEntry(Before(lower, key, direction))(0, entries[j], entries[i]);
      BeforeMeans(lower, key, direction, entries[i].entry, entries[j].entry);
    }
  }
}
