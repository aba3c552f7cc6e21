/** How streams of one title are merged, and what a merged stream is, told by the streams that went into it
    (sourceproc/sorting.go). URL maps are not part of this model. */
module Merging {
  import opened BufferPools
  import opened Text
  import opened Shards
  import opened Streams

  /** What a stream has recorded itself. */
  function Own(s: Stream): map<string, string> {
    map k | k in s.epgMeta && TrimSpace(k) != "" && TrimSpace(s.epgMeta[k]) != "" :: TrimSpace(s.epgMeta[k])
  }

  /** mergeSourceEPGMeta; the keys of a recorded map are trimmed already. */
  function MergeMeta(base: Stream, new': Stream): map<string, string> {
    RecordMeta(RecordMeta(base.epgMeta, base.sourceM3U, base.tvgID), new'.sourceM3U, new'.tvgID) + Own(new')
  }

  function Or(a: string, b: string): string { if a == "" then b else a }

  /** mergeStreamInfoAttributes */
  function Merge(base: Stream, new': Stream): Stream {
    var named := base.(title := Or(base.title, new'.title), tvgID := Or(base.tvgID, new'.tvgID),
                       tvgChNo := Or(base.tvgChNo, new'.tvgChNo), tvgType := Or(base.tvgType, new'.tvgType));
    var logoed :=
      if named.logoURL == "" then named.(logoURL := new'.logoURL, autoLogoURL := new'.autoLogoURL)
      else if named.autoLogoURL && !new'.autoLogoURL && new'.logoURL != "" then named.(logoURL := new'.logoURL, autoLogoURL := false)
      else named;
    var grouped := logoed.(group := Or(base.group, new'.group));
    var met := grouped.(epgMeta := MergeMeta(grouped, new'));
    if Less(new'.sourceM3U, base.sourceM3U) || (new'.sourceM3U == base.sourceM3U && new'.sourceIndex < base.sourceIndex) then
      met.(sourceM3U := new'.sourceM3U, sourceIndex := new'.sourceIndex)
    else met
  }

  /** What of a stream survives in a shard file. */
  function Persist(s: Stream): Stream { s.(autoLogoURL := false) }

  /** Merging keeps a logo that the base found automatically, or the two logos are the same one. */
  predicate LogoSettled(base: Stream, new': Stream) {
    base.logoURL == "" || !base.autoLogoURL || new'.autoLogoURL || new'.logoURL == "" || new'.logoURL == base.logoURL
  }

  /** Spilling a stream before a merge makes no difference to what is kept, exactly when the merge would not have
      replaced an automatic logo by another one. */
  lemma SpillingMattersIffLogoReplaced(base: Stream, new': Stream)
    ensures Persist(Merge(Persist(base), new')) == Persist(Merge(base, new')) <==> LogoSettled(base, new')
  {
  }

  /** A logo of its own replaces an automatic one, but not one that has been to a file. */
  lemma SpilledLogoStays(s: Stream)
    ensures var base, new' := s.(logoURL := "auto", autoLogoURL := true), s.(logoURL := "own", autoLogoURL := false);
            Merge(base, new').logoURL == "own" && Merge(Persist(base), new').logoURL == "auto"
  {
  }

  /** What is stored may stand for what it should be if files keep the same of both. */
  predicate Near(stored: Stream, ideal: Stream) {
    Persist(stored) == Persist(ideal) && (stored.autoLogoURL ==> ideal.autoLogoURL)
  }

  /** The same stream but for the logo, which only both have or neither. */
  predicate Like(stored: Stream, ideal: Stream) {
    && stored.(logoURL := ideal.logoURL, autoLogoURL := ideal.autoLogoURL) == ideal
    && (stored.logoURL == "" <==> ideal.logoURL == "")
  }

  const STREAM_OPS := Ops(Merge, Persist)

  const TITLE := (s: Stream) => s.title
  const TVG_ID := (s: Stream) => s.tvgID
  const TVG_CH_NO := (s: Stream) => s.tvgChNo
  const TVG_TYPE := (s: Stream) => s.tvgType
  const GROUP := (s: Stream) => s.group
  const LOGO := (s: Stream) => s.logoURL
  /** A logo that was not found automatically. */
  const OWN_LOGO := (s: Stream) => if s.autoLogoURL then "" else s.logoURL

  /** The first text along the streams that is not empty, if there is one. */
  function First(f: Stream -> string, xs: seq<Stream>): string {
    if xs == [] then "" else if f(xs[0]) != "" then f(xs[0]) else First(f, xs[1..])
  }

  lemma {:induction false} FirstOneMore(f: Stream -> string, xs: seq<Stream>, x: Stream)
    ensures First(f, xs + [x]) == if First(f, xs) != "" then First(f, xs) else f(x)
  {
    if xs != [] {
      FirstOneMore(f, xs[1..], x);
      assert (xs + [x])[1..] == xs[1..] + [x];
    } else {
      assert [x][1..] == [];
    }
  }

  /** Lower source, or the same source and a lower index. */
  predicate Earlier(source: string, index: int, source': string, index': int) {
    Less(source, source') || (source == source' && index < index')
  }

  /** Some stream has this source and index, and none has an earlier one. */
  ghost predicate IsLeast(xs: seq<Stream>, source: string, index: int) {
    && (exists s :: s in xs && s.sourceM3U == source && s.sourceIndex == index)
    && (forall s :: s in xs ==> !Earlier(s.sourceM3U, s.sourceIndex, source, index))
  }

  /** The least source of the streams. */
  function Source(xs: seq<Stream>): string
    requires xs != []
  {
    if |xs| == 1 then xs[0].sourceM3U
    else
      var before, s := Source(xs[..|xs| - 1]), xs[|xs| - 1];
      if Less(s.sourceM3U, before) then s.sourceM3U else before
  }

  /** The id recorded for source k: what the first stream has recorded; and with every other one the id of the title, for the
      least source before it, then the stream's own id, then what it has recorded itself. The last one counts. */
  function Recorded(xs: seq<Stream>, k: string): Option<string>
    requires xs != []
  {
    var front, s := xs[..|xs| - 1], xs[|xs| - 1];
    if front == [] then if k in s.epgMeta then Some(s.epgMeta[k]) else None
    else if k in Own(s) then Some(Own(s)[k])
    else if k != "" && k == TrimSpace(s.sourceM3U) && TrimSpace(s.tvgID) != "" then Some(TrimSpace(s.tvgID))
    else if k != "" && k == TrimSpace(Source(front)) && TrimSpace(First(TVG_ID, xs)) != "" then Some(TrimSpace(First(TVG_ID, xs)))
    else Recorded(front, k)
  }

  /** What merging makes of the streams xs, but for the logo: each text is the first one that is not empty, the source is the
      least one, and the recorded ids are the last ones. */
  ghost predicate Collects(xs: seq<Stream>, m: Stream) {
    xs != [] && HasFirstTexts(xs, m) && IsLeast(xs, m.sourceM3U, m.sourceIndex) && HasRecorded(xs, m.epgMeta)
  }

  predicate HasFirstTexts(xs: seq<Stream>, m: Stream)
    requires xs != []
  {
    && m.title == First(TITLE, xs) && m.tvgID == First(TVG_ID, xs) && m.tvgChNo == First(TVG_CH_NO, xs)
    && m.tvgType == First(TVG_TYPE, xs) && m.group == First(GROUP, xs)
    && (m.logoURL == "" <==> First(LOGO, xs) == "")
    && m.sourceURL == xs[0].sourceURL && m.subChannelID == xs[0].subChannelID && m.displayTitle == xs[0].displayTitle
  }

  ghost predicate HasRecorded(xs: seq<Stream>, meta: map<string, string>)
    requires xs != []
  {
    forall k {:trigger Recorded(xs, k)} :: Recorded(xs, k) == if k in meta then Some(meta[k]) else None
  }

  /** The first logo that was not found automatically, or else the first one. */
  function LogoOf(xs: seq<Stream>): string {
    if First(OWN_LOGO, xs) != "" then First(OWN_LOGO, xs) else First(LOGO, xs)
  }

  lemma LeastOneMore(xs: seq<Stream>, source: string, index: int, s: Stream)
    requires IsLeast(xs, source, index)
    ensures if Earlier(s.sourceM3U, s.sourceIndex, source, index) then IsLeast(xs + [s], s.sourceM3U, s.sourceIndex)
            else IsLeast(xs + [s], source, index)
  {
    var xs' := xs + [s];
    assert forall x :: x in xs' <==> x in xs || x == s;
    if Earlier(s.sourceM3U, s.sourceIndex, source, index) {
      assert s in xs';
      LessIsStrict(s.sourceM3U);
      forall x | x in xs
        ensures !Earlier(x.sourceM3U, x.sourceIndex, s.sourceM3U, s.sourceIndex)
      {
        assert !Earlier(x.sourceM3U, x.sourceIndex, source, index);
        if Less(x.sourceM3U, s.sourceM3U) && Less(s.sourceM3U, source) {
          LessIsTransitive(x.sourceM3U, s.sourceM3U, source);
        }
      }
    } else {
      var x :| x in xs && x.sourceM3U == source && x.sourceIndex == index;
      assert x in xs';
    }
  }

  lemma MetaOneMore(xs: seq<Stream>, base: Stream, s: Stream, k: string)
    requires xs != [] && base.sourceM3U == Source(xs)
    requires Recorded(xs, k) == if k in base.epgMeta then Some(base.epgMeta[k]) else None
    ensures var meta := MergeMeta(base.(tvgID := First(TVG_ID, xs + [s])), s);
            Recorded(xs + [s], k) == if k in meta then Some(meta[k]) else None
  {
    assert (xs + [s])[..|xs|] == xs;
  }

  lemma FirstsOneMore(xs: seq<Stream>, s: Stream)
    ensures First(TITLE, xs + [s]) == Or(First(TITLE, xs), s.title)
    ensures First(TVG_ID, xs + [s]) == Or(First(TVG_ID, xs), s.tvgID)
    ensures First(TVG_CH_NO, xs + [s]) == Or(First(TVG_CH_NO, xs), s.tvgChNo)
    ensures First(TVG_TYPE, xs + [s]) == Or(First(TVG_TYPE, xs), s.tvgType)
    ensures First(GROUP, xs + [s]) == Or(First(GROUP, xs), s.group)
    ensures First(LOGO, xs + [s]) == Or(First(LOGO, xs), s.logoURL)
  {
    FirstOneMore(TITLE, xs, s);
    FirstOneMore(TVG_ID, xs, s);
    FirstOneMore(TVG_CH_NO, xs, s);
    FirstOneMore(TVG_TYPE, xs, s);
    FirstOneMore(GROUP, xs, s);
    FirstOneMore(LOGO, xs, s);
  }

  lemma TextsOneMore(xs: seq<Stream>, base: Stream, s: Stream)
    requires xs != [] && HasFirstTexts(xs, base)
    ensures HasFirstTexts(xs + [s], Merge(base, s))
  {
    FirstsOneMore(xs, s);
    MergedTexts(base, s);
    assert (xs + [s])[0] == xs[0];
  }

  lemma MergedTexts(base: Stream, s: Stream)
    ensures var m := Merge(base, s);
            && m.title == Or(base.title, s.title) && m.tvgID == Or(base.tvgID, s.tvgID)
            && m.tvgChNo == Or(base.tvgChNo, s.tvgChNo) && m.tvgType == Or(base.tvgType, s.tvgType)
            && m.group == Or(base.group, s.group) && (m.logoURL == "" <==> base.logoURL == "" && s.logoURL == "")
            && m.sourceURL == base.sourceURL && m.subChannelID == base.subChannelID && m.displayTitle == base.displayTitle
  {
  }

  lemma MergedMeta(base: Stream, s: Stream)
    ensures Merge(base, s).epgMeta == MergeMeta(base.(tvgID := Or(base.tvgID, s.tvgID)), s)
  {
  }

  lemma MetasOneMore(xs: seq<Stream>, base: Stream, s: Stream)
    requires xs != [] && base.sourceM3U == Source(xs) && HasRecorded(xs, base.epgMeta) && base.tvgID == First(TVG_ID, xs)
    ensures HasRecorded(xs + [s], Merge(base, s).epgMeta)
  {
    MergedMeta(base, s);
    FirstOneMore(TVG_ID, xs, s);
    var meta := Merge(base, s).epgMeta;
    forall k
      ensures Recorded(xs + [s], k) == if k in meta then Some(meta[k]) else None
    {
      assert Recorded(xs, k) == if k in base.epgMeta then Some(base.epgMeta[k]) else None;
      MetaOneMore(xs, base, s, k);
    }
  }

  lemma FieldsOneMore(xs: seq<Stream>, base: Stream, s: Stream)
    requires Collects(xs, base) && base.sourceM3U == Source(xs)
    ensures Collects(xs + [s], Merge(base, s)) && Merge(base, s).sourceM3U == Source(xs + [s])
  {
    TextsOneMore(xs, base, s);
    MetasOneMore(xs, base, s);
    LeastOneMore(xs, base.sourceM3U, base.sourceIndex, s);
    assert (xs + [s])[..|xs|] == xs;
  }

  lemma FieldsOfOne(s: Stream)
    ensures Collects([s], s) && s.sourceM3U == Source([s])
  {
    assert [s][1..] == [] && [s][..0] == [];
    LessIsStrict(s.sourceM3U);
    assert s in [s];
  }

  /** What merging streams one after the other makes of them. */
  lemma {:induction false} MergedFields(xs: seq<Stream>)
    requires xs != []
    ensures Collects(xs, MergeAll(STREAM_OPS, xs)) && MergeAll(STREAM_OPS, xs).sourceM3U == Source(xs)
  {
    var front, s := xs[..|xs| - 1], xs[|xs| - 1];
    assert xs == front + [s];
    if front == [] {
      FieldsOfOne(s);
    } else {
      MergedFields(front);
      FieldsOneMore(front, MergeAll(STREAM_OPS, front), s);
    }
  }

  /** The logo is the first one that was not found automatically, or else the first one, and then it was. */
  lemma {:induction false} MergedLogo(xs: seq<Stream>)
    requires xs != []
    ensures var m := MergeAll(STREAM_OPS, xs);
            && m.logoURL == LogoOf(xs)
            && (m.logoURL != "" ==> (m.autoLogoURL <==> First(OWN_LOGO, xs) == ""))
  {
    var front, s := xs[..|xs| - 1], xs[|xs| - 1];
    assert xs == front + [s];
    FirstOneMore(LOGO, front, s);
    FirstOneMore(OWN_LOGO, front, s);
    OwnLogoIsLogo(front);
    if front != [] {
      MergedLogo(front);
    }
  }

  lemma {:induction false} OwnLogoIsLogo(xs: seq<Stream>)
    ensures First(LOGO, xs) == "" ==> First(OWN_LOGO, xs) == ""
    ensures (forall s :: s in xs ==> !s.autoLogoURL) ==> First(OWN_LOGO, xs) == First(LOGO, xs)
  {
    if xs != [] {
      OwnLogoIsLogo(xs[1..]);
    }
  }

  lemma LikeCollects(xs: seq<Stream>, stored: Stream, ideal: Stream)
    requires Collects(xs, ideal) && Like(stored, ideal)
    ensures Collects(xs, stored)
  {
    assert stored.epgMeta == ideal.epgMeta;
  }

  /** The stream gives an id for its source k. */
  predicate Gives(s: Stream, k: string) { k != "" && k == TrimSpace(s.sourceM3U) && TrimSpace(s.tvgID) != "" }

  /** Streams as the playlist reader makes them: each has recorded its own id for its source. */
  ghost predicate AsRead(xs: seq<Stream>) {
    forall s :: s in xs ==> s.epgMeta == RecordMeta(map[], s.sourceM3U, s.tvgID)
  }

  /** The id that the last stream of source k gives. */
  function LastGiven(xs: seq<Stream>, k: string): Option<string> {
    if xs == [] then None
    else if Gives(xs[|xs| - 1], k) then Some(TrimSpace(xs[|xs| - 1].tvgID))
    else LastGiven(xs[..|xs| - 1], k)
  }

  /** When stream i arrives, k is the least source so far and the title has an id; from then on no stream gives one for k. */
  predicate BorrowsAt(xs: seq<Stream>, k: string, i: nat)
    requires 1 <= i < |xs|
  {
    Lends(xs[..i], xs[i], k) && NoneGives(xs[i..], k)
  }

  /** When s arrives, k is the least source before it, and then the title has an id. */
  predicate Lends(before: seq<Stream>, s: Stream, k: string)
    requires before != []
  {
    k != "" && k == TrimSpace(Source(before)) && TrimSpace(First(TVG_ID, before + [s])) != ""
  }

  predicate NoneGives(xs: seq<Stream>, k: string) { xs == [] || (!Gives(xs[|xs| - 1], k) && NoneGives(xs[..|xs| - 1], k)) }

  ghost predicate Borrows(xs: seq<Stream>, k: string) { exists i :: 1 <= i < |xs| && BorrowsAt(xs, k, i) }

  lemma NoneGivesOneMore(xs: seq<Stream>, s: Stream, k: string)
    ensures NoneGives(xs + [s], k) <==> !Gives(s, k) && NoneGives(xs, k)
  {
    assert (xs + [s])[..|xs|] == xs;
  }

  lemma BorrowsAtOneMore(xs: seq<Stream>, s: Stream, k: string, i: nat)
    requires 1 <= i <= |xs|
    ensures BorrowsAt(xs + [s], k, i) == (!Gives(s, k) && if i < |xs| then BorrowsAt(xs, k, i) else Lends(xs, s, k))
  {
    var xs' := xs + [s];
    NoneGivesOneMore(xs[i..], s, k);
    assert xs'[i..] == xs[i..] + [s] && xs'[..i] == xs[..i];
    if i == |xs| {
      assert xs[..i] == xs && xs[i..] == [];
    }
  }

  lemma BorrowsOneMore(xs: seq<Stream>, s: Stream, k: string)
    requires xs != []
    ensures Borrows(xs + [s], k) <==> !Gives(s, k) && (Borrows(xs, k) || Lends(xs, s, k))
  {
    forall i | 1 <= i <= |xs|
      ensures BorrowsAt(xs + [s], k, i) == (!Gives(s, k) && if i < |xs| then BorrowsAt(xs, k, i) else Lends(xs, s, k))
    {
      BorrowsAtOneMore(xs, s, k, i);
    }
    if Borrows(xs, k) {
      var i :| 1 <= i < |xs| && BorrowsAt(xs, k, i);
      assert !Gives(s, k) ==> BorrowsAt(xs + [s], k, i);
    }
    assert BorrowsAt(xs + [s], k, |xs|) ==> Borrows(xs + [s], k);
  }

  lemma UpToNext<T>(xs: seq<T>, i: nat)
    requires i < |xs|
    ensures xs[..i] + [xs[i]] == xs[..i + 1]
  {
  }

  lemma NotBlank(s: string)
    requires TrimSpace(s) != ""
    ensures s != ""
  {
  }

  lemma LentIdStays(xs: seq<Stream>, k: string, i: nat)
    requires 1 <= i < |xs| && Lends(xs[..i], xs[i], k)
    ensures First(TVG_ID, xs) != ""
  {
    NotBlank(First(TVG_ID, xs[..i] + [xs[i]]));
    UpToNext(xs, i);
    FirstOfMore(TVG_ID, xs, i + 1);
  }

  lemma {:induction false} FirstOfMore(f: Stream -> string, xs: seq<Stream>, i: nat)
    requires i <= |xs| && First(f, xs[..i]) != ""
    ensures First(f, xs) == First(f, xs[..i])
    decreases |xs| - i
  {
    if i < |xs| {
      assert xs[..i + 1] == xs[..i] + [xs[i]];
      FirstOneMore(f, xs[..i], xs[i]);
      FirstOfMore(f, xs, i + 1);
    } else {
      assert xs[..i] == xs;
    }
  }

  lemma OwnOfRead(s: Stream, k: string)
    requires s.epgMeta == RecordMeta(map[], s.sourceM3U, s.tvgID)
    ensures k in Own(s) <==> Gives(s, k)
    ensures k in s.epgMeta <==> Gives(s, k)
    ensures Gives(s, k) ==> Own(s)[k] == s.epgMeta[k] == TrimSpace(s.tvgID)
  {
    TrimIsTrimmed(s.sourceM3U);
    TrimIsTrimmed(TrimSpace(s.sourceM3U));
    TrimIsTrimmed(s.tvgID);
    TrimIsTrimmed(TrimSpace(s.tvgID));
  }

  /** Of streams from the playlist reader, the id for source k is the last one that source gave, unless k borrows the
      title's id: then it is that one. */
  lemma {:induction false} RecordedIs(xs: seq<Stream>, k: string)
    requires xs != [] && AsRead(xs)
    ensures Recorded(xs, k) == if Borrows(xs, k) then Some(TrimSpace(First(TVG_ID, xs))) else LastGiven(xs, k)
  {
    var front, s := xs[..|xs| - 1], xs[|xs| - 1];
    assert xs == front + [s];
    OwnOfRead(s, k);
    if front == [] {
      assert LastGiven(front, k) == None;
    } else {
      RecordedIs(front, k);
      BorrowsOneMore(front, s, k);
      assert (Lends(front, s, k) <==> k != "" && k == TrimSpace(Source(front)) && TrimSpace(First(TVG_ID, xs)) != "");
      FirstOneMore(TVG_ID, front, s);
      if i :| 1 <= i < |front| && BorrowsAt(front, k, i) {
        LentIdStays(front, k, i);
      }
    }
  }

  /** The id recorded for a source is one that a stream of that source gave, if and only if the source does not borrow the
      title's id, or gave the same one. */
  lemma OwnIdIff(xs: seq<Stream>, k: string)
    requires xs != [] && AsRead(xs) && Recorded(xs, k).Some?
    ensures (exists s :: s in xs && Gives(s, k) && TrimSpace(s.tvgID) == Recorded(xs, k).value) <==>
            (Borrows(xs, k) ==> exists s :: s in xs && Gives(s, k) && TrimSpace(s.tvgID) == TrimSpace(First(TVG_ID, xs)))
  {
    RecordedIs(xs, k);
    if !Borrows(xs, k) {
      GivenBySome(xs, k);
    }
  }

  lemma {:induction false} GivenBySome(xs: seq<Stream>, k: string)
    requires LastGiven(xs, k).Some?
    ensures exists s :: s in xs && Gives(s, k) && TrimSpace(s.tvgID) == LastGiven(xs, k).value
  {
    var front, s := xs[..|xs| - 1], xs[|xs| - 1];
    if Gives(s, k) {
      assert s in xs;
    } else {
      GivenBySome(front, k);
      var x :| x in front && Gives(x, k) && TrimSpace(x.tvgID) == LastGiven(front, k).value;
      assert x in xs;
    }
  }

  /** A source without an id gets that of another: the merged id is recorded for the source that had none. */
  lemma SourceGetsAnothersId(s: Stream, one: string, two: string, id: string)
    requires Trimmed(one) && Trimmed(two) && Trimmed(id) && one != "" && two != "" && id != "" && one != two
    ensures var a, b := s.(sourceM3U := one, tvgID := "", epgMeta := map[]), s.(sourceM3U := two, tvgID := id, epgMeta := map[two := id]);
            AsRead([a, b]) && Recorded([a, b], one) == Some(id) && !Gives(a, one) && !Gives(b, one)
  {
    var a, b := s.(sourceM3U := one, tvgID := "", epgMeta := map[]), s.(sourceM3U := two, tvgID := id, epgMeta := map[two := id]);
    TrimIsTrimmed(one);
    TrimIsTrimmed(two);
    TrimIsTrimmed(id);
    TrimIsTrimmed("");
    assert [a, b][..1] == [a] && [a, b][1..] == [b];
    assert Source([a]) == one && First(TVG_ID, [b]) == id && First(TVG_ID, [a, b]) == id;
  }
}
