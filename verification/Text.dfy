/** The string operations of Go's strings, strconv and unicode packages that the program relies on. */
module Text {
  import opened BufferPools

  /** unicode.IsSpace */
  predicate IsSpace(c: char) {
    || '\t' <= c <= '\r' || c == ' ' || c == '\U{85}' || c == '\U{A0}' || c == '\U{1680}'
    || '\U{2000}' <= c <= '\U{200A}' || c == '\U{2028}' || c == '\U{2029}' || c == '\U{202F}' || c == '\U{205F}'
    || c == '\U{3000}'
  }

  function TrimLeft(s: string): (t: string)
    ensures |t| <= |s|
    ensures t == "" || !IsSpace(t[0])
  {
    if s != "" && IsSpace(s[0]) then TrimLeft(s[1..]) else s
  }

  function TrimRight(s: string): string {
    if s != "" && IsSpace(s[|s| - 1]) then TrimRight(s[..|s| - 1]) else s
  }

  /** strings.TrimSpace */
  function TrimSpace(s: string): string { TrimRight(TrimLeft(s)) }

  /** No space at either end. */
  predicate Trimmed(s: string) { s == "" || (!IsSpace(s[0]) && !IsSpace(s[|s| - 1])) }

  lemma TrimIsTrimmed(s: string)
    ensures Trimmed(TrimSpace(s))
    ensures Trimmed(s) ==> TrimSpace(s) == s
  {
    TrimRightEnds(TrimLeft(s));
  }

  lemma {:induction false} TrimRightEnds(s: string)
    ensures TrimRight(s) <= s
    ensures TrimRight(s) == "" || !IsSpace(TrimRight(s)[|TrimRight(s)| - 1])
  {
    if s != "" && IsSpace(s[|s| - 1]) {
      TrimRightEnds(s[..|s| - 1]);
    }
  }

  /** Only spaces are trimmed, at the ends. */
  lemma {:induction false} TrimCutsSpaces(s: string)
    ensures exists a, b :: s == a + TrimSpace(s) + b && AllSpace(a) && AllSpace(b)
  {
    var a := CutLeft(s);
    var b := CutRight(TrimLeft(s));
    assert s == a + TrimSpace(s) + b;
  }

  ghost predicate AllSpace(s: string) { forall c :: c in s ==> IsSpace(c) }

  lemma {:induction false} CutLeft(s: string) returns (a: string)
    ensures s == a + TrimLeft(s) && AllSpace(a)
  {
    a := "";
    if s != "" && IsSpace(s[0]) {
      a := CutLeft(s[1..]);
      a := [s[0]] + a;
    }
  }

  lemma {:induction false} CutRight(s: string) returns (b: string)
    ensures s == TrimRight(s) + b && AllSpace(b)
  {
    b := "";
    if s != "" && IsSpace(s[|s| - 1]) {
      b := CutRight(s[..|s| - 1]);
      b := b + [s[|s| - 1]];
    }
  }

  /** The length of the leading run of non-space characters. */
  function WordLength(s: string): (n: nat)
    ensures n <= |s|
    ensures forall i :: 0 <= i < n ==> !IsSpace(s[i])
    ensures n < |s| ==> IsSpace(s[n])
  {
    if s == "" || IsSpace(s[0]) then 0 else 1 + WordLength(s[1..])
  }

  /** strings.Fields */
  function Fields(s: string): (ws: seq<string>)
    ensures forall w :: w in ws ==> IsWord(w)
    decreases |s|
  {
    var t := TrimLeft(s);
    if t == "" then []
    else
      var n := WordLength(t);
      [t[..n]] + Fields(t[n..])
  }

  predicate IsWord(w: string) { w != "" && forall c :: c in w ==> !IsSpace(c) }

  /** strings.Join */
  function Join(ws: seq<string>, sep: string): string {
    if ws == [] then "" else if |ws| == 1 then ws[0] else ws[0] + sep + Join(ws[1..], sep)
  }

  /** strings.Join(strings.Fields(strings.TrimSpace(s)), " ") */
  function Collapse(s: string): string { Join(Fields(TrimSpace(s)), " ") }

  lemma OneWord(w: string)
    requires IsWord(w)
    ensures Trimmed(w) && Fields(w) == [w]
  {
    assert w[0] in w && w[|w| - 1] in w;
    assert forall i :: 0 <= i < |w| ==> w[i] in w;
    assert WordLength(w) == |w| && w[..|w|] == w && w[|w|..] == "";
    assert Fields("") == [];
  }

  lemma WordThenRest(w: string, rest: string)
    requires IsWord(w) && rest != "" && !IsSpace(rest[0])
    ensures Fields(w + " " + rest) == [w] + Fields(rest)
  {
    var line := w + " " + rest;
    assert forall i :: 0 <= i < |w| ==> line[i] == w[i] && w[i] in w;
    assert line[|w|] == ' ';
    assert WordLength(line) == |w|;
    assert line[..|w|] == w && line[|w|..] == " " + rest;
    assert (" " + rest)[1..] == rest;
    assert TrimLeft(" " + rest) == TrimLeft(rest) == rest;
  }

  lemma {:induction false} JoinOfWords(ws: seq<string>)
    requires forall w :: w in ws ==> IsWord(w)
    ensures Trimmed(Join(ws, " ")) && (Join(ws, " ") == "" <==> ws == [])
    ensures Fields(Join(ws, " ")) == ws
  {
    if |ws| == 1 {
      OneWord(ws[0]);
    } else if |ws| > 1 {
      OneWord(ws[0]);
      JoinOfWords(ws[1..]);
      WordThenRest(ws[0], Join(ws[1..], " "));
    }
  }

  /** Collapsing white space twice is collapsing it once. */
  lemma CollapseTwice(s: string)
    ensures Collapse(Collapse(s)) == Collapse(s)
    ensures Trimmed(Collapse(s))
  {
    JoinOfWords(Fields(TrimSpace(s)));
    TrimIsTrimmed(Collapse(s));
  }

  /** Go's order on strings; on valid UTF-8 it is the order of the code points. */
  predicate Less(a: string, b: string) {
    b != "" && (a == "" || a[0] < b[0] || (a[0] == b[0] && Less(a[1..], b[1..])))
  }

  lemma {:induction false} LessIsStrict(a: string)
    ensures !Less(a, a)
  {
    if a != "" {
      LessIsStrict(a[1..]);
    }
  }

  lemma {:induction false} LessIsTransitive(a: string, b: string, c: string)
    requires Less(a, b) && Less(b, c)
    ensures Less(a, c)
  {
    if a != "" && a[0] == b[0] && b[0] == c[0] {
      LessIsTransitive(a[1..], b[1..], c[1..]);
    }
  }

  lemma {:induction false} LessIsTotal(a: string, b: string)
    ensures Less(a, b) || Less(b, a) || a == b
  {
    if a != "" && b != "" && a[0] == b[0] {
      LessIsTotal(a[1..], b[1..]);
      assert a == [a[0]] + a[1..] && b == [b[0]] + b[1..];
    }
  }

  /** strings.ToLower, where `lower` maps one character. */
  function ToLower(lower: char -> char, s: string): string { seq(|s|, i requires 0 <= i < |s| => lower(s[i])) }

  /** strings.IndexByte: the position of the first c, or the length of the text. */
  function Find(s: string, c: char): (n: nat)
    ensures n <= |s| && (n < |s| ==> s[n] == c) && forall i :: 0 <= i < n ==> s[i] != c
  {
    if s == "" || s[0] == c then 0 else 1 + Find(s[1..], c)
  }

  lemma FindIn(s: string, c: char, rest: string)
    requires c !in s
    ensures Find(s + [c] + rest, c) == |s|
  {
    var t := s + [c] + rest;
    assert t[|s|] == c && forall i :: 0 <= i < |s| ==> t[i] == s[i] && s[i] in s;
  }

  function Digits(s: string): Option<int>
  {
    if s == "" then Some(0)
    else if '0' <= s[|s| - 1] <= '9' then
      match Digits(s[..|s| - 1])
      case Some(n) => Some(10 * n + (s[|s| - 1] as int - '0' as int))
      case None => None
    else None
  }

  /** strconv.Atoi for 64-bit integers; None where it reports an error. */
  function Atoi(s: string): Option<int> {
    var body := if s != "" && (s[0] == '-' || s[0] == '+') then s[1..] else s;
    if body == "" then None
    else
      match Digits(body)
      case None => None
      case Some(n) =>
        var v := if s[0] == '-' then -n else n;
        if -0x8000_0000_0000_0000 <= v < 0x8000_0000_0000_0000 then Some(v) else None
  }
}
