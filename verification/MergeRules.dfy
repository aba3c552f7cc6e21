/** Channel merge rules: parsing them and following them from a title, through a graph of rules that may be cyclic
    (sourceproc/filter.go). Unicode's letters, digits and case mapping are parameters. */
module MergeRules {
  import opened BufferPools
  import opened Text

  type Key = string

  datatype Unicode = Unicode(lower: char -> char, isLetterOrDigit: char -> bool, equalFold: (string, string) -> bool)

  /** Source key to target title. */
  type Rules = map<Key, string>

  function Keep(u: Unicode, s: string): string {
    if s == "" then "" else (if u.isLetterOrDigit(s[0]) then [s[0]] else "") + Keep(u, s[1..])
  }

  /** normalizeChannelMergeKey */
  function NormalizeKey(u: Unicode, value: string): Key {
    var trimmed := TrimSpace(value);
    if trimmed == "" then ""
    else
      var normalized := ToLower(u.lower, Join(Fields(trimmed), " "));
      if normalized == "" then "" else Keep(u, normalized)
  }

  /** The source and target of one raw rule, if it is valid. */
  function RuleOf(u: Unicode, raw: string): Option<(string, string)> {
    var trimmed := TrimSpace(raw);
    var bar := Find(trimmed, '|');
    if bar == |trimmed| then None
    else
      var source, target := TrimSpace(trimmed[..bar]), TrimSpace(trimmed[bar + 1..]);
      if source == "" || target == "" || u.equalFold(source, target) then None else Some((source, target))
  }

  predicate Defines(u: Unicode, raw: string, k: Key) {
    RuleOf(u, raw).Some? && NormalizeKey(u, RuleOf(u, raw).value.0) == k
  }

  /** The target that the last rule for k gives it. */
  function LastTarget(u: Unicode, raws: seq<string>, k: Key): Option<string> {
    if raws == [] then None
    else if Defines(u, raws[|raws| - 1], k) then Some(RuleOf(u, raws[|raws| - 1]).value.1)
    else LastTarget(u, raws[..|raws| - 1], k)
  }

  ghost predicate MeansLastRules(u: Unicode, raws: seq<string>, merges: Rules) {
    && (forall k {:trigger LastTarget(u, raws, k)} :: LastTarget(u, raws, k) == if k in merges then Some(merges[k]) else None)
    && (forall k :: k in merges ==> merges[k] != "" && Trimmed(merges[k]))
  }

  function WithRule(u: Unicode, merges: Rules, raw: string): Rules {
    match RuleOf(u, raw)
    case Some(r) => merges[NormalizeKey(u, r.0) := r.1]
    case None => merges
  }

  lemma LastOfMore(u: Unicode, raws: seq<string>, raw: string, merges: Rules, k: Key)
    requires LastTarget(u, raws, k) == if k in merges then Some(merges[k]) else None
    ensures LastTarget(u, raws + [raw], k) == if k in WithRule(u, merges, raw) then Some(WithRule(u, merges, raw)[k]) else None
  {
    assert (raws + [raw])[..|raws|] == raws;
  }

  lemma TargetsAreTidy(u: Unicode, raw: string)
    ensures RuleOf(u, raw).Some? ==> RuleOf(u, raw).value.1 != "" && Trimmed(RuleOf(u, raw).value.1)
  {
    var trimmed := TrimSpace(raw);
    if Find(trimmed, '|') < |trimmed| {
      TrimIsTrimmed(trimmed[Find(trimmed, '|') + 1..]);
    }
  }

  lemma MoreRules(u: Unicode, raws: seq<string>, raw: string, merges: Rules)
    requires MeansLastRules(u, raws, merges)
    ensures MeansLastRules(u, raws + [raw], WithRule(u, merges, raw))
  {
    var raws', merges' := raws + [raw], WithRule(u, merges, raw);
    TargetsAreTidy(u, raw);
    forall k
      ensures LastTarget(u, raws', k) == if k in merges' then Some(merges'[k]) else None
    {
      LastOfMore(u, raws, raw, merges, k);
    }
  }

  /** parseChannelMergeRules: a key is a source exactly when some rule defines it, and the last such rule gives its
      target, which is never blank. */
  method ParseChannelMergeRules(u: Unicode, raws: seq<string>) returns (merges: Rules)
    ensures MeansLastRules(u, raws, merges)
  {
    merges := map[];
    for n := 0 to |raws|
      invariant MeansLastRules(u, raws[..n], merges)
    {
      assert raws[..n + 1] == raws[..n] + [raws[n]];
      MoreRules(u, raws[..n], raws[n], merges);
      var trimmed := TrimSpace(raws[n]);
      if trimmed == "" { continue; }
      var bar := Find(trimmed, '|');
      if bar == |trimmed| { continue; }
      var source, target := TrimSpace(trimmed[..bar]), TrimSpace(trimmed[bar + 1..]);
      if source == "" || target == "" { continue; }
      if u.equalFold(source, target) { continue; }
      merges := merges[NormalizeKey(u, source) := target];
    }
    assert raws[..|raws|] == raws;
  }

  /** How a title is read as a key, and where each source key leads: the target title with its white space
      collapsed, "" for a blank target. */
  datatype Graph = Graph(key: string -> Key, target: map<Key, string>) {

    predicate Leads(k: Key) { k in target && target[k] != "" }

    /** The walk of applyChannelMergeRule from title `current`; `unseen` are the sources not yet met. */
    function Walk(current: string, unseen: set<Key>): string
      decreases unseen
    {
      var k := key(current);
      if !Leads(k) || k !in unseen then current else Walk(target[k], unseen - {k})
    }

    function Unseen(path: seq<Key>): set<Key> { target.Keys - Set(path) }

    lemma OneMore(path: seq<Key>, k: Key)
      ensures Unseen(path + [k]) == Unseen(path) - {k}
    {
    }

    /** `path` follows the rules: each key leads to the next one and comes once; the last one leads to `current`. */
    ghost predicate Follows(path: seq<Key>, current: string) {
      && (forall i :: 0 <= i < |path| ==> Leads(path[i]))
      && (forall i, j :: 0 <= i < |path| && j == i + 1 < |path| ==> key(target[path[i]]) == path[j])
      && (forall i, j :: 0 <= i < j < |path| ==> path[i] != path[j])
      && (path != [] ==> current == target[path[|path| - 1]])
    }

    /** Walking around a cycle once more comes back to the same title. */
    lemma {:induction false} AroundTheCycle(path: seq<Key>, i: nat, j: nat, current: string, end: string)
      requires i <= j < |path| && Follows(path, end) && key(end) == path[i] && key(current) == path[j]
      ensures Walk(current, Unseen(path[i..j])) == end
      decreases |path| - j
    {
      assert path[i..j] + [path[j]] == path[i..j + 1];
      assert path[j] !in path[i..j];
      OneMore(path[i..j], path[j]);
      if j + 1 < |path| {
        AroundTheCycle(path, i, j + 1, target[path[j]], end);
      } else {
        assert path[i..j + 1][0] == path[i];
      }
    }

    lemma {:induction false} WalkTwice(current: string, path: seq<Key>)
      requires Follows(path, current)
      ensures Walk(Walk(current, Unseen(path)), target.Keys) == Walk(current, Unseen(path))
      ensures Walk(current, Unseen(path)) == current || exists k :: Leads(k) && Walk(current, Unseen(path)) == target[k]
      decreases Unseen(path)
    {
      var k := key(current);
      if Leads(k) {
        if k in path {
          var i :| 0 <= i < |path| && path[i] == k;
          assert path[i..i] == [] && Unseen([]) == target.Keys;
          AroundTheCycle(path, i, i, current, current);
        } else {
          OneMore(path, k);
          WalkTwice(target[k], path + [k]);
        }
      }
    }

    lemma WalkFromTheStart(current: string)
      ensures Walk(Walk(current, target.Keys), target.Keys) == Walk(current, target.Keys)
      ensures Walk(current, target.Keys) == current || exists k :: Leads(k) && Walk(current, target.Keys) == target[k]
    {
      assert Unseen([]) == target.Keys;
      WalkTwice(current, []);
    }

    /** The title reached after n rules from title `start`, as long as there are rules to follow. */
    function TitleAfter(start: string, n: nat): Option<string> {
      if n == 0 then Some(start)
      else
        match TitleAfter(start, n - 1)
        case None => None
        case Some(t) => if Leads(key(t)) then Some(target[key(t)]) else None
    }

    ghost predicate HasKey(start: string, n: nat, k: Key) { TitleAfter(start, n).Some? && key(TitleAfter(start, n).value) == k }

    /** After n rules there is no other rule to follow, or the same key was met before. */
    ghost predicate Stops(start: string, n: nat) {
      TitleAfter(start, n).Some? &&
      var k := key(TitleAfter(start, n).value);
      !Leads(k) || exists m :: 0 <= m < n && HasKey(start, m, k)
    }

    /** The walk ends at `result`: after the first number of rules where it stops. */
    ghost predicate EndsAt(start: string, n: nat, result: string) {
      TitleAfter(start, n) == Some(result) && Stops(start, n) && forall m :: 0 <= m < n ==> !Stops(start, m)
    }

    lemma {:induction false} WalkStops(start: string, current: string, path: seq<Key>)
      requires TitleAfter(start, |path|) == Some(current)
      requires forall m :: 0 <= m < |path| ==> HasKey(start, m, path[m]) && !Stops(start, m)
      ensures exists n :: EndsAt(start, n, Walk(current, Unseen(path)))
      decreases Unseen(path)
    {
      var k := key(current);
      if Leads(k) && k !in path {
        OneMore(path, k);
        forall m | 0 <= m < |path|
          ensures !HasKey(start, m, k)
        {
          assert HasKey(start, m, path[m]) && path[m] != k;
        }
        assert HasKey(start, |path|, k);
        WalkStops(start, target[k], path + [k]);
        assert Walk(current, Unseen(path)) == Walk(target[k], Unseen(path + [k]));
      } else {
        if Leads(k) {
          var m :| 0 <= m < |path| && path[m] == k;
          assert HasKey(start, m, k);
        }
        assert Stops(start, |path|) && EndsAt(start, |path|, current);
        assert Walk(current, Unseen(path)) == current;
      }
    }

    /** The key reached after n rules from key k, as long as there are rules to follow. */
    function Hops(k: Key, n: nat): Option<Key> {
      if n == 0 then Some(k)
      else
        match Hops(k, n - 1)
        case None => None
        case Some(l) => if Leads(l) then Some(key(target[l])) else None
    }

    /** Following the rules from k comes back to k. */
    ghost predicate ComesBack(k: Key) {
      exists n: nat :: n >= 1 && Hops(k, n) == Some(k)
    }

    lemma {:induction false} HopsAdd(k: Key, a: nat, b: nat)
      ensures Hops(k, a + b) == match Hops(k, a) case None => None case Some(l) => Hops(l, b)
    {
      if b > 0 {
        HopsAdd(k, a, b - 1);
      }
    }

    lemma {:induction false} AgainAndAgain(k: Key, n: nat, t: nat)
      requires Hops(k, n) == Some(k)
      ensures Hops(k, t * n) == Some(k)
    {
      if t > 0 {
        AgainAndAgain(k, n, t - 1);
        HopsAdd(k, (t - 1) * n, n);
        assert (t - 1) * n + n == t * n;
      } else {
        assert t * n == 0;
      }
    }

    /** A start that the rules come back to lies in every closed set that they reach from it. */
    lemma BackInside(s: set<Key>, start: Key, i: nat, n: nat)
      requires Hops(start, i).Some? && Hops(start, i).value in s
      requires forall l :: l in s && Leads(l) ==> key(target[l]) in s
      requires n >= 1 && Hops(start, n) == Some(start)
      ensures start in s
    {
      var m := i * n;
      AgainAndAgain(start, n, i);
      assert m >= i;
      HopsAdd(start, i, m - i);
      StaysIn(s, Hops(start, i).value, m - i);
    }

    lemma CycleIsClosed(path: seq<Key>, i: nat, end: string, l: Key)
      requires Follows(path, end) && i < |path| && key(end) == path[i] && l in path[i..]
      ensures Leads(l) && key(target[l]) in path[i..]
    {
      var cycle := path[i..];
      var j :| 0 <= j < |cycle| && cycle[j] == l;
      if j + 1 < |cycle| {
        assert cycle[j + 1] == path[i + j + 1] == key(target[path[i + j]]);
      } else {
        assert cycle[0] == path[i];
      }
    }

    /** A chain that has run into a cycle not containing its start never comes back to its start. */
    lemma NeverBack(path: seq<Key>, i: nat, end: string)
      requires Follows(path, end) && 0 < i < |path| && key(end) == path[i]
      requires Hops(path[0], i) == Some(path[i])
      ensures !ComesBack(path[0])
    {
      var start, cycle := path[0], Set(path[i..]);
      forall l | l in cycle
        ensures Leads(l) && key(target[l]) in cycle
      {
        CycleIsClosed(path, i, end, l);
      }
      assert path[i..][0] == path[i];
      assert start !in cycle;
      forall n: nat | n >= 1 && Hops(start, n) == Some(start)
        ensures false
      {
        BackInside(cycle, start, i, n);
      }
    }

    /** The walk ends where it set out, at a key with a rule, exactly when the rules come back there. */
    lemma {:induction false} WalkComesBack(start: Key, current: string, path: seq<Key>)
      requires Follows(path, current) && start == (path + [key(current)])[0]
      requires forall i :: 0 <= i < |path| ==> Hops(start, i) == Some(path[i])
      requires Hops(start, |path|) == Some(key(current))
      ensures key(Walk(current, Unseen(path))) == start && Leads(start) <==> ComesBack(start)
      decreases Unseen(path)
    {
      var k := key(current);
      if Leads(k) && k !in path {
        OneMore(path, k);
        WalkComesBack(start, target[k], path + [k]);
      } else if Leads(k) {
        var i :| 0 <= i < |path| && path[i] == k;
        if i == 0 {
          assert Hops(start, |path|) == Some(start);
        } else {
          NeverBack(path, i, current);
        }
      } else {
        DeadEnd(start, |path|);
      }
    }

    lemma DeadEnd(start: Key, m: nat)
      requires Hops(start, m).Some? && !Leads(Hops(start, m).value)
      ensures !ComesBack(start)
    {
      forall n: nat | n >= 1 && Hops(start, n) == Some(start)
        ensures false
      {
        AgainAndAgain(start, n, m + 1);
        HopsAdd(start, m + 1, (m + 1) * n - (m + 1));
      }
    }

    /** From k the rules come to an end at a key that has none. */
    ghost predicate ComesToAnEnd(k: Key) {
      exists n: nat :: Hops(k, n).Some? && Hops(k, n).value !in target
    }

    lemma {:induction false} StaysIn(s: set<Key>, k: Key, n: nat)
      requires k in s && forall l :: l in s && Leads(l) ==> key(target[l]) in s
      ensures Hops(k, n).Some? ==> Hops(k, n).value in s
    {
      if n > 0 {
        StaysIn(s, k, n - 1);
      }
    }

    lemma StuckOnPath(start: Key, current: string, path: seq<Key>)
      requires Follows(path, current) && start == (path + [key(current)])[0]
      requires key(current) in target && (key(current) in path || target[key(current)] == "")
      ensures !ComesToAnEnd(start)
    {
      var s := Set(path) + {key(current)};
      forall l | l in s && Leads(l)
        ensures key(target[l]) in s
      {
        if l in path {
          var i :| 0 <= i < |path| && path[i] == l;
          if i + 1 < |path| {
            assert path[i + 1] == key(target[path[i]]) && path[i + 1] in path;
          }
        }
      }
      forall n: nat
        ensures Hops(start, n).Some? ==> Hops(start, n).value in s
      {
        StaysIn(s, start, n);
      }
    }

    lemma {:induction false} WalkEnds(start: Key, current: string, path: seq<Key>)
      requires Follows(path, current) && start == (path + [key(current)])[0]
      requires Hops(start, |path|) == Some(key(current))
      ensures key(Walk(current, Unseen(path))) !in target <==> ComesToAnEnd(start)
      decreases Unseen(path)
    {
      var k := key(current);
      if k in target {
        if k in path || target[k] == "" {
          StuckOnPath(start, current, path);
        } else {
          OneMore(path, k);
          WalkEnds(start, target[k], path + [k]);
        }
      }
    }

    lemma EndsIff(current: string)
      ensures key(Walk(current, target.Keys)) !in target <==> ComesToAnEnd(key(current))
    {
      assert Unseen([]) == target.Keys;
      WalkEnds(key(current), current, []);
    }
  }

  function Set(path: seq<Key>): set<Key> { set k | k in path }

  function GraphOf(u: Unicode, rules: Rules): Graph {
    Graph(s => NormalizeKey(u, s), map k | k in rules :: Collapse(rules[k]))
  }

  function Apply(u: Unicode, rules: Rules, title: string): string {
    var current := Collapse(title);
    if current == "" then title else if |rules| == 0 then current else GraphOf(u, rules).Walk(current, rules.Keys)
  }

  lemma BlankTargets(s: string)
    ensures TrimSpace(s) == "" <==> Collapse(s) == ""
  {
    TrimIsTrimmed(s);
    JoinOfWords(Fields(TrimSpace(s)));
  }

  /** applyChannelMergeRule */
  method ApplyChannelMergeRule(u: Unicode, rules: Rules, title: string) returns (current: string)
    ensures current == Apply(u, rules, title)
  {
    current := Join(Fields(TrimSpace(title)), " ");
    if current == "" { return title; }
    if |rules| == 0 { return; }
    var seen: set<Key> := {};
    ghost var g, result := GraphOf(u, rules), Apply(u, rules, title);
    assert rules.Keys - seen == rules.Keys;
    while true
      invariant g.Walk(current, rules.Keys - seen) == result
      decreases rules.Keys - seen
    {
      var key := NormalizeKey(u, current);
      assert key == g.key(current);
      if key !in rules { return; }
      if key in seen { return; }
      assert rules.Keys - (seen + {key}) == (rules.Keys - seen) - {key};
      seen := seen + {key};
      var next := TrimSpace(rules[key]);
      BlankTargets(rules[key]);
      if next == "" { return; }
      current := Join(Fields(next), " ");
      assert current == g.target[key];
    }
  }

  /** The result is where the rules first stop when they are followed from the collapsed title: at a title without a rule, or
      at one whose key was met before. */
  lemma ApplyStopsFirst(u: Unicode, rules: Rules, title: string)
    ensures if Collapse(title) == "" then Apply(u, rules, title) == title
            else exists n :: GraphOf(u, rules).EndsAt(Collapse(title), n, Apply(u, rules, title))
  {
    var g, current := GraphOf(u, rules), Collapse(title);
    assert g.target.Keys == rules.Keys && g.Unseen([]) == rules.Keys;
    if current != "" {
      if |rules| == 0 {
        assert rules.Keys == {};
      }
      g.WalkStops(current, current, []);
      assert Apply(u, rules, title) == g.Walk(current, g.Unseen([]));
    }
  }

  /** A rule is read from source and target around the first bar, unless one is blank or they are equal up to case. */
  lemma RuleIs(u: Unicode, source: string, target: string)
    requires '|' !in source && Trimmed(source) && Trimmed(target)
    ensures RuleOf(u, source + ['|'] + target) ==
            if source == "" || target == "" || u.equalFold(source, target) then None else Some((source, target))
    ensures RuleOf(u, source) == None
  {
    var raw := source + ['|'] + target;
    assert raw[0] == if source == "" then '|' else source[0];
    assert raw[|raw| - 1] == if target == "" then '|' else target[|target| - 1];
    TrimIsTrimmed(raw);
    FindIn(source, '|', target);
    assert raw[..|source|] == source && raw[|source| + 1..] == target;
    TrimIsTrimmed(source);
    TrimIsTrimmed(target);
    assert forall i :: 0 <= i < |source| ==> source[i] in source;
  }

  /** Applying the rules is idempotent on every title and for every rule graph, self-loops and cycles included. */
  lemma ApplyIsIdempotent(u: Unicode, rules: Rules, title: string)
    ensures Apply(u, rules, Apply(u, rules, title)) == Apply(u, rules, title)
  {
    var current := Collapse(title);
    CollapseTwice(title);
    if current != "" && |rules| > 0 {
      WalkIsCollapsed(u, rules, current);
      var g := GraphOf(u, rules);
      var r := g.Walk(current, rules.Keys);
      calc {
        Apply(u, rules, Apply(u, rules, title));
        { ApplyWalks(u, rules, title, current); }
        Apply(u, rules, r);
        { ApplyWalks(u, rules, r, r); }
        g.Walk(r, rules.Keys);
        { g.WalkFromTheStart(current); assert g.target.Keys == rules.Keys; }
        r;
      }
    }
  }

  lemma ApplyWalks(u: Unicode, rules: Rules, title: string, current: string)
    requires Collapse(title) == current != "" && |rules| > 0
    ensures Apply(u, rules, title) == GraphOf(u, rules).Walk(current, rules.Keys)
  {
  }

  lemma WalkIsCollapsed(u: Unicode, rules: Rules, current: string)
    requires Collapse(current) == current != ""
    ensures var r := GraphOf(u, rules).Walk(current, rules.Keys); Collapse(r) == r != ""
  {
    var g := GraphOf(u, rules);
    assert g.target.Keys == rules.Keys;
    g.WalkFromTheStart(current);
    var r := g.Walk(current, rules.Keys);
    if r != current {
      var k :| g.Leads(k) && r == g.target[k];
      CollapseTwice(rules[k]);
    }
  }

  /** What the rules leave has no rule of its own if and only if following them from the title comes to an end, that
      is, runs into no cycle (and, which parsing rules out, into no blank target). A blank title is left alone, so there
      it depends on whether a rule has a source without letters and digits. */
  lemma ResultHasNoRuleIffChainEnds(u: Unicode, rules: Rules, title: string)
    ensures NormalizeKey(u, Apply(u, rules, title)) !in rules <==>
            if Collapse(title) == "" then "" !in rules else GraphOf(u, rules).ComesToAnEnd(NormalizeKey(u, Collapse(title)))
  {
    var g, current := GraphOf(u, rules), Collapse(title);
    assert g.target.Keys == rules.Keys;
    BlankTargets(title);
    if current != "" {
      g.EndsIff(current);
      assert g.key(g.Walk(current, rules.Keys)) == NormalizeKey(u, g.Walk(current, rules.Keys));
      assert g.key(current) == NormalizeKey(u, current);
      if |rules| == 0 {
        assert rules.Keys == {};
      }
    }
  }

  /** On a cycle of two the walk comes back to its title, whose key has a rule. */
  lemma CycleLeavesARule(u: Unicode, a: string, b: string)
    requires Collapse(a) == a != "" && Collapse(b) == b != "" && NormalizeKey(u, a) != NormalizeKey(u, b)
    ensures var rules := map[NormalizeKey(u, a) := b, NormalizeKey(u, b) := a];
            Apply(u, rules, a) == a && NormalizeKey(u, Apply(u, rules, a)) in rules
  {
    var rules := map[NormalizeKey(u, a) := b, NormalizeKey(u, b) := a];
    var g, k, l := GraphOf(u, rules), NormalizeKey(u, a), NormalizeKey(u, b);
    assert rules.Keys == {k, l} && g.key(a) == k && g.key(b) == l && g.target[k] == b && g.target[l] == a;
    assert rules.Keys - {k} == {l} && {l} - {l} == {};
    assert g.Walk(a, {}) == a;
    assert g.Walk(b, {l}) == a;
  }

  /** A rule from a source without letters and digits has the key of blank titles: these are left alone all the same,
      although the chain from their key ends. */
  lemma BlankTitleKeepsItsRule(u: Unicode)
    requires !u.isLetterOrDigit(u.lower('!')) && u.isLetterOrDigit(u.lower('X')) && !u.equalFold("!!!", "X")
    ensures RuleOf(u, "!!!|X") == Some(("!!!", "X")) && NormalizeKey(u, "!!!") == ""
    ensures var rules := map["" := "X"];
            NormalizeKey(u, Apply(u, rules, "")) in rules && GraphOf(u, rules).ComesToAnEnd("")
  {
    BlankTitleRule(u);
    var rules := map["" := "X"];
    BlankTargets("");
    var g := GraphOf(u, rules);
    OneLetterKey(u, 'X');
    assert g.target[""] == "X" && g.key("X") == NormalizeKey(u, "X") == [u.lower('X')];
    assert g.Hops("", 0) == Some("") && g.Hops("", 1) == Some([u.lower('X')]);
  }

  lemma OneLetterKey(u: Unicode, c: char)
    requires !IsSpace(c) && u.isLetterOrDigit(u.lower(c))
    ensures Collapse([c]) == [c] && NormalizeKey(u, [c]) == [u.lower(c)]
  {
    OneWord([c]);
    TrimIsTrimmed([c]);
    var lowered := [u.lower(c)];
    assert ToLower(u.lower, [c]) == lowered;
    var none: string := "";
    assert lowered[1..] == none && Keep(u, none) == none;
    assert Keep(u, lowered) == [lowered[0]] + Keep(u, lowered[1..]) == lowered;
  }

  lemma MarksAreCut()
    ensures TrimSpace("!!!|X") == "!!!|X" && TrimSpace("!!!") == "!!!" && TrimSpace("X") == "X"
    ensures Find("!!!|X", '|') == 3 && "!!!|X"[..3] == "!!!" && "!!!|X"[4..] == "X"
  {
    TrimIsTrimmed("!!!|X");
    TrimIsTrimmed("!!!");
    TrimIsTrimmed("X");
    FindIn("!!!", '|', "X");
    assert "!!!" + ['|'] + "X" == "!!!|X";
  }

  lemma BlankTitleRule(u: Unicode)
    requires !u.isLetterOrDigit(u.lower('!')) && !u.equalFold("!!!", "X")
    ensures RuleOf(u, "!!!|X") == Some(("!!!", "X")) && NormalizeKey(u, "!!!") == ""
  {
    MarksAreCut();
    OneWord("!!!");
    var l := u.lower('!');
    var none: string := "";
    assert ToLower(u.lower, "!!!") == [l, l, l] && [l, l, l][1..] == [l, l] && [l, l][1..] == [l] && [l][1..] == none;
    assert Keep(u, none) == none && Keep(u, [l]) == none && Keep(u, [l, l]) == none && Keep(u, [l, l, l]) == none;
  }
}
