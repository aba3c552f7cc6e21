/** One shard of a map that is buffered in memory and spilled to a file (sourceproc/sorting.go). `merge` joins an
    entry with a later one of the same title; `keep` is what a file keeps of an entry. */
module Shards {
  import opened BufferPools
  import Sorts

  const FLUSH_AT := 250

  datatype Ops<!V> = Ops(merge: (V, V) -> V, keep: V -> V)

  /** What a file keeps of a map of entries. */
  function Kept<V>(o: Ops<V>, entries: map<string, V>): map<string, V> { map t | t in entries :: o.keep(entries[t]) }

  /** The entries of a file with those of a buffer merged in. */
  function Join<V>(o: Ops<V>, disk: map<string, V>, buffer: map<string, V>): map<string, V> {
    map t | t in disk.Keys + buffer.Keys ::
      if t !in buffer then disk[t] else if t in disk then o.merge(disk[t], buffer[t]) else buffer[t]
  }

  /** The same titles, with entries that are alike in all that spilling never changes. */
  ghost predicate AllLike<V>(k: Kind<V>, stored: map<string, V>, m: map<string, V>) {
    stored.Keys == m.Keys && forall t :: t in m ==> k.like(stored[t], m[t])
  }

  /** Writing to a file twice keeps no less than writing once. */
  ghost predicate KeepsOnce<V(!new)>(o: Ops<V>) { forall v {:trigger o.keep(o.keep(v))} :: o.keep(o.keep(v)) == o.keep(v) }

  /** The titles the shard knows, the entries in memory, and its file, if there is one. */
  datatype Shard<V(!new)> = Shard(index: set<string>, buffer: map<string, V>, file: Option<map<string, V>>) {

    function OnDisk(): map<string, V> { if file.Some? then file.value else map[] }

    /** Each known title is in memory or on disk, not both, and what is on disk is as files keep it. */
    ghost predicate Consistent(o: Ops<V>) {
      && (forall t :: t in index <==> t in buffer || t in OnDisk())
      && (forall t :: t in buffer ==> t !in OnDisk())
      && (forall t :: t in OnDisk() ==> o.keep(OnDisk()[t]) == OnDisk()[t])
    }

    ghost predicate Valid(o: Ops<V>) { Consistent(o) && |buffer| < FLUSH_AT }

    function Stored(t: string): V
      requires t in buffer || t in OnDisk()
    {
      if t in buffer then buffer[t] else OnDisk()[t]
    }

    /** flushShard: the buffer goes into the file. */
    function Flush(o: Ops<V>): Shard<V> {
      if |buffer| == 0 then this else Shard(index, map[], Some(Kept(o, Join(o, OnDisk(), buffer))))
    }

    /** handleExisting: a title that is known already. */
    function Existing(o: Ops<V>, t: string, s: V): Shard<V> {
      if t in buffer then this.(buffer := buffer[t := o.merge(buffer[t], s)])
      else this.(file := Some(Kept(o, OnDisk()[t := if t in OnDisk() then o.merge(OnDisk()[t], s) else s])))
    }

    function Add(o: Ops<V>, t: string, s: V): Shard<V> {
      if t in index then Existing(o, t, s)
      else
        if |Grow(t, s).buffer| >= FLUSH_AT then Grow(t, s).Flush(o) else Grow(t, s)
    }

    /** `after` is this shard with everything in its file. */
    ghost predicate Spilled(o: Ops<V>, after: Shard<V>) {
      && Consistent(o) && after.Valid(o) && after.index == index && after.buffer == map[]
      && (forall t :: t in index ==> after.Stored(t) == o.keep(Stored(t)))
    }

    lemma FlushKeeps(o: Ops<V>)
      requires Consistent(o) && KeepsOnce(o)
      ensures Spilled(o, Flush(o))
    {
      if |buffer| == 0 {
        assert buffer == map[];
      }
    }

    lemma ExistingKeeps(o: Ops<V>, t: string, s: V)
      requires Valid(o) && KeepsOnce(o) && t in index
      ensures Existing(o, t, s).Valid(o) && Existing(o, t, s).index == index
      ensures IsVersion(o, Existing(o, t, s).Stored(t), o.merge(Stored(t), s))
      ensures forall u :: u in index && u != t ==> Existing(o, t, s).Stored(u) == Stored(u)
    {
      var sh := Existing(o, t, s);
      if t in buffer {
        assert sh.buffer.Keys == buffer.Keys;
        assert |sh.buffer| == |sh.buffer.Keys| == |buffer.Keys| == |buffer|;
      } else {
        assert sh.OnDisk().Keys == OnDisk().Keys;
        assert sh.OnDisk()[t] == o.keep(o.merge(OnDisk()[t], s));
      }
    }

    function Grow(t: string, s: V): Shard<V> { this.(buffer := buffer[t := s], index := index + {t}) }

    lemma GrowKeeps(o: Ops<V>, t: string, s: V)
      requires Consistent(o) && t !in index
      ensures Grow(t, s).Consistent(o) && Grow(t, s).Stored(t) == s
      ensures forall u :: u in index ==> Grow(t, s).Stored(u) == Stored(u)
    {
      assert Grow(t, s).buffer.Keys == buffer.Keys + {t};
    }

    /** `after` is this shard with s filed under t: the title is known, merged if it was known before; nothing else
        changes, except that entries may have gone to the file. */
    ghost predicate Grew(o: Ops<V>, t: string, s: V, after: Shard<V>) {
      && Valid(o) && after.Valid(o) && after.index == index + {t}
      && IsVersion(o, after.Stored(t), if t in index then o.merge(Stored(t), s) else s)
      && (forall u :: u in index && u != t ==> IsVersion(o, after.Stored(u), Stored(u)))
    }

    lemma AddKeeps(o: Ops<V>, t: string, s: V)
      requires Valid(o) && KeepsOnce(o)
      ensures Grew(o, t, s, Add(o, t, s))
    {
      if t in index {
        ExistingKeeps(o, t, s);
        assert index + {t} == index;
      } else {
        GrowKeeps(o, t, s);
        if |Grow(t, s).buffer| >= FLUSH_AT {
          Grow(t, s).FlushKeeps(o);
        }
      }
    }
  }

  /** `v` is entry `w` as it is in memory, or as it comes back from a file. */
  predicate IsVersion<V(==)>(o: Ops<V>, v: V, w: V) { v == w || v == o.keep(w) }

  /** What the manager needs to know of its entries: their title, how they merge and what files keep of them.
      `near(v, w)` says that v may stand for w; `settles(w, s)` that it still may after both have merged s;
      `like(v, w)` that v is w in all that spilling never changes. */
  datatype Kind<!V> = Kind(title: V -> string, ops: Ops<V>, near: (V, V) -> bool, settles: (V, V) -> bool, like: (V, V) -> bool)

  ghost predicate Lawful<V(!new)>(k: Kind<V>) {
    KeepsOnce(k.ops) && forall v, w, s {:trigger Law(k, v, w, s)} :: Law(k, v, w, s)
  }

  /** What may stand for an entry still may when it comes back from a file, and when both merge s, if that settles; what
      is like an entry always still is. */
  predicate Law<V(==)>(k: Kind<V>, v: V, w: V, s: V) {
    && k.near(v, v)
    && (k.near(v, w) ==> k.near(k.ops.keep(v), w) && k.ops.keep(v) == k.ops.keep(w))
    && (k.near(v, w) && k.settles(w, s) ==> k.near(k.ops.merge(v, s), k.ops.merge(w, s)))
    && k.like(v, v)
    && (k.like(v, w) ==> k.like(k.ops.keep(v), w) && k.like(k.ops.merge(v, s), k.ops.merge(w, s)))
  }

  function File<V>(k: Kind<V>, m: map<string, V>, s: V): map<string, V> {
    m[k.title(s) := if k.title(s) in m then k.ops.merge(m[k.title(s)], s) else s]
  }

  /** The entries of one title, in the order of arrival. */
  function Those<V>(k: Kind<V>, arrivals: seq<V>, t: string): seq<V> {
    if arrivals == [] then []
    else
      var before, s := Those(k, arrivals[..|arrivals| - 1], t), arrivals[|arrivals| - 1];
      if k.title(s) == t then before + [s] else before
  }

  /** Entries merged one after the other. */
  function MergeAll<V>(o: Ops<V>, xs: seq<V>): V
    requires xs != []
  {
    if |xs| == 1 then xs[0] else o.merge(MergeAll(o, xs[..|xs| - 1]), xs[|xs| - 1])
  }

  /** The plain map that the manager stands for: entries by title, merged in the order of arrival. */
  function Fold<V>(k: Kind<V>, arrivals: seq<V>): map<string, V> {
    if arrivals == [] then map[] else File(k, Fold(k, arrivals[..|arrivals| - 1]), arrivals[|arrivals| - 1])
  }

  /** Each title has exactly its own arrivals, merged in order. */
  lemma {:induction false} FoldIs<V>(k: Kind<V>, arrivals: seq<V>, t: string)
    ensures t in Fold(k, arrivals) <==> Those(k, arrivals, t) != []
    ensures t in Fold(k, arrivals) ==> Fold(k, arrivals)[t] == MergeAll(k.ops, Those(k, arrivals, t))
  {
    if arrivals != [] {
      FoldIs(k, arrivals[..|arrivals| - 1], t);
      var before, s := Those(k, arrivals[..|arrivals| - 1], t), arrivals[|arrivals| - 1];
      assert (before + [s])[..|before|] == before;
    }
  }

  predicate Settles<V>(k: Kind<V>, m: map<string, V>, s: V) { k.title(s) in m ==> k.settles(m[k.title(s)], s) }

  /** Every merge of the fold settles. */
  predicate Settled<V>(k: Kind<V>, arrivals: seq<V>) {
    arrivals == [] ||
    (Settled(k, arrivals[..|arrivals| - 1]) && Settles(k, Fold(k, arrivals[..|arrivals| - 1]), arrivals[|arrivals| - 1]))
  }

  const MUTEX_SHARDS := 4096

  function Sharding(hash: string -> nat): string -> nat { t => hash(t) % MUTEX_SHARDS }

  function ShardAt<V(!new)>(shards: map<nat, Shard<V>>, i: nat): Shard<V> {
    if i in shards then shards[i] else Shard({}, map[], None)
  }

  ghost predicate Knows<V(!new)>(shardOf: string -> nat, shards: map<nat, Shard<V>>, t: string) {
    t in ShardAt(shards, shardOf(t)).index
  }

  /** A shard is as it should be and holds only titles that belong there. */
  ghost predicate Homed<V(!new)>(k: Kind<V>, shardOf: string -> nat, shards: map<nat, Shard<V>>, i: nat) {
    && (i in shards ==> i < MUTEX_SHARDS)
    && ShardAt(shards, i).Valid(k.ops) && (forall t :: t in ShardAt(shards, i).index ==> shardOf(t) == i)
  }

  ghost predicate StandsFor<V(!new)>(k: Kind<V>, sh: Shard<V>, t: string, entry: V, settled: bool) {
    && t in sh.index && sh.Consistent(k.ops)
    && k.like(sh.Stored(t), entry) && (settled ==> k.near(sh.Stored(t), entry))
  }

  /** The title is known if the plain map m has it, and it is stored as an entry that is like the one of m, and may stand
      for it as long as every merge has settled. */
  ghost predicate Faithful<V(!new)>(k: Kind<V>, shardOf: string -> nat, shards: map<nat, Shard<V>>, m: map<string, V>,
                                    settled: bool, t: string)
  {
    && (Knows(shardOf, shards, t) <==> t in m)
    && (t in m ==> StandsFor(k, ShardAt(shards, shardOf(t)), t, m[t], settled))
  }

  /** The shards partition the titles of the plain map and store what it says. */
  ghost predicate Represents<V(!new)>(k: Kind<V>, shardOf: string -> nat, shards: map<nat, Shard<V>>,
                               m: map<string, V>, settled: bool) {
    && (forall i {:trigger Homed(k, shardOf, shards, i)} :: Homed(k, shardOf, shards, i))
    && (forall t {:trigger Faithful(k, shardOf, shards, m, settled, t)} :: Faithful(k, shardOf, shards, m, settled, t))
  }

  /** One shard: what stands for the plain map still does after s is filed under t. */
  lemma GrewStandsFor<V(!new)>(k: Kind<V>, sh: Shard<V>, t: string, s: V, sh': Shard<V>, u: string, entry: V,
                               settled: bool, settled': bool)
    requires Lawful(k) && sh.Grew(k.ops, t, s, sh')
    requires u in sh.index ==> StandsFor(k, sh, u, entry, settled)
    requires settled' ==> settled && (u == t && t in sh.index ==> k.settles(entry, s))
    requires u == t || u in sh.index
    ensures StandsFor(k, sh', u, if u != t then entry else if t in sh.index then k.ops.merge(entry, s) else s, settled')
  {
    assert Law(k, s, s, s);
    if u in sh.index {
      assert Law(k, sh.Stored(u), entry, s);
      assert Law(k, k.ops.merge(sh.Stored(u), s), k.ops.merge(entry, s), s);
    }
  }

  lemma GrewKnows<V(!new)>(k: Kind<V>, shardOf: string -> nat,
                    shards: map<nat, Shard<V>>, t: string, s: V, sh': Shard<V>, u: string)
    requires ShardAt(shards, shardOf(t)).Grew(k.ops, t, s, sh')
    ensures Knows(shardOf, shards[shardOf(t) := sh'], u) <==> Knows(shardOf, shards, u) || u == t
  {
  }

  lemma GrewFaithful<V(!new)>(k: Kind<V>, shardOf: string -> nat, shards: map<nat, Shard<V>>, m: map<string, V>,
                              settled: bool, s: V, sh': Shard<V>, u: string)
    requires Lawful(k) && ShardAt(shards, shardOf(k.title(s))).Grew(k.ops, k.title(s), s, sh')
    requires Faithful(k, shardOf, shards, m, settled, u) && Faithful(k, shardOf, shards, m, settled, k.title(s))
    ensures Faithful(k, shardOf, shards[shardOf(k.title(s)) := sh'], File(k, m, s), settled && Settles(k, m, s), u)
  {
    var t := k.title(s);
    var settled' := settled && Settles(k, m, s);
    GrewKnows(k, shardOf, shards, t, s, sh', u);
    if shardOf(u) == shardOf(t) {
      if u == t || u in m {
        GrewStandsFor(k, ShardAt(shards, shardOf(t)), t, s, sh', u, if u in m then m[u] else s, settled, settled');
        assert StandsFor(k, sh', u, File(k, m, s)[u], settled');
      }
      assert ShardAt(shards[shardOf(t) := sh'], shardOf(u)) == sh';
    } else {
      Unsettle(k, ShardAt(shards, shardOf(u)), u, m, settled, settled');
      assert ShardAt(shards[shardOf(t) := sh'], shardOf(u)) == ShardAt(shards, shardOf(u));
      assert u in File(k, m, s) ==> u in m && File(k, m, s)[u] == m[u];
    }
  }

  lemma Unsettle<V(!new)>(k: Kind<V>, sh: Shard<V>, t: string, m: map<string, V>, settled: bool, settled': bool)
    requires (settled' ==> settled) && (t in m ==> StandsFor(k, sh, t, m[t], settled))
    ensures t in m ==> StandsFor(k, sh, t, m[t], settled')
  {
  }

  lemma GrewHomed<V(!new)>(k: Kind<V>, shardOf: string -> nat,
                    shards: map<nat, Shard<V>>, t: string, s: V, sh': Shard<V>, i: nat)
    requires shardOf(t) < MUTEX_SHARDS && ShardAt(shards, shardOf(t)).Grew(k.ops, t, s, sh')
    requires Homed(k, shardOf, shards, i)
    ensures Homed(k, shardOf, shards[shardOf(t) := sh'], i)
  {
  }

  lemma GrewRepresents<V(!new)>(k: Kind<V>, shardOf: string -> nat, shards: map<nat, Shard<V>>, m: map<string, V>,
                                settled: bool, s: V, sh': Shard<V>)
    requires Lawful(k) && Represents(k, shardOf, shards, m, settled) && shardOf(k.title(s)) < MUTEX_SHARDS
    requires ShardAt(shards, shardOf(k.title(s))).Grew(k.ops, k.title(s), s, sh')
    ensures Represents(k, shardOf, shards[shardOf(k.title(s)) := sh'], File(k, m, s), settled && Settles(k, m, s))
  {
    var t := k.title(s);
    var shards', m', settled' := shards[shardOf(t) := sh'], File(k, m, s), settled && Settles(k, m, s);
    forall i: nat
      ensures Homed(k, shardOf, shards', i)
    {
      assert Homed(k, shardOf, shards, i);
      GrewHomed(k, shardOf, shards, t, s, sh', i);
    }
    forall u
      ensures Faithful(k, shardOf, shards', m', settled', u)
    {
      assert Faithful(k, shardOf, shards, m, settled, u) && Faithful(k, shardOf, shards, m, settled, t);
      GrewFaithful(k, shardOf, shards, m, settled, s, sh', u);
    }
  }

  /** An entry with the title it is filed under. */
  datatype Filed<V> = Filed(title: string, entry: V)

  class SortingManager<V(!new, ==)> {
    const kind: Kind<V>
    const hash: string -> nat
    var shards: map<nat, Shard<V>>
    ghost var arrivals: seq<V>
    ghost var plain: map<string, V>   // the plain map, and whether every merge so far has settled
    ghost var settled: bool

    ghost predicate Valid()
      reads this
    {
      && plain == Fold(kind, arrivals) && settled == Settled(kind, arrivals)
      && Represents(kind, Sharding(hash), shards, plain, settled)
    }

    constructor (kind: Kind<V>, hash: string -> nat)
      ensures Valid() && arrivals == [] && this.kind == kind && this.hash == hash
    {
      this.kind, this.hash := kind, hash;
      shards, arrivals, plain, settled := map[], [], map[], true;
    }

    /** readShard: no file reads as no entries. */
    method ReadShard(i: nat) returns (entries: map<string, V>)
      requires i in shards
      ensures entries == shards[i].OnDisk()
    {
      entries := if shards[i].file.Some? then shards[i].file.value else map[];
    }

    /** writeShard: what the file keeps of the entries. */
    method WriteShard(i: nat, entries: map<string, V>)
      requires i in shards
      modifies this`shards
      ensures shards == old(shards)[i := old(shards[i]).(file := Some(Kept(kind.ops, entries)))]
    {
      shards := shards[i := shards[i].(file := Some(Kept(kind.ops, entries)))];
    }

    method HandleExisting(i: nat, t: string, s: V)
      requires i in shards && shards[i].Consistent(kind.ops)
      modifies this`shards
      ensures shards == old(shards)[i := old(shards[i]).Existing(kind.ops, t, s)]
    {
      var sh := shards[i];
      if t in sh.buffer {
        shards := shards[i := sh.(buffer := sh.buffer[t := kind.ops.merge(sh.buffer[t], s)])];
        return;
      }
      var entries := ReadShard(i);
      if t in entries {
        entries := entries[t := kind.ops.merge(entries[t], s)];
      } else {
        entries := entries[t := s];
      }
      WriteShard(i, entries);
    }

    /** The loop of flushShard. */
    method JoinBuffer(disk: map<string, V>, buffer: map<string, V>) returns (entries: map<string, V>)
      ensures entries == Join(kind.ops, disk, buffer)
    {
      entries := disk;
      var todo := buffer.Keys;
      while todo != {}
        invariant todo <= buffer.Keys && entries.Keys == disk.Keys + (buffer.Keys - todo)
        invariant forall t :: t in entries ==>
                    entries[t] == if t in buffer && t !in todo then
                                    (if t in disk then kind.ops.merge(disk[t], buffer[t]) else buffer[t]) else disk[t]
      {
        var t :| t in todo;
        todo := todo - {t};
        if t in entries {
          entries := entries[t := kind.ops.merge(entries[t], buffer[t])];
          continue;
        }
        entries := entries[t := buffer[t]];
      }
    }

    method FlushShard(i: nat)
      requires i in shards && shards[i].Consistent(kind.ops)
      modifies this`shards
      ensures shards == old(shards)[i := old(shards[i]).Flush(kind.ops)]
    {
      var sh := shards[i];
      if |sh.buffer| == 0 {
        assert shards[i := sh] == shards;
        return;
      }
      var entries := ReadShard(i);
      entries := JoinBuffer(entries, sh.buffer);
      WriteShard(i, entries);
      shards := shards[i := shards[i].(buffer := map[])];
    }

    /** The end of the closure of AddToSorter: a title that is new to the shard. */
    method AddNew(i: nat, t: string, s: V)
      requires i in shards && shards[i].Valid(kind.ops) && t !in shards[i].index
      modifies this`shards
      ensures shards == old(shards)[i := old(shards[i]).Add(kind.ops, t, s)]
    {
      ghost var sh := shards[i];
      sh.GrowKeeps(kind.ops, t, s);
      shards := shards[i := shards[i].(buffer := shards[i].buffer[t := s])];
      shards := shards[i := shards[i].(index := shards[i].index + {t})];
      assert shards[i] == sh.Grow(t, s);
      if |shards[i].buffer| >= FLUSH_AT {
        FlushShard(i);
      }
    }

    /** The closure of AddToSorter, once the shard exists. */
    method AddToExisting(i: nat, t: string, s: V)
      requires i in shards && shards[i].Valid(kind.ops)
      modifies this`shards
      ensures shards == old(shards)[i := old(shards[i]).Add(kind.ops, t, s)]
    {
      if t in shards[i].index {
        HandleExisting(i, t, s);
        return;
      }
      if shards[i].file.Some? {
        var entries := ReadShard(i);
        var known := shards[i].index + entries.Keys;
        assert known == shards[i].index;
        shards := shards[i := shards[i].(index := known)];
        assert shards == old(shards);
        if t in shards[i].index {
          assert false; // handleExisting once more: but every title on file is in the index already
        }
      }
      AddNew(i, t, s);
    }

    /** The closure of AddToSorter. */
    method AddToShard(i: nat, t: string, s: V)
      requires ShardAt(shards, i).Valid(kind.ops)
      modifies this`shards
      ensures shards == old(shards)[i := ShardAt(old(shards), i).Add(kind.ops, t, s)]
    {
      if i !in shards {
        shards := shards[i := Shard({}, map[], None)];
      }
      AddToExisting(i, t, s);
    }

    /** AddToSorter */
    method AddToSorter(s: V)
      requires Lawful(kind) && Valid()
      modifies this
      ensures Valid() && arrivals == old(arrivals) + [s]
    {
      AddRepresents(kind, Sharding(hash), shards, plain, settled, s);
      AddToShard(Sharding(hash)(kind.title(s)), kind.title(s), s);
      Record(s);
    }

    /** What arrived, for the record. */
    ghost method Record(s: V)
      requires plain == Fold(kind, arrivals) && settled == Settled(kind, arrivals)
      requires Represents(kind, Sharding(hash), shards, File(kind, plain, s), settled && Settles(kind, plain, s))
      modifies this`arrivals, this`plain, this`settled
      ensures Valid() && arrivals == old(arrivals) + [s]
    {
      FoldOneMore(kind, arrivals, s);
      arrivals, plain, settled := arrivals + [s], File(kind, plain, s), settled && Settles(kind, plain, s);
    }

    /** The first loop of GetSortedEntries: every shard goes to its file. */
    method FlushAll()
      requires forall i :: i in shards ==> shards[i].Consistent(kind.ops)
      modifies this`shards
      ensures shards == After(kind.ops, old(shards))
    {
      ghost var was := shards;
      for i := 0 to MUTEX_SHARDS
        invariant shards == UpTo(Flusher(kind.ops), was, i)
      {
        UpToAt(Flusher(kind.ops), was, i, i);
        if i in shards {
          FlushShard(i);
        }
      }
    }

    method Spill() returns (ghost stored: map<string, V>)
      requires Lawful(kind) && Valid()
      modifies this`shards
      ensures Valid() && Apart(Files(shards), Sharding(hash))
      ensures stored == Union(Files(shards), MUTEX_SHARDS) && AllLike(kind, stored, plain)
      ensures settled ==> stored == Kept(kind.ops, plain)
    {
      FlushedRepresents(kind, Sharding(hash), shards, plain, settled);
      AllInFiles(kind, Sharding(hash), After(kind.ops, shards), plain, settled);
      AllConsistent(kind, Sharding(hash), shards);
      FlushAll();
      stored := Union(Files(shards), MUTEX_SHARDS);
    }

    /** GetSortedEntries: whatever was spilled when, it lists every title once, and what it lists for a title is what
        files keep of the entry of the plain map; if the comparison is a strict weak order, in that order. */
    method GetSortedEntries(before: (V, V) -> bool) returns (entries: seq<Filed<V>>, ghost stored: map<string, V>)
      requires Lawful(kind) && Valid()
      modifies this`shards
      ensures Valid() && IsListing(entries, stored) && AllLike(kind, stored, Fold(kind, arrivals))
      ensures Settled(kind, arrivals) ==> stored == Kept(kind.ops, Fold(kind, arrivals))
      ensures Sorts.StrictWeakOrder(ByEntry(before), 0, entries) ==> Sorts.Sorted(ByEntry(before), 0, entries)
    {
      stored := Spill();
      entries := CollectFiles(Files(shards), Sharding(hash));
      entries := SortEntries(entries, before, stored);
    }
  }

  /** All the entries go through the manager, and come out in order. */
  method Compile<V(!new, ==)>(kind: Kind<V>, hash: string -> nat, before: (V, V) -> bool, arrivals: seq<V>)
    returns (entries: seq<Filed<V>>, ghost stored: map<string, V>)
    requires Lawful(kind)
    ensures IsListing(entries, stored) && AllLike(kind, stored, Fold(kind, arrivals))
    ensures Settled(kind, arrivals) ==> stored == Kept(kind.ops, Fold(kind, arrivals))
    ensures Sorts.StrictWeakOrder(ByEntry(before), 0, entries) ==> Sorts.Sorted(ByEntry(before), 0, entries)
  {
    var manager := new SortingManager(kind, hash);
    for i := 0 to |arrivals|
      invariant manager.Valid() && manager.kind == kind && manager.arrivals == arrivals[..i] && fresh(manager)
    {
      manager.AddToSorter(arrivals[i]);
    }
    assert arrivals[..|arrivals|] == arrivals;
    entries, stored := manager.GetSortedEntries(before);
  }

  /** The entries of one file, in whatever order, are added to the list. */
  method CollectFile<V(!new)>(file: map<string, V>, entries: seq<Filed<V>>)
    returns (more: seq<Filed<V>>, ghost listed: seq<Filed<V>>)
    ensures more == entries + listed && IsListing(listed, file)
  {
    more, listed := entries, [];
    var todo := file.Keys;
    ghost var done := {};
    while todo != {}
      invariant done + todo == file.Keys && done !! todo && more == entries + listed
      invariant ListsSome(listed, file, done)
    {
      var t :| t in todo;
      ListOneMore(listed, file, done, t);
      todo, done := todo - {t}, done + {t};
      more, listed := more + [Filed(t, file[t])], listed + [Filed(t, file[t])];
    }
  }

  /** The second loop of GetSortedEntries. */
  method CollectFiles<V(!new)>(files: map<nat, map<string, V>>, ghost shardOf: string -> nat)
    returns (entries: seq<Filed<V>>)
    requires Apart(files, shardOf)
    ensures IsListing(entries, Union(files, MUTEX_SHARDS))
  {
    entries := [];
    for i := 0 to MUTEX_SHARDS
      invariant IsListing(entries, Union(files, i))
    {
      if i !in files {
        continue;
      }
      ghost var listed, before := [], entries;
      entries, listed := CollectFile(files[i], entries);
      UnionIsApart(files, shardOf, i);
      ListingsJoin(before, Union(files, i), listed, files[i]);
    }
  }

  method SortEntries<V(!new, ==)>(entries: seq<Filed<V>>, before: (V, V) -> bool, ghost m: map<string, V>)
    returns (sorted: seq<Filed<V>>)
    requires IsListing(entries, m)
    ensures IsListing(sorted, m)
    ensures Sorts.StrictWeakOrder(ByEntry(before), 0, sorted) ==> Sorts.Sorted(ByEntry(before), 0, sorted)
  {
    var uses: nat;
    sorted, uses := Sorts.SortSlice(entries, ByEntry(before), 0);
    Sorts.SameMembers(entries, sorted);
  }

  function ByEntry<V>(before: (V, V) -> bool): (nat, Filed<V>, Filed<V>) -> bool {
    (t, a: Filed<V>, b: Filed<V>) => before(a.entry, b.entry)
  }

  function Flusher<V(!new)>(o: Ops<V>): Shard<V> -> Shard<V> { (sh: Shard<V>) => sh.Flush(o) }

  /** What is at the places from 0 to n changed by f, one after the other. */
  function UpTo<T>(f: T -> T, m: map<nat, T>, n: nat): map<nat, T> {
    if n == 0 then m
    else
      var before := UpTo(f, m, n - 1);
      if n - 1 in before then before[n - 1 := f(before[n - 1])] else before
  }

  lemma {:induction false} UpToAt<T>(f: T -> T, m: map<nat, T>, n: nat, i: nat)
    ensures i in UpTo(f, m, n) <==> i in m
    ensures i in m ==> UpTo(f, m, n)[i] == if i < n then f(m[i]) else m[i]
  {
    if n > 0 {
      UpToAt(f, m, n - 1, i);
      UpToAt(f, m, n - 1, n - 1);
    }
  }

  function Files<V(!new)>(shards: map<nat, Shard<V>>): map<nat, map<string, V>> {
    map i | i in shards && shards[i].file.Some? :: shards[i].file.value
  }

  /** No title is in two files. */
  ghost predicate Apart<V>(files: map<nat, map<string, V>>, shardOf: string -> nat) {
    forall i, t :: i in files && t in files[i] ==> shardOf(t) == i
  }

  /** What the files from 0 to n hold. */
  function Union<V>(files: map<nat, map<string, V>>, n: nat): map<string, V> {
    if n == 0 then map[] else if n - 1 in files then Union(files, n - 1) + files[n - 1] else Union(files, n - 1)
  }

  lemma {:induction false} UnionHas<V>(files: map<nat, map<string, V>>, shardOf: string -> nat, n: nat, t: string)
    requires Apart(files, shardOf)
    ensures t in Union(files, n) <==> shardOf(t) < n && shardOf(t) in files && t in files[shardOf(t)]
    ensures t in Union(files, n) ==> Union(files, n)[t] == files[shardOf(t)][t]
  {
    if n > 0 {
      UnionHas(files, shardOf, n - 1, t);
    }
  }

  lemma UnionIsApart<V>(files: map<nat, map<string, V>>, shardOf: string -> nat, i: nat)
    requires Apart(files, shardOf) && i in files
    ensures Union(files, i).Keys !! files[i].Keys
  {
    forall t | t in files[i]
      ensures t !in Union(files, i)
    {
      UnionHas(files, shardOf, i, t);
    }
  }

  /** `entries` lists those titles of the map: every one once, with its entry. */
  ghost predicate ListsSome<V(!new)>(entries: seq<Filed<V>>, m: map<string, V>, titles: set<string>) {
    && |entries| == |titles| && titles <= m.Keys
    && (forall e :: e in entries ==> e.title in titles && m[e.title] == e.entry)
    && (forall t :: t in titles ==> Filed(t, m[t]) in entries)
  }

  /** `entries` lists the map: every entry once, under its title. */
  ghost predicate IsListing<V(!new)>(entries: seq<Filed<V>>, m: map<string, V>) { ListsSome(entries, m, m.Keys) }

  lemma ListOneMore<V(!new)>(entries: seq<Filed<V>>, m: map<string, V>, titles: set<string>, t: string)
    requires ListsSome(entries, m, titles) && t in m && t !in titles
    ensures ListsSome(entries + [Filed(t, m[t])], m, titles + {t})
  {
    var entries' := entries + [Filed(t, m[t])];
    assert forall e :: e in entries' <==> e in entries || e == Filed(t, m[t]);
  }

  lemma ListingsJoin<V(!new)>(a: seq<Filed<V>>, m: map<string, V>, b: seq<Filed<V>>, n: map<string, V>)
    requires IsListing(a, m) && IsListing(b, n) && m.Keys !! n.Keys
    ensures IsListing(a + b, m + n)
  {
    assert (m + n).Keys == m.Keys + n.Keys;
  }

  lemma SpilledFaithful<V(!new)>(k: Kind<V>, shardOf: string -> nat, shards: map<nat, Shard<V>>, m: map<string, V>,
                                 settled: bool, after: map<nat, Shard<V>>, t: string)
    requires Lawful(k) && Faithful(k, shardOf, shards, m, settled, t)
    requires ShardAt(shards, shardOf(t)).Spilled(k.ops, ShardAt(after, shardOf(t)))
    ensures Faithful(k, shardOf, after, m, settled, t)
  {
    if t in m {
      assert Law(k, ShardAt(shards, shardOf(t)).Stored(t), m[t], m[t]);
    }
  }

  /** Every shard flushed. */
  function After<V(!new)>(o: Ops<V>, shards: map<nat, Shard<V>>): map<nat, Shard<V>> { UpTo(Flusher(o), shards, MUTEX_SHARDS) }

  lemma SpilledAt<V(!new)>(k: Kind<V>, shardOf: string -> nat, shards: map<nat, Shard<V>>, i: nat)
    requires KeepsOnce(k.ops) && Homed(k, shardOf, shards, i)
    ensures i in After(k.ops, shards) <==> i in shards
    ensures ShardAt(shards, i).Spilled(k.ops, ShardAt(After(k.ops, shards), i))
    ensures Homed(k, shardOf, After(k.ops, shards), i)
  {
    UpToAt(Flusher(k.ops), shards, MUTEX_SHARDS, i);
    ShardAt(shards, i).FlushKeeps(k.ops);
  }

  /** Flushing every shard leaves what stands for the plain map. */
  lemma FlushedRepresents<V(!new)>(k: Kind<V>, shardOf: string -> nat, shards: map<nat, Shard<V>>,
                            m: map<string, V>, settled: bool)
    requires Lawful(k) && Represents(k, shardOf, shards, m, settled)
    ensures Represents(k, shardOf, After(k.ops, shards), m, settled)
    ensures forall i: nat :: ShardAt(After(k.ops, shards), i).buffer == map[]
  {
    forall i: nat
      ensures Homed(k, shardOf, After(k.ops, shards), i) && ShardAt(After(k.ops, shards), i).buffer == map[]
    {
      assert Homed(k, shardOf, shards, i);
      SpilledAt(k, shardOf, shards, i);
    }
    forall t
      ensures Faithful(k, shardOf, After(k.ops, shards), m, settled, t)
    {
      assert Homed(k, shardOf, shards, shardOf(t)) && Faithful(k, shardOf, shards, m, settled, t);
      SpilledAt(k, shardOf, shards, shardOf(t));
      SpilledFaithful(k, shardOf, shards, m, settled, After(k.ops, shards), t);
    }
  }

  lemma FilesApart<V(!new)>(k: Kind<V>, shardOf: string -> nat, shards: map<nat, Shard<V>>)
    requires forall i {:trigger Homed(k, shardOf, shards, i)} :: Homed(k, shardOf, shards, i)
    ensures Apart(Files(shards), shardOf)
  {
    forall i, t | i in Files(shards) && t in Files(shards)[i]
      ensures shardOf(t) == i
    {
      assert Homed(k, shardOf, shards, i);
    }
  }

  lemma InFiles<V(!new)>(k: Kind<V>, shardOf: string -> nat, shards: map<nat, Shard<V>>,
                  m: map<string, V>, settled: bool, t: string)
    requires Lawful(k) && Homed(k, shardOf, shards, shardOf(t)) && Faithful(k, shardOf, shards, m, settled, t)
    requires Apart(Files(shards), shardOf) && ShardAt(shards, shardOf(t)).buffer == map[]
    ensures t in Union(Files(shards), MUTEX_SHARDS) <==> t in m
    ensures t in m ==> k.like(Union(Files(shards), MUTEX_SHARDS)[t], m[t])
    ensures settled && t in m ==> Union(Files(shards), MUTEX_SHARDS)[t] == k.ops.keep(m[t])
  {
    UnionHas(Files(shards), shardOf, MUTEX_SHARDS, t);
    var sh := ShardAt(shards, shardOf(t));
    assert t in sh.index <==> t in sh.OnDisk();
    if t in m {
      assert Law(k, sh.Stored(t), m[t], m[t]);
    }
  }

  /** With nothing left in memory the files hold what files keep of the plain map. */
  lemma AllInFiles<V(!new)>(k: Kind<V>, shardOf: string -> nat, shards: map<nat, Shard<V>>,
                     m: map<string, V>, settled: bool)
    requires Lawful(k) && Represents(k, shardOf, shards, m, settled)
    requires forall i: nat :: ShardAt(shards, i).buffer == map[]
    ensures Apart(Files(shards), shardOf)
    ensures AllLike(k, Union(Files(shards), MUTEX_SHARDS), m)
    ensures settled ==> Union(Files(shards), MUTEX_SHARDS) == Kept(k.ops, m)
  {
    FilesApart(k, shardOf, shards);
    forall t
      ensures t in Union(Files(shards), MUTEX_SHARDS) <==> t in m
      ensures t in m ==> k.like(Union(Files(shards), MUTEX_SHARDS)[t], m[t])
      ensures settled && t in m ==> Union(Files(shards), MUTEX_SHARDS)[t] == k.ops.keep(m[t])
    {
      assert Homed(k, shardOf, shards, shardOf(t)) && Faithful(k, shardOf, shards, m, settled, t);
      InFiles(k, shardOf, shards, m, settled, t);
    }
  }

  lemma AllConsistent<V(!new)>(k: Kind<V>, shardOf: string -> nat, shards: map<nat, Shard<V>>)
    requires forall i {:trigger Homed(k, shardOf, shards, i)} :: Homed(k, shardOf, shards, i)
    ensures forall i :: i in shards ==> shards[i].Consistent(k.ops)
  {
    forall i | i in shards
      ensures shards[i].Consistent(k.ops)
    {
      assert Homed(k, shardOf, shards, i);
    }
  }

  lemma FoldOneMore<V>(k: Kind<V>, arrivals: seq<V>, s: V)
    ensures Fold(k, arrivals + [s]) == File(k, Fold(k, arrivals), s)
    ensures Settled(k, arrivals + [s]) <==> Settled(k, arrivals) && Settles(k, Fold(k, arrivals), s)
  {
    assert (arrivals + [s])[..|arrivals|] == arrivals;
  }

  lemma AddRepresents<V(!new)>(k: Kind<V>, shardOf: string -> nat, shards: map<nat, Shard<V>>, m: map<string, V>,
                               settled: bool, s: V)
    requires Lawful(k) && Represents(k, shardOf, shards, m, settled) && shardOf(k.title(s)) < MUTEX_SHARDS
    ensures var t := k.title(s);
            var before := ShardAt(shards, shardOf(t));
            && before.Valid(k.ops)
            && Represents(k, shardOf, shards[shardOf(t) := before.Add(k.ops, t, s)], File(k, m, s), settled && Settles(k, m, s))
  {
    var t := k.title(s);
    var before := ShardAt(shards, shardOf(t));
    assert Homed(k, shardOf, shards, shardOf(t));
    before.AddKeeps(k.ops, t, s);
    GrewRepresents(k, shardOf, shards, m, settled, s, before.Add(k.ops, t, s));
  }
}
