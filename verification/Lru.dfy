/** lru_cache: the cache as a list of entries, most recently used first. */
module Lru {
  import opened Wrappers

  type Entries<K, V> = seq<(K, V)>

  predicate DistinctKeys<K(==), V>(l: Entries<K, V>) {
    forall i, j :: 0 <= i < j < |l| ==> l[i].0 != l[j].0
  }

  function IndexOf<K(==), V>(l: Entries<K, V>, key: K): (i: nat)
    ensures i <= |l| && (i < |l| ==> l[i].0 == key)
    ensures forall j :: 0 <= j < i ==> l[j].0 != key
  {
    if l == [] || l[0].0 == key then 0 else
    var i := IndexOf(l[1..], key);
    assert forall j :: 0 < j < i + 1 ==> l[j] == l[1..][j - 1];
    i + 1
  }

  function RemoveAt<T>(l: seq<T>, i: nat): seq<T>
    requires i < |l|
  {
    l[..i] + l[i + 1..]
  }

  function Without<K(==), V>(l: Entries<K, V>, key: K): (r: Entries<K, V>)
    ensures DistinctKeys(l) ==> DistinctKeys(r) && forall i :: 0 <= i < |r| ==> r[i].0 != key
    ensures |r| <= |l|
  {
    var i := IndexOf(l, key);
    if i < |l| then RemoveAt(l, i) else l
  }

  function Cut<T>(l: seq<T>, size: nat): seq<T> { if |l| <= size then l else l[..size] }

  // ---------------------------------------------------------------- the list model

  datatype Model<K(==), V> = Model(list: Entries<K, V>, size: nat)

  predicate Sound<K(==), V>(m: Model<K, V>) { DistinctKeys(m.list) && |m.list| <= m.size }

  datatype Op<K, V> = Put(key: K, value: V) | Use(key: K) | Exists(key: K) | Resize(size: nat) | Erase(i: nat) | Clear

  /** The key an operation uses, if it does. */
  function UsedKey<K(==), V>(m: Model<K, V>, op: Op<K, V>): Option<K> {
    match op
    case Put(key, _) => Some(key)
    case Use(key) => if IndexOf(m.list, key) < |m.list| then Some(key) else None
    case _ => None
  }

  function Fresh<K(==), V>(l: Entries<K, V>, key: K, value: V): Entries<K, V> { [(key, value)] + Without(l, key) }

  function Touched<K(==), V>(l: Entries<K, V>, key: K): Entries<K, V> {
    var i := IndexOf(l, key);
    if i < |l| then Fresh(l, key, l[i].1) else l
  }

  function Step<K(==), V>(m: Model<K, V>, op: Op<K, V>): Model<K, V> {
    match op
    case Put(key, value) => m.(list := Cut(Fresh(m.list, key, value), m.size))
    case Use(key) => m.(list := Touched(m.list, key))
    case Exists(_) => m
    case Resize(size) => Model(Cut(m.list, size), size)
    case Erase(i) => if i < |m.list| then m.(list := RemoveAt(m.list, i)) else m
    case Clear => m.(list := [])
  }

  // ---------------------------------------------------------------- recency

  /** The keys used since `key` was last used. */
  function Since<K(==)>(uses: seq<K>, key: K): set<K>
  {
    if uses == [] || uses[|uses| - 1] == key then {}
    else Since(uses[..|uses| - 1], key) + {uses[|uses| - 1]}
  }

  /** Every entry was used, and the entries before it were all used since. */
  ghost predicate Recent<K, V>(l: Entries<K, V>, uses: seq<K>) {
    && (forall i :: 0 <= i < |l| ==> l[i].0 in uses)
    && (forall i, j :: 0 <= i < j < |l| ==> l[i].0 in Since(uses, l[j].0))
  }

  lemma FreshRecent<K, V>(l: Entries<K, V>, uses: seq<K>, key: K, value: V)
    requires DistinctKeys(l) && Recent(l, uses)
    ensures Recent(Fresh(l, key, value), uses + [key]) && DistinctKeys(Fresh(l, key, value))
  {
    var r, w := Fresh(l, key, value), Without(l, key);
    forall i, j | 0 <= i < j < |r| ensures r[i].0 in Since(uses + [key], r[j].0) {
      assert (uses + [key])[..|uses|] == uses;
      assert r[j] == w[j - 1];
      if i > 0 { RemovedRecent(l, uses, key, i - 1, j - 1); }
    }
  }

  lemma RemovedRecent<K, V>(l: Entries<K, V>, uses: seq<K>, key: K, i: nat, j: nat)
    requires Recent(l, uses) && i < j < |Without(l, key)|
    ensures Without(l, key)[i].0 in Since(uses, Without(l, key)[j].0)
  {
    var at, w := IndexOf(l, key), Without(l, key);
    assert w[i] == l[if i < at then i else i + 1];
    assert w[j] == l[if j < at then j else j + 1];
  }

  function Uses<K(==), V>(m: Model<K, V>, op: Op<K, V>, uses: seq<K>): seq<K> {
    match UsedKey(m, op)
    case Some(key) => uses + [key]
    case None => uses
  }

  lemma StepRecent<K, V>(m: Model<K, V>, op: Op<K, V>, uses: seq<K>)
    requires Sound(m) && Recent(m.list, uses)
    ensures Sound(Step(m, op)) && Recent(Step(m, op).list, Uses(m, op, uses))
  {
    hide Since;
    match op
    case Put(key, value) => FreshRecent(m.list, uses, key, value);
    case Use(key) =>
      var i := IndexOf(m.list, key);
      if i < |m.list| { FreshRecent(m.list, uses, key, m.list[i].1); }
    case Erase(i) =>
      if i < |m.list| {
        var r := RemoveAt(m.list, i);
        assert forall j :: 0 <= j < |r| ==> r[j] == m.list[if j < i then j else j + 1];
      }
    case _ =>
  }

  /** What a run leaves, and the keys it used. */
  function Outcome<K(==), V>(m: Model<K, V>, ops: seq<Op<K, V>>): Model<K, V>
    decreases |ops|
  {
    if ops == [] then m else Outcome(Step(m, ops[0]), ops[1..])
  }

  function UsesOf<K(==), V>(m: Model<K, V>, ops: seq<Op<K, V>>, uses: seq<K>): seq<K>
    decreases |ops|
  {
    if ops == [] then uses else UsesOf(Step(m, ops[0]), ops[1..], Uses(m, ops[0], uses))
  }

  lemma {:induction false} RunRecent<K, V>(m: Model<K, V>, ops: seq<Op<K, V>>, uses: seq<K>)
    requires Sound(m) && Recent(m.list, uses)
    ensures Sound(Outcome(m, ops)) && Recent(Outcome(m, ops).list, UsesOf(m, ops, uses))
    decreases |ops|
  {
    hide Recent, Sound, Step, Uses;
    if ops != [] {
      StepRecent(m, ops[0], uses);
      RunRecent(Step(m, ops[0]), ops[1..], Uses(m, ops[0], uses));
    }
  }

  // ---------------------------------------------------------------- values

  /** What was put last under a key. */
  function LastPut<K(==), V>(ops: seq<Op<K, V>>, key: K): Option<V>
  {
    if ops == [] then None else
    var last := ops[|ops| - 1];
    if last.Put? && last.key == key then Some(last.value) else LastPut(ops[..|ops| - 1], key)
  }

  ghost predicate UpToDate<K, V>(l: Entries<K, V>, ops: seq<Op<K, V>>) {
    forall i :: 0 <= i < |l| ==> LastPut(ops, l[i].0) == Some(l[i].1)
  }

  lemma WithoutEntries<K, V>(l: Entries<K, V>, key: K, i: nat)
    requires DistinctKeys(l) && i < |Without(l, key)|
    ensures Without(l, key)[i] in l && Without(l, key)[i].0 != key
  {
  }

  lemma StepUpToDate<K, V>(m: Model<K, V>, ops: seq<Op<K, V>>, op: Op<K, V>)
    requires Sound(m) && UpToDate(m.list, ops)
    ensures UpToDate(Step(m, op).list, ops + [op])
  {
    assert (ops + [op])[..|ops|] == ops;
    var l := Step(m, op).list;
    forall i | 0 <= i < |l| ensures LastPut(ops + [op], l[i].0) == Some(l[i].1) {
      if (op.Put? || op.Use?) && |l| == |m.list| && l == m.list {
      } else if (op.Put? || op.Use?) && i > 0 {
        WithoutEntries(m.list, op.key, i - 1);
      }
    }
  }

  lemma {:induction false} RunUpToDate<K, V>(m: Model<K, V>, done: seq<Op<K, V>>, ops: seq<Op<K, V>>, uses: seq<K>)
    requires Sound(m) && Recent(m.list, uses) && UpToDate(m.list, done)
    ensures UpToDate(Outcome(m, ops).list, done + ops)
    decreases |ops|
  {
    hide Sound, Recent, UpToDate, Step, Uses;
    if ops == [] {
      assert done + ops == done;
    } else {
      StepUpToDate(m, done, ops[0]);
      StepRecent(m, ops[0], uses);
      RunUpToDate(Step(m, ops[0]), done + [ops[0]], ops[1..], Uses(m, ops[0], uses));
      assert done + [ops[0]] + ops[1..] == done + ops;
    }
  }

  /** Over any run a cached value is the one which was put last under its key. */
  lemma RunValues<K, V>(size: nat, ops: seq<Op<K, V>>, i: nat)
    requires i < |Outcome(Model([], size), ops).list|
    ensures var l := Outcome(Model([], size), ops).list; LastPut(ops, l[i].0) == Some(l[i].1)
  {
    hide Step, Recent;
    NothingRecent<K, V>();
    RunUpToDate(Model([], size), [], ops, []);
    assert [] + ops == ops;
  }

  function KeysOf<K(==), V>(l: Entries<K, V>): set<K> { set i | 0 <= i < |l| :: l[i].0 }

  lemma {:induction false} KeysCount<K, V>(l: Entries<K, V>)
    requires DistinctKeys(l)
    ensures |KeysOf(l)| == |l|
  {
    if l != [] {
      var n := |l| - 1;
      KeysCount(l[..n]);
      assert KeysOf(l) == KeysOf(l[..n]) + {l[n].0};
      assert l[n].0 !in KeysOf(l[..n]);
    }
  }

  /** After any run, a key which a put evicts has had as many distinct other keys used since its
      own last use as the cache holds. */
  lemma EvictedIsLeastRecent<K, V>(size: nat, ops: seq<Op<K, V>>, key: K, value: V, victim: K)
    requires var m := Outcome(Model([], size), ops);
             && victim in KeysOf(m.list)
             && victim !in KeysOf(Step(m, Put(key, value)).list)
    ensures var m := Outcome(Model([], size), ops);
            |Since(UsesOf(Model([], size), ops, []) + [key], victim) - {victim}| >= m.size
  {
    hide Since, KeysOf, Recent, DistinctKeys;
    var m := Outcome(Model([], size), ops);
    var uses := UsesOf(Model([], size), ops, []);
    NothingRecent<K, V>();
    RunRecent(Model([], size), ops, []);
    var r := Fresh(m.list, key, value);
    FreshRecent(m.list, uses, key, value);
    VictimIsLast(m, key, value, victim);
    LastIsOldest(r, uses + [key]);
  }

  /** The last entry has had all the others used since its own last use. */
  lemma LastIsOldest<K, V>(l: Entries<K, V>, uses: seq<K>)
    requires l != [] && DistinctKeys(l) && Recent(l, uses)
    ensures var last := l[|l| - 1].0; |Since(uses, last) - {last}| >= |l| - 1
  {
    var n := |l| - 1;
    var last := l[n].0;
    KeysCount(l[..n]);
    forall k | k in KeysOf(l[..n]) ensures k in Since(uses, last) - {last} {
      var i :| 0 <= i < n && l[..n][i].0 == k;
      assert l[i].0 in Since(uses, l[n].0);
    }
    Subset(KeysOf(l[..n]), Since(uses, last) - {last});
  }

  /** A put of a cached key evicts nothing. */
  lemma HitEvictsNobody<K, V>(m: Model<K, V>, key: K, value: V, other: K)
    requires Sound(m) && IndexOf(m.list, key) < |m.list| && other in KeysOf(m.list)
    ensures other in KeysOf(Step(m, Put(key, value)).list)
  {
    var r, w, at := Fresh(m.list, key, value), Without(m.list, key), IndexOf(m.list, key);
    var i :| 0 <= i < |m.list| && m.list[i].0 == other;
    if i == at {
      assert r[0].0 == other;
    } else {
      var j := if i < at then i else i - 1;
      assert w[j] == m.list[i] && r[j + 1] == w[j];
    }
  }

  lemma EarlyStays<K, V>(l: Entries<K, V>, size: nat, i: nat)
    ensures i < |l| && i < size ==> l[i].0 in KeysOf(Cut(l, size))
  {
    if i < |l| && i < size { assert Cut(l, size)[i] == l[i]; }
  }

  lemma NothingRecent<K, V>()
    ensures Recent<K, V>([], []) && DistinctKeys<K, V>([])
  {
  }

  lemma VictimIsLast<K, V>(m: Model<K, V>, key: K, value: V, victim: K)
    requires Sound(m) && victim in KeysOf(m.list)
    requires victim !in KeysOf(Step(m, Put(key, value)).list)
    ensures var r := Fresh(m.list, key, value); |r| == m.size + 1 && r[m.size].0 == victim
  {
    if IndexOf(m.list, key) < |m.list| { HitEvictsNobody(m, key, value, victim); }
    var r := Fresh(m.list, key, value);
    var i :| 0 <= i < |m.list| && m.list[i].0 == victim;
    assert r[i + 1] == m.list[i];
    EarlyStays(r, m.size, i + 1);
  }

  lemma {:induction false} Subset<K>(a: set<K>, b: set<K>)
    requires a <= b
    ensures |a| <= |b|
    decreases a
  {
    if a != {} {
      var x :| x in a;
      Subset(a - {x}, b - {x});
    }
  }

  // ---------------------------------------------------------------- the cache

  /** The entries of the list nodes `order`. */
  ghost function EntriesOf<K, V>(order: seq<nat>, nodes: map<nat, (K, V)>): (l: Entries<K, V>)
    requires forall i :: 0 <= i < |order| ==> order[i] in nodes
    ensures |l| == |order| && forall i :: 0 <= i < |l| ==> l[i] == nodes[order[i]]
  {
    seq(|order|, i requires 0 <= i < |order| => nodes[order[i]])
  }

  /** The hash holds the node of every entry, ... */
  ghost predicate Forward<K, V>(order: seq<nat>, nodes: map<nat, (K, V)>, hash: map<K, nat>, next: nat) {
    forall i :: 0 <= i < |order| ==>
      order[i] in nodes && order[i] < next && nodes[order[i]].0 in hash && hash[nodes[order[i]].0] == order[i]
  }

  ghost predicate DistinctNodes(order: seq<nat>) { forall i, j :: 0 <= i < j < |order| ==> order[i] != order[j] }

  /** ... and nothing else. */
  ghost predicate Backward<K, V>(order: seq<nat>, nodes: map<nat, (K, V)>, hash: map<K, nat>) {
    forall key :: key in hash ==> hash[key] in nodes && nodes[hash[key]].0 == key && hash[key] in order
  }

  ghost predicate Linked<K, V>(order: seq<nat>, nodes: map<nat, (K, V)>, hash: map<K, nat>, next: nat) {
    Forward(order, nodes, hash, next) && DistinctNodes(order) && Backward(order, nodes, hash) && |hash| == |order|
  }

  lemma RemovedForward<K, V>(order: seq<nat>, nodes: map<nat, (K, V)>, hash: map<K, nat>, next: nat, i: nat)
    requires Forward(order, nodes, hash, next) && DistinctNodes(order) && i < |order|
    ensures Forward(RemoveAt(order, i), nodes, hash - {nodes[order[i]].0}, next) && DistinctNodes(RemoveAt(order, i))
  {
    var order' := RemoveAt(order, i);
    forall j | 0 <= j < |order'| ensures order'[j] == order[if j < i then j else j + 1] {
    }
  }

  lemma RemovedBackward<K, V>(order: seq<nat>, nodes: map<nat, (K, V)>, hash: map<K, nat>, i: nat)
    requires Backward(order, nodes, hash) && i < |order| && order[i] in nodes
    ensures Backward(RemoveAt(order, i), nodes, hash - {nodes[order[i]].0})
  {
    var order', hash' := RemoveAt(order, i), hash - {nodes[order[i]].0};
    forall key | key in hash' ensures hash[key] in nodes && nodes[hash[key]].0 == key && hash[key] in order' {
      var j :| 0 <= j < |order| && order[j] == hash[key];
      assert order'[if j < i then j else j - 1] == hash[key];
    }
  }

  lemma RemovedLinked<K, V>(order: seq<nat>, nodes: map<nat, (K, V)>, hash: map<K, nat>, next: nat, i: nat)
    requires Linked(order, nodes, hash, next) && i < |order|
    ensures Linked(RemoveAt(order, i), nodes, hash - {nodes[order[i]].0}, next)
  {
    RemovedForward(order, nodes, hash, next, i);
    RemovedBackward(order, nodes, hash, i);
    var key := nodes[order[i]].0;
    assert key in hash;
    hide Forward, Backward, DistinctNodes;
    assert (hash - {key}).Keys == hash.Keys - {key};
  }

  lemma PushedLinked<K, V>(order: seq<nat>, nodes: map<nat, (K, V)>, hash: map<K, nat>, next: nat, key: K, value: V)
    requires Linked(order, nodes, hash, next) && key !in hash
    ensures Linked([next] + order, nodes[next := (key, value)], hash[key := next], next + 1)
  {
    var order', nodes', hash' := [next] + order, nodes[next := (key, value)], hash[key := next];
    assert forall j :: 0 < j < |order'| ==> order'[j] == order[j - 1];
    forall k | k in hash' ensures hash'[k] in nodes' && nodes'[hash'[k]].0 == k && hash'[k] in order' {
      if k == key {
        assert order'[0] == next;
      } else {
        var j :| 0 <= j < |order| && order[j] == hash[k];
        assert order'[j + 1] == hash[k] && hash[k] != next;
      }
    }
  }

  /** An entry is where its key is found. */
  lemma IndexOfNode<K, V>(order: seq<nat>, nodes: map<nat, (K, V)>, hash: map<K, nat>, next: nat, i: nat)
    requires Linked(order, nodes, hash, next) && i < |order|
    ensures IndexOf(EntriesOf(order, nodes), nodes[order[i]].0) == i
  {
    var l := EntriesOf(order, nodes);
    var at := IndexOf(l, nodes[order[i]].0);
    assert l[i].0 == nodes[order[i]].0;
    assert hash[l[at].0] == order[at];
  }

  lemma HashedIff<K, V>(order: seq<nat>, nodes: map<nat, (K, V)>, hash: map<K, nat>, next: nat, key: K)
    requires Linked(order, nodes, hash, next)
    ensures key in hash <==> IndexOf(EntriesOf(order, nodes), key) < |order|
  {
    var l := EntriesOf(order, nodes);
    if key in hash {
      var i :| 0 <= i < |order| && order[i] == hash[key];
      assert l[i].0 == key;
    }
  }

  lemma EntriesRemoved<K, V>(order: seq<nat>, nodes: map<nat, (K, V)>, i: nat)
    requires i < |order| && forall j :: 0 <= j < |order| ==> order[j] in nodes
    ensures forall j :: 0 <= j < |RemoveAt(order, i)| ==> RemoveAt(order, i)[j] in nodes
    ensures EntriesOf(RemoveAt(order, i), nodes) == RemoveAt(EntriesOf(order, nodes), i)
  {
    var order' := RemoveAt(order, i);
    forall j | 0 <= j < |order'| ensures order'[j] == order[if j < i then j else j + 1] {
    }
  }

  lemma EntriesSpliced<K, V>(order: seq<nat>, nodes: map<nat, (K, V)>, i: nat)
    requires i < |order| && forall j :: 0 <= j < |order| ==> order[j] in nodes
    ensures forall j :: 0 <= j < |RemoveAt(order, i)| ==> RemoveAt(order, i)[j] in nodes
    ensures var l := EntriesOf(order, nodes);
            EntriesOf([order[i]] + RemoveAt(order, i), nodes) == [l[i]] + RemoveAt(l, i)
  {
    EntriesRemoved(order, nodes, i);
    hide RemoveAt;
    var r := RemoveAt(order, i);
    forall j | 0 < j <= |r| ensures ([order[i]] + r)[j] == r[j - 1] {
    }
  }

  lemma EntriesPushed<K, V>(order: seq<nat>, nodes: map<nat, (K, V)>, id: nat, entry: (K, V))
    requires id !in order && forall j :: 0 <= j < |order| ==> order[j] in nodes
    ensures forall j :: 0 <= j <= |order| ==> ([id] + order)[j] in nodes[id := entry]
    ensures EntriesOf([id] + order, nodes[id := entry]) == [entry] + EntriesOf(order, nodes)
  {
    var l := EntriesOf([id] + order, nodes[id := entry]);
    forall j | 0 <= j < |l| ensures l[j] == ([entry] + EntriesOf(order, nodes))[j] {
      if j > 0 { assert ([id] + order)[j] == order[j - 1] && order[j - 1] in order; }
    }
  }

  /** `order` holds the nodes of m_cache_items from front to back, `hash` the node of each key. */
  class LruCache<K(==), V> {
    var order: seq<nat>
    var nodes: map<nat, (K, V)>
    var hash: map<K, nat>
    var size: nat
    var next: nat

    ghost predicate Valid()
      reads this
    {
      Linked(order, nodes, hash, next) && |order| <= size
    }

    ghost function List(): Entries<K, V>
      requires Linked(order, nodes, hash, next)
      reads this
    {
      EntriesOf(order, nodes)
    }

    constructor (size: nat)
      ensures Valid() && List() == [] && this.size == size
    {
      order, nodes, hash, this.size, next := [], map[], map[], size, 0;
    }

    /** The iterator of the node `id`. */
    method Position(id: nat) returns (i: nat)
      requires id in order
      ensures i < |order| && order[i] == id
    {
      i := 0;
      while order[i] != id
        invariant i < |order| && id in order[i..]
        decreases |order| - i
      {
        i := i + 1;
      }
    }

    /** Drops the entry at `i` from both structures. */
    method Erase(i: nat)
      requires Linked(order, nodes, hash, next) && i < |order|
      modifies this`order, this`hash
      ensures Linked(order, nodes, hash, next) && List() == RemoveAt(old(List()), i)
      ensures hash == old(hash) - {old(List())[i].0}
    {
      RemovedLinked(order, nodes, hash, next, i);
      EntriesRemoved(order, nodes, i);
      var key := nodes[order[i]].0;
      hide Forward, Backward, DistinctNodes, EntriesOf, RemoveAt;
      hash := hash - {key};
      order := RemoveAt(order, i);
    }

    method Put(key: K, value: V)
      requires Valid()
      modifies this`order, this`nodes, this`hash, this`next
      ensures Valid() && List() == Cut(Fresh(old(List()), key, value), size)
    {
      HashedIff(order, nodes, hash, next, key);
      if key in hash {
        var i := Position(hash[key]);
        IndexOfNode(order, nodes, hash, next, i);
        Erase(i);
      }
      PushFront(key, value);
      CleanCache();
    }

    method PushFront(key: K, value: V)
      requires Linked(order, nodes, hash, next) && key !in hash
      modifies this`order, this`nodes, this`hash, this`next
      ensures Linked(order, nodes, hash, next) && List() == [(key, value)] + old(List())
    {
      PushedLinked(order, nodes, hash, next, key, value);
      assert next !in order;
      EntriesPushed(order, nodes, next, (key, value));
      hide Forward, Backward, DistinctNodes, EntriesOf;
      order, nodes, hash, next := [next] + order, nodes[next := (key, value)], hash[key := next], next + 1;
    }

    method CleanCache()
      requires Linked(order, nodes, hash, next)
      modifies this`order, this`hash
      ensures Valid() && List() == Cut(old(List()), size)
    {
      hide Forward, Backward, EntriesOf, DistinctNodes;
      while |hash| > size
        invariant Linked(order, nodes, hash, next) && |order| <= |old(order)|
        invariant List() == old(List())[..|order|] && (|order| < |old(order)| ==> |order| >= size)
        decreases |order|
      {
        Erase(|order| - 1);
      }
    }

    /** reference() and value(); no entry stands for the exception of the one and the default
        value of the other. */
    method Reference(key: K) returns (value: Option<V>)
      requires Valid()
      modifies this`order
      ensures Valid() && List() == Touched(old(List()), key)
      ensures value == var i := IndexOf(old(List()), key); if i < |old(List())| then Some(old(List())[i].1) else None
    {
      HashedIff(order, nodes, hash, next, key);
      if key !in hash {
        return None;
      }
      var i := Position(hash[key]);
      IndexOfNode(order, nodes, hash, next, i);
      value := Some(nodes[order[i]].1);
      Splice(i);
    }

    method Splice(i: nat)
      requires Linked(order, nodes, hash, next) && i < |order|
      modifies this`order
      ensures Linked(order, nodes, hash, next) && List() == [old(List())[i]] + RemoveAt(old(List()), i)
    {
      SplicedLinked(order, nodes, hash, next, i);
      EntriesSpliced(order, nodes, i);
      hide Forward, Backward, DistinctNodes, EntriesOf, RemoveAt;
      order := [order[i]] + RemoveAt(order, i);
    }

    method Exists(key: K) returns (found: bool)
      requires Valid()
      ensures found <==> key in KeysOf(List())
    {
      HashedIff(order, nodes, hash, next, key);
      found := key in hash;
    }

    method Resize(size: nat)
      requires Valid()
      modifies this`order, this`hash, this`size
      ensures Valid() && this.size == size && List() == Cut(old(List()), size)
    {
      this.size := size;
      CleanCache();
    }

    method Clear()
      requires Valid()
      modifies this`order, this`hash
      ensures Valid() && List() == []
    {
      order, hash := [], map[];
    }
  }

  /** Moving a node to the front is dropping it and putting it back. */
  lemma SplicedLinked<K, V>(order: seq<nat>, nodes: map<nat, (K, V)>, hash: map<K, nat>, next: nat, i: nat)
    requires Linked(order, nodes, hash, next) && i < |order|
    ensures Linked([order[i]] + RemoveAt(order, i), nodes, hash, next)
  {
    var order' := [order[i]] + RemoveAt(order, i);
    forall j | 0 <= j < |order'| ensures order'[j] == order[if j == 0 then i else if j <= i then j - 1 else j] {
    }
    assert Forward(order', nodes, hash, next) && DistinctNodes(order') && |order'| == |order|;
    SplicedBackward(order, nodes, hash, i);
  }

  lemma SplicedBackward<K, V>(order: seq<nat>, nodes: map<nat, (K, V)>, hash: map<K, nat>, i: nat)
    requires Backward(order, nodes, hash) && i < |order|
    ensures Backward([order[i]] + RemoveAt(order, i), nodes, hash)
  {
    var order' := [order[i]] + RemoveAt(order, i);
    forall key | key in hash ensures hash[key] in order' {
      var j :| 0 <= j < |order| && order[j] == hash[key];
      assert order'[if j == i then 0 else if j < i then j + 1 else j] == hash[key];
    }
  }
}
