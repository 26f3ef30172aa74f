/** The audit export: metadata in a canonical key order, rows in a canonical order, and a hash chain
    over them. Collation, rendering and hashing are parameters. */
module AuditChain {
  import opened Common
  import opened Sorting

  // ---------------------------------------------------------------- canonical metadata

  datatype Entry = Entry(key: string, value: Json)

  datatype IndexEntry = IndexEntry(index: nat, value: Json)

  /** A JavaScript value. An object lists its integer keys first, in ascending order whatever happens, and
      its other keys in the order they were inserted. */
  datatype Json = Atom(text: string) | Arr(items: seq<Json>) | Obj(indexed: seq<IndexEntry>, named: seq<Entry>)

  /** `localeCompare(a, b) <= 0`. */
  type Collation = (string, string) -> bool

  function ByKey(collate: Collation): (Entry, Entry) -> bool { (a: Entry, b: Entry) => collate(a.key, b.key) }

  lemma {:induction false} KeysOrdered(collate: Collation)
    requires TotalPreorder(collate)
    ensures TotalPreorder(ByKey(collate))
  {
    var le := ByKey(collate);
    forall a, b ensures le(a, b) || le(b, a) { assert collate(a.key, b.key) || collate(b.key, a.key); }
    forall a, b, c | le(a, b) && le(b, c) ensures le(a, c) { assert collate(a.key, b.key) && collate(b.key, c.key); }
  }

  /** `normalizeJson`: nested values are normalised and named entries sorted by key; integer keys stay put. */
  function Normalize(collate: Collation, v: Json): Json {
    match v
    case Atom(_) => v
    case Arr(items) => Arr(seq(|items|, i requires 0 <= i < |items| => Normalize(collate, items[i])))
    case Obj(indexed, named) =>
      Obj(seq(|indexed|, i requires 0 <= i < |indexed| =>
          IndexEntry(indexed[i].index, Normalize(collate, indexed[i].value))),
          Sort(ByKey(collate),
               seq(|named|, i requires 0 <= i < |named| => Entry(named[i].key, Normalize(collate, named[i].value)))))
  }

  function NormalizeEach(collate: Collation, named: seq<Entry>): (r: seq<Entry>)
    ensures |r| == |named|
      && forall i :: 0 <= i < |named| ==> r[i] == Entry(named[i].key, Normalize(collate, named[i].value))
  {
    seq(|named|, i requires 0 <= i < |named| => Entry(named[i].key, Normalize(collate, named[i].value)))
  }

  ghost predicate DistinctKeys(named: seq<Entry>) {
    forall i, j :: 0 <= i < j < |named| ==> named[i].key != named[j].key
  }

  /** Keys are distinct at every level, as in any object. */
  ghost predicate WellFormed(v: Json) {
    match v
    case Atom(_) => true
    case Arr(items) => forall i :: 0 <= i < |items| ==> WellFormed(items[i])
    case Obj(indexed, named) =>
      && DistinctKeys(named)
      && (forall i :: 0 <= i < |indexed| ==> WellFormed(indexed[i].value))
      && (forall i :: 0 <= i < |named| ==> WellFormed(named[i].value))
  }

  /** The same value up to the order in which named keys were inserted, at any depth. */
  ghost predicate Shuffled(v: Json, w: Json) {
    match (v, w)
    case (Atom(a), Atom(b)) => a == b
    case (Arr(xs), Arr(ys)) => |xs| == |ys| && forall i :: 0 <= i < |xs| ==> Shuffled(xs[i], ys[i])
    case (Obj(xi, xn), Obj(yi, yn)) =>
      && |xi| == |yi| && (forall i :: 0 <= i < |xi| ==>
            xi[i].index == yi[i].index && Shuffled(xi[i].value, yi[i].value))
      && (forall x :: x in xn ==> HasPartner(x, yn))
      && (forall y :: y in yn ==> HasSource(xn, y))
    case _ => false
  }

  ghost predicate HasPartner(x: Entry, ys: seq<Entry>)
    decreases x
  {
    exists y :: y in ys && y.key == x.key && Shuffled(x.value, y.value)
  }

  ghost predicate HasSource(xs: seq<Entry>, y: Entry)
    decreases xs
  {
    exists x :: x in xs && y.key == x.key && Shuffled(x.value, y.value)
  }

  predicate Tied(collate: Collation, a: string, b: string) { collate(a, b) && collate(b, a) }

  ghost predicate Separate(collate: Collation, named: seq<Entry>) {
    forall i, j :: 0 <= i < |named| && 0 <= j < |named| && Tied(collate, named[i].key, named[j].key) ==> i == j
  }

  /** No object has two different keys that the collation cannot tell apart. */
  ghost predicate TieFree(collate: Collation, v: Json) {
    match v
    case Atom(_) => true
    case Arr(items) => forall i :: 0 <= i < |items| ==> TieFree(collate, items[i])
    case Obj(indexed, named) =>
      && Separate(collate, named)
      && (forall i :: 0 <= i < |indexed| ==> TieFree(collate, indexed[i].value))
      && (forall i :: 0 <= i < |named| ==> TieFree(collate, named[i].value))
  }

  lemma {:induction false} SameMembers<T>(a: seq<T>, b: seq<T>)
    requires Distinct(a) && Distinct(b) && forall x :: x in a <==> x in b
    ensures multiset(a) == multiset(b)
  {
    DistinctCounts(a);
    DistinctCounts(b);
    forall x ensures multiset(a)[x] == multiset(b)[x] {
      if x in a { assert multiset(a)[x] == 1 && multiset(b)[x] == 1; }
      else { assert x !in multiset(a) && x !in multiset(b); }
    }
  }

  /** Two arrangements of entries with distinct, untied keys sort to the same list. */
  lemma {:induction false} SortsAlike(collate: Collation, a: seq<Entry>, b: seq<Entry>)
    requires TotalPreorder(collate)
    requires DistinctKeys(a) && DistinctKeys(b) && forall x :: x in a <==> x in b
    requires Separate(collate, a)
    ensures Sort(ByKey(collate), a) == Sort(ByKey(collate), b)
  {
    KeysOrdered(collate);
    var le := ByKey(collate);
    SameMembers(a, b);
    SortCorrect(le, a);
    SortCorrect(le, b);
    var sa := Sort(le, a);
    forall i, j | 0 <= i < |sa| && 0 <= j < |sa| && le(sa[i], sa[j]) && le(sa[j], sa[i]) ensures sa[i] == sa[j] {
      SortMembers(le, a, sa[i]);
      SortMembers(le, a, sa[j]);
      var p :| 0 <= p < |a| && a[p] == sa[i];
      var q :| 0 <= q < |a| && a[q] == sa[j];
      assert Tied(collate, a[p].key, a[q].key);
    }
    SortedUnique(le, sa, Sort(le, b));
  }

  lemma {:induction false} NormalizeObj(collate: Collation, v: Json)
    requires v.Obj?
    ensures Normalize(collate, v).named == Sort(ByKey(collate), NormalizeEach(collate, v.named))
  {
    assert NormalizeEach(collate, v.named)
        == seq(|v.named|, i requires 0 <= i < |v.named| => Entry(v.named[i].key, Normalize(collate, v.named[i].value)));
  }

  function NormalEntry(collate: Collation, x: Entry): Entry { Entry(x.key, Normalize(collate, x.value)) }

  lemma {:induction false} NormalMembers(collate: Collation, named: seq<Entry>, e: Entry)
    ensures e in NormalizeEach(collate, named) <==> exists x :: x in named && e == NormalEntry(collate, x)
  {
    var r := NormalizeEach(collate, named);
    if e in r {
      var i :| 0 <= i < |r| && r[i] == e;
      assert named[i] in named && e == NormalEntry(collate, named[i]);
    }
    if x :| x in named && e == NormalEntry(collate, x) {
      var i :| 0 <= i < |named| && named[i] == x;
      assert r[i] == e;
    }
  }

  ghost predicate Partnered(collate: Collation, xs: seq<Entry>, ys: seq<Entry>) {
    forall x :: x in xs ==> exists y :: y in ys && NormalEntry(collate, x) == NormalEntry(collate, y)
  }

  /** If partners normalise alike, the two lists have the same normalised entries. */
  lemma {:induction false} SameEntries(collate: Collation, xs: seq<Entry>, ys: seq<Entry>, e: Entry)
    requires Partnered(collate, xs, ys) && Partnered(collate, ys, xs)
    ensures e in NormalizeEach(collate, xs) <==> e in NormalizeEach(collate, ys)
  {
    NormalMembers(collate, xs, e);
    NormalMembers(collate, ys, e);
  }

  lemma {:induction false} NamedForgetsOrder(collate: Collation, v: Json, w: Json)
    requires TotalPreorder(collate) && WellFormed(v) && WellFormed(w) && v.Obj? && w.Obj? && TieFree(collate, v)
    requires Partnered(collate, v.named, w.named) && Partnered(collate, w.named, v.named)
    ensures Normalize(collate, v).named == Normalize(collate, w).named
  {
    var a, b := NormalizeEach(collate, v.named), NormalizeEach(collate, w.named);
    forall e ensures e in a <==> e in b { SameEntries(collate, v.named, w.named, e); }
    SortsAlike(collate, a, b);
    NormalizeObj(collate, v);
    NormalizeObj(collate, w);
  }

  lemma {:induction false} IndexedForgetsOrder(collate: Collation, v: Json, w: Json)
    requires v.Obj? && w.Obj? && |v.indexed| == |w.indexed|
    requires forall i :: 0 <= i < |v.indexed| ==>
      v.indexed[i].index == w.indexed[i].index
          && Normalize(collate, v.indexed[i].value) == Normalize(collate, w.indexed[i].value)
    ensures Normalize(collate, v).indexed == Normalize(collate, w).indexed
  {
  }

  lemma {:induction false} ObjectForgetsOrder(collate: Collation, v: Json, w: Json)
    requires TotalPreorder(collate) && WellFormed(v) && WellFormed(w)
      && Shuffled(v, w) && TieFree(collate, v) && v.Obj?
    ensures Normalize(collate, v) == Normalize(collate, w)
    decreases v, 1
  {
    forall i | 0 <= i < |v.indexed|
      ensures Normalize(collate, v.indexed[i].value) == Normalize(collate, w.indexed[i].value)
    {
      NormalizeForgetsOrder(collate, v.indexed[i].value, w.indexed[i].value);
    }
    IndexedForgetsOrder(collate, v, w);
    forall x | x in v.named ensures exists y :: y in w.named && NormalEntry(collate, x) == NormalEntry(collate, y) {
      var y :| y in w.named && y.key == x.key && Shuffled(x.value, y.value);
      PartnersAlike(collate, v, w, x, y);
    }
    forall y | y in w.named ensures exists x :: x in v.named && NormalEntry(collate, y) == NormalEntry(collate, x) {
      var x :| x in v.named && y.key == x.key && Shuffled(x.value, y.value);
      PartnersAlike(collate, v, w, x, y);
    }
    NamedForgetsOrder(collate, v, w);
  }

  /** Key order does not matter: shuffled values without tied keys normalise alike. */
  lemma {:induction false} NormalizeForgetsOrder(collate: Collation, v: Json, w: Json)
    requires TotalPreorder(collate) && WellFormed(v) && WellFormed(w) && Shuffled(v, w) && TieFree(collate, v)
    ensures Normalize(collate, v) == Normalize(collate, w)
    decreases v, 2
  {
    match v
    case Atom(_) =>
    case Arr(items) =>
      forall i | 0 <= i < |items| ensures Normalize(collate, items[i]) == Normalize(collate, w.items[i]) {
        NormalizeForgetsOrder(collate, items[i], w.items[i]);
      }
    case Obj(_, _) => ObjectForgetsOrder(collate, v, w);
  }

  lemma {:induction false} PartnersAlike(collate: Collation, v: Json, w: Json, x: Entry, y: Entry)
    requires TotalPreorder(collate) && WellFormed(v) && WellFormed(w) && v.Obj? && w.Obj? && TieFree(collate, v)
    requires x in v.named && y in w.named && y.key == x.key && Shuffled(x.value, y.value)
    ensures NormalEntry(collate, x) == NormalEntry(collate, y)
    decreases v, 0
  {
    var i :| 0 <= i < |v.named| && v.named[i] == x;
    var j :| 0 <= j < |w.named| && w.named[j] == y;
    NormalizeForgetsOrder(collate, x.value, y.value);
  }

  // ---------------------------------------------------------------- what the canonical form is

  /** Named keys ascend in the collation at every level. */
  ghost predicate Ascends(collate: Collation, v: Json) {
    match v
    case Atom(_) => true
    case Arr(items) => forall i :: 0 <= i < |items| ==> Ascends(collate, items[i])
    case Obj(indexed, named) =>
      && (forall i, j :: 0 <= i < j < |named| ==> collate(named[i].key, named[j].key))
      && (forall i :: 0 <= i < |indexed| ==> Ascends(collate, indexed[i].value))
      && (forall i :: 0 <= i < |named| ==> Ascends(collate, named[i].value))
  }

  lemma {:induction false} NamedMembers(collate: Collation, v: Json, e: Entry)
    requires TotalPreorder(collate) && v.Obj?
    ensures e in Normalize(collate, v).named <==> exists x :: x in v.named && e == NormalEntry(collate, x)
  {
    KeysOrdered(collate);
    NormalizeObj(collate, v);
    SortMembers(ByKey(collate), NormalizeEach(collate, v.named), e);
    NormalMembers(collate, v.named, e);
  }

  /** Entries whose values are arranged have their partners among the normalised ones, and the other way round. */
  lemma {:induction false} NormalPartners(collate: Collation, v: Json)
    requires TotalPreorder(collate) && v.Obj?
    requires forall x :: x in v.named ==> Shuffled(x.value, Normalize(collate, x.value))
    ensures var w := Normalize(collate, v);
      && (forall x :: x in v.named ==> HasPartner(x, w.named)) && (forall y :: y in w.named ==> HasSource(v.named, y))
  {
    var w := Normalize(collate, v);
    forall x | x in v.named ensures HasPartner(x, w.named) {
      var y := NormalEntry(collate, x);
      NamedMembers(collate, v, y);
      assert y in w.named && y.key == x.key && Shuffled(x.value, y.value);
    }
    forall y | y in w.named ensures HasSource(v.named, y) {
      NamedMembers(collate, v, y);
      var x :| x in v.named && y == NormalEntry(collate, x);
      assert y.key == x.key && Shuffled(x.value, y.value);
    }
  }

  lemma {:induction false} NamedAscend(collate: Collation, v: Json)
    requires TotalPreorder(collate) && v.Obj?
    requires forall x :: x in v.named ==> Ascends(collate, Normalize(collate, x.value))
    ensures var named := Normalize(collate, v).named;
      && (forall i, j :: 0 <= i < j < |named| ==> collate(named[i].key, named[j].key))
      && (forall i :: 0 <= i < |named| ==> Ascends(collate, named[i].value))
  {
    KeysOrdered(collate);
    var named := Normalize(collate, v).named;
    NormalizeObj(collate, v);
    SortCorrect(ByKey(collate), NormalizeEach(collate, v.named));
    forall i, j | 0 <= i < j < |named| ensures collate(named[i].key, named[j].key) {
      assert ByKey(collate)(named[i], named[j]);
    }
    forall i | 0 <= i < |named| ensures Ascends(collate, named[i].value) {
      NamedMembers(collate, v, named[i]);
      assert named[i] in named;
    }
  }

  /** The canonical form only rearranges: it holds the same values under the same keys at every depth, with the
      named keys of each object ascending. */
  lemma {:induction false} NormalizeArranges(collate: Collation, v: Json)
    requires TotalPreorder(collate)
    ensures Shuffled(v, Normalize(collate, v)) && Ascends(collate, Normalize(collate, v))
    decreases v
  {
    match v
    case Atom(_) =>
    case Arr(items) => forall i | 0 <= i < |items|
        ensures Shuffled(items[i], Normalize(collate, items[i])) && Ascends(collate, Normalize(collate, items[i]))
      {
        NormalizeArranges(collate, items[i]);
      }
    case Obj(indexed, named) =>
      forall i | 0 <= i < |indexed|
        ensures Shuffled(indexed[i].value, Normalize(collate, indexed[i].value))
          && Ascends(collate, Normalize(collate, indexed[i].value))
      {
        NormalizeArranges(collate, indexed[i].value);
      }
      forall x | x in named
        ensures Shuffled(x.value, Normalize(collate, x.value)) && Ascends(collate, Normalize(collate, x.value))
      {
        NormalizeArranges(collate, x.value);
      }
      NormalPartners(collate, v);
      NamedAscend(collate, v);
  }

  // ---------------------------------------------------------------- tied keys do matter

  lemma {:induction false} OwnPartner(xs: seq<Entry>, x: Entry)
    requires x in xs && Shuffled(x.value, x.value)
    ensures HasPartner(x, xs) && HasSource(xs, x)
  {
  }

  lemma {:induction false} ShuffledRefl(v: Json)
    ensures Shuffled(v, v)
  {
    match v
    case Atom(_) =>
    case Arr(items) => forall i | 0 <= i < |items| ensures Shuffled(items[i], items[i]) { ShuffledRefl(items[i]); }
    case Obj(indexed, named) =>
      forall i | 0 <= i < |indexed|
        ensures Shuffled(indexed[i].value, indexed[i].value)
      {
        ShuffledRefl(indexed[i].value);
      }
      forall x | x in named ensures HasPartner(x, named) && HasSource(named, x) {
        var i :| 0 <= i < |named| && named[i] == x;
        ShuffledRefl(named[i].value);
        OwnPartner(named, x);
      }
  }

  ghost predicate Before<T>(s: seq<T>, x: T, y: T) { exists i, j :: 0 <= i < j < |s| && s[i] == x && s[j] == y }

  lemma {:induction false} InsertedBefore<T>(le: (T, T) -> bool, x: T, s: seq<T>, y: T)
    requires y in s && le(x, y)
    ensures Before(Insert(le, x, s), x, y)
  {
    var r := Insert(le, x, s);
    if le(x, s[0]) {
      var k :| 0 <= k < |s| && s[k] == y;
      assert r[0] == x && r[k + 1] == y;
    } else {
      assert y in s[1..];
      InsertedBefore(le, x, s[1..], y);
      var i, j :| 0 <= i < j < |Insert(le, x, s[1..])| && Insert(le, x, s[1..])[i] == x
        && Insert(le, x, s[1..])[j] == y;
      assert r[i + 1] == x && r[j + 1] == y;
    }
  }

  lemma {:induction false} InsertContains<T>(le: (T, T) -> bool, x: T, s: seq<T>)
    ensures x in Insert(le, x, s)
  {
    if !(s == [] || le(x, s[0])) { InsertContains(le, x, s[1..]); }
  }

  /** The sort is stable: of two tied entries, the one listed first comes out first. */
  lemma {:induction false} TiedKeepTheirOrder(le: (Entry, Entry) -> bool, a: Entry, b: Entry, others: seq<Entry>)
    requires le(a, b)
    ensures Before(Sort(le, [a, b] + others), a, b)
  {
    var all := [a, b] + others;
    assert all[1..] == [b] + others && ([b] + others)[1..] == others;
    assert Sort(le, [b] + others) == Insert(le, b, Sort(le, others));
    assert Sort(le, all) == Insert(le, a, Insert(le, b, Sort(le, others)));
    InsertContains(le, b, Sort(le, others));
    InsertedBefore(le, a, Insert(le, b, Sort(le, others)), b);
  }

  lemma {:induction false} OneOrder(s: seq<Entry>, a: Entry, b: Entry)
    requires Distinct(s) && Before(s, a, b)
    ensures !Before(s, b, a)
  {
    var i, j :| 0 <= i < j < |s| && s[i] == a && s[j] == b;
    forall k, l | 0 <= k < l < |s| && s[k] == b ensures s[l] != a {
      assert k == j;
      assert s[i] != s[l];
    }
  }

  lemma {:induction false} TiedSortApart(collate: Collation, a: Entry, b: Entry, others: seq<Entry>)
    requires TotalPreorder(collate) && Tied(collate, a.key, b.key) && Distinct([a, b] + others)
    ensures Sort(ByKey(collate), [a, b] + others) != Sort(ByKey(collate), [b, a] + others)
  {
    KeysOrdered(collate);
    var le := ByKey(collate);
    TiedKeepTheirOrder(le, a, b, others);
    TiedKeepTheirOrder(le, b, a, others);
    SortDistinct(le, [a, b] + others);
    OneOrder(Sort(le, [a, b] + others), a, b);
  }

  /** The entries at `p` and `q` moved to the front. */
  function Fronted(named: seq<Entry>, p: nat, q: nat): seq<Entry>
    requires p < |named| && q < |named|
  {
    [named[p], named[q]] + Rest(named, if p < q then p else q, if p < q then q else p)
  }

  function Rest(named: seq<Entry>, p: nat, q: nat): seq<Entry>
    requires p <= q < |named|
  {
    if p == q then named[..p] + named[p + 1..] else named[..p] + named[p + 1..q] + named[q + 1..]
  }

  lemma {:induction false} FrontedSame(named: seq<Entry>, p: nat, q: nat)
    requires p < q < |named| && DistinctKeys(named)
    ensures DistinctKeys(Fronted(named, p, q)) && DistinctKeys(Fronted(named, q, p))
    ensures forall x :: x in Fronted(named, p, q) <==> x in named
    ensures forall x :: x in Fronted(named, q, p) <==> x in named
    ensures |Fronted(named, p, q)| == |Fronted(named, q, p)| == |named|
  {
    FrontedMembers(named, p, q);
    FrontedKeys(named, p, q);
  }

  lemma {:induction false} FrontedMembers(named: seq<Entry>, p: nat, q: nat)
    requires p < q < |named|
    ensures forall x :: x in Fronted(named, p, q) <==> x in named
    ensures forall x :: x in Fronted(named, q, p) <==> x in named
    ensures |Fronted(named, p, q)| == |Fronted(named, q, p)| == |named|
  {
    var r := Rest(named, p, q);
    assert named == named[..p] + [named[p]] + named[p + 1..q] + [named[q]] + named[q + 1..];
    forall x ensures x in named <==> x in r || x == named[p] || x == named[q] { }
  }

  lemma {:induction false} FrontedKeys(named: seq<Entry>, p: nat, q: nat)
    requires p < q < |named| && DistinctKeys(named)
    ensures DistinctKeys(Fronted(named, p, q)) && DistinctKeys(Fronted(named, q, p))
  {
    var r := Rest(named, p, q);
    forall i | 0 <= i < |r| ensures r[i] == named[if i < p then i else if i < q - 1 then i + 1 else i + 2] { }
    forall i | 0 <= i < |r| ensures r[i].key != named[p].key && r[i].key != named[q].key { }
  }

  lemma {:induction false} ShuffledNamed(indexed: seq<IndexEntry>, xs: seq<Entry>, ys: seq<Entry>)
    requires forall x :: x in xs <==> x in ys
    ensures Shuffled(Obj(indexed, xs), Obj(indexed, ys))
  {
    forall i | 0 <= i < |indexed|
      ensures Shuffled(indexed[i].value, indexed[i].value)
    {
      ShuffledRefl(indexed[i].value);
    }
    forall x | x in xs ensures HasPartner(x, ys) { ShuffledRefl(x.value); assert x in ys; }
    forall y | y in ys ensures HasSource(xs, y) { ShuffledRefl(y.value); assert y in xs; }
  }

  lemma {:induction false} FormedNamed(indexed: seq<IndexEntry>, xs: seq<Entry>, ys: seq<Entry>)
    requires WellFormed(Obj(indexed, xs)) && DistinctKeys(ys) && forall y :: y in ys ==> y in xs
    ensures WellFormed(Obj(indexed, ys))
  {
    forall i | 0 <= i < |ys| ensures WellFormed(ys[i].value) {
      assert ys[i] in xs;
      var k :| 0 <= k < |xs| && xs[k] == ys[i];
    }
  }

  lemma {:induction false} FrontedApart(collate: Collation, indexed: seq<IndexEntry>, named: seq<Entry>, p: nat, q: nat)
    requires TotalPreorder(collate) && p < q < |named| && DistinctKeys(named)
      && Tied(collate, named[p].key, named[q].key)
    ensures Normalize(collate, Obj(indexed, Fronted(named, p, q)))
      != Normalize(collate, Obj(indexed, Fronted(named, q, p)))
  {
    var a, b := NormalEntry(collate, named[p]), NormalEntry(collate, named[q]);
    var others := NormalizeEach(collate, Rest(named, p, q));
    FrontedKeys(named, p, q);
    assert NormalizeEach(collate, Fronted(named, p, q)) == [a, b] + others;
    assert NormalizeEach(collate, Fronted(named, q, p)) == [b, a] + others;
    NormalizeObj(collate, Obj(indexed, Fronted(named, p, q)));
    NormalizeObj(collate, Obj(indexed, Fronted(named, q, p)));
    DistinctNormal(collate, Fronted(named, p, q));
    TiedSortApart(collate, a, b, others);
  }

  lemma {:induction false} DistinctNormal(collate: Collation, named: seq<Entry>)
    requires DistinctKeys(named)
    ensures Distinct(NormalizeEach(collate, named))
  {
  }

  lemma {:induction false} TiedAtTop(collate: Collation, v: Json, p: nat, q: nat) returns (w1: Json, w2: Json)
    requires TotalPreorder(collate) && WellFormed(v) && v.Obj?
    requires p < q < |v.named| && Tied(collate, v.named[p].key, v.named[q].key)
    ensures WellFormed(w1) && WellFormed(w2) && Shuffled(v, w1) && Shuffled(v, w2)
    ensures Normalize(collate, w1) != Normalize(collate, w2)
  {
    w1, w2 := Obj(v.indexed, Fronted(v.named, p, q)), Obj(v.indexed, Fronted(v.named, q, p));
    FrontedSame(v.named, p, q);
    assert v == Obj(v.indexed, v.named);
    ShuffledNamed(v.indexed, v.named, w1.named);
    ShuffledNamed(v.indexed, v.named, w2.named);
    FormedNamed(v.indexed, v.named, w1.named);
    FormedNamed(v.indexed, v.named, w2.named);
    FrontedApart(collate, v.indexed, v.named, p, q);
  }

  /** Two values of the same shape as `v` that a reader of key order would confuse with it, but that
      normalise differently. */
  ghost predicate Confusable(collate: Collation, v: Json, w1: Json, w2: Json) {
    && WellFormed(w1) && WellFormed(w2) && Shuffled(v, w1) && Shuffled(v, w2)
    && Normalize(collate, w1) != Normalize(collate, w2)
  }

  lemma {:induction false} ReplacedItem(v: Json, i: nat, w: Json)
    requires v.Arr? && i < |v.items| && WellFormed(v) && WellFormed(w) && Shuffled(v.items[i], w)
    ensures WellFormed(Arr(v.items[i := w])) && Shuffled(v, Arr(v.items[i := w]))
  {
    forall k | 0 <= k < |v.items| ensures Shuffled(v.items[k], v.items[i := w][k]) { ShuffledRefl(v.items[k]); }
  }

  lemma {:induction false} ReplacedIndexed(v: Json, i: nat, w: Json)
    requires v.Obj? && i < |v.indexed| && WellFormed(v) && WellFormed(w) && Shuffled(v.indexed[i].value, w)
    ensures var u := Obj(v.indexed[i := IndexEntry(v.indexed[i].index, w)], v.named); WellFormed(u) && Shuffled(v, u)
  {
    var u := Obj(v.indexed[i := IndexEntry(v.indexed[i].index, w)], v.named);
    forall k | 0 <= k < |v.indexed|
      ensures Shuffled(v.indexed[k].value, u.indexed[k].value)
    {
      ShuffledRefl(v.indexed[k].value);
    }
    forall x | x in v.named ensures Shuffled(x.value, x.value) { ShuffledRefl(x.value); }
  }

  lemma {:induction false} ReplacedEntries(xs: seq<Entry>, i: nat, w: Json)
    requires i < |xs| && Shuffled(xs[i].value, w)
    ensures var ys := xs[i := Entry(xs[i].key, w)];
      && (forall x :: x in xs ==> HasPartner(x, ys))
      && (forall y :: y in ys ==> HasSource(xs, y))
  {
    var ys := xs[i := Entry(xs[i].key, w)];
    forall k | 0 <= k < |xs|
      ensures ys[k].key == xs[k].key && Shuffled(xs[k].value, ys[k].value)
    {
      ShuffledRefl(xs[k].value);
    }
    forall x | x in xs ensures HasPartner(x, ys) {
      var k :| 0 <= k < |xs| && xs[k] == x;
      assert ys[k] in ys;
    }
    forall y | y in ys ensures HasSource(xs, y) {
      var k :| 0 <= k < |ys| && ys[k] == y;
      assert xs[k] in xs;
    }
  }

  lemma {:induction false} ReplacedNamed(v: Json, i: nat, w: Json)
    requires v.Obj? && i < |v.named| && WellFormed(v) && WellFormed(w) && Shuffled(v.named[i].value, w)
    ensures var u := Obj(v.indexed, v.named[i := Entry(v.named[i].key, w)]); WellFormed(u) && Shuffled(v, u)
  {
    ReplacedEntries(v.named, i, w);
    forall k | 0 <= k < |v.indexed|
      ensures Shuffled(v.indexed[k].value, v.indexed[k].value)
    {
      ShuffledRefl(v.indexed[k].value);
    }
  }

  /** Different normal values under one key give different normal objects. */
  lemma {:induction false} NamedApart(collate: Collation, indexed: seq<IndexEntry>, xs: seq<Entry>, ys: seq<Entry>,
                                      i: nat)
    requires TotalPreorder(collate) && i < |xs| == |ys| && DistinctKeys(xs) && DistinctKeys(ys)
    requires xs[i].key == ys[i].key && Normalize(collate, xs[i].value) != Normalize(collate, ys[i].value)
    ensures Normalize(collate, Obj(indexed, xs)) != Normalize(collate, Obj(indexed, ys))
  {
    KeysOrdered(collate);
    var le, a, b := ByKey(collate), NormalizeEach(collate, xs), NormalizeEach(collate, ys);
    NormalizeObj(collate, Obj(indexed, xs));
    NormalizeObj(collate, Obj(indexed, ys));
    SortMembers(le, a, a[i]);
    SortMembers(le, b, a[i]);
    assert a[i] in a;
    forall j | 0 <= j < |b| ensures b[j] != a[i] { assert j != i ==> ys[j].key != ys[i].key; }
  }

  /** Wherever two keys of an object are tied, the canonical form depends on their insertion order. */
  lemma {:induction false} TiesAreConfusable(collate: Collation, v: Json) returns (w1: Json, w2: Json)
    requires TotalPreorder(collate) && WellFormed(v) && !TieFree(collate, v)
    ensures Confusable(collate, v, w1, w2)
    decreases v
  {
    match v
    case Arr(items) =>
      var i :| 0 <= i < |items| && !TieFree(collate, items[i]);
      var x1, x2 := TiesAreConfusable(collate, items[i]);
      w1, w2 := Arr(items[i := x1]), Arr(items[i := x2]);
      ReplacedItem(v, i, x1);
      ReplacedItem(v, i, x2);
      assert Normalize(collate, w1).items[i] != Normalize(collate, w2).items[i];
    case Obj(indexed, named) =>
      if !Separate(collate, named) {
        var p, q :| 0 <= p < |named| && 0 <= q < |named| && Tied(collate, named[p].key, named[q].key) && p != q;
        w1, w2 := TiedAtTop(collate, v, if p < q then p else q, if p < q then q else p);
      } else if i :| 0 <= i < |indexed| && !TieFree(collate, indexed[i].value) {
        var x1, x2 := TiesAreConfusable(collate, indexed[i].value);
        w1 := Obj(indexed[i := IndexEntry(indexed[i].index, x1)], named);
        w2 := Obj(indexed[i := IndexEntry(indexed[i].index, x2)], named);
        ReplacedIndexed(v, i, x1);
        ReplacedIndexed(v, i, x2);
        assert Normalize(collate, w1).indexed[i] != Normalize(collate, w2).indexed[i];
      } else {
        var i :| 0 <= i < |named| && !TieFree(collate, named[i].value);
        var x1, x2 := TiesAreConfusable(collate, named[i].value);
        w1 := Obj(indexed, named[i := Entry(named[i].key, x1)]);
        w2 := Obj(indexed, named[i := Entry(named[i].key, x2)]);
        ReplacedNamed(v, i, x1);
        ReplacedNamed(v, i, x2);
        NamedApart(collate, indexed, w1.named, w2.named, i);
      }
  }

  /** The canonical form ignores key order exactly when no object has two keys that the collation ties. */
  lemma {:induction false} OrderIgnoredExactlyWhenTieFree(collate: Collation, v: Json)
    requires TotalPreorder(collate) && WellFormed(v)
    ensures TieFree(collate, v) <==>
      forall w :: WellFormed(w) && Shuffled(v, w) ==> Normalize(collate, w) == Normalize(collate, v)
  {
    if TieFree(collate, v) {
      forall w | WellFormed(w) && Shuffled(v, w) ensures Normalize(collate, w) == Normalize(collate, v) {
        NormalizeForgetsOrder(collate, v, w);
      }
    } else {
      var w1, w2 := TiesAreConfusable(collate, v);
      var w := if Normalize(collate, w1) != Normalize(collate, v) then w1 else w2;
      assert WellFormed(w) && Shuffled(v, w) && Normalize(collate, w) != Normalize(collate, v);
    }
  }

  // ---------------------------------------------------------------- the manifest

  datatype AuditLog = AuditLog(
    id: string, actorUserId: Option<string>, warehouseId: Option<string>, action: string, resourceType: string,
    resourceId: Option<string>, metadata: Json, createdAt: int)

  /** How a row with canonical metadata is written out as JSON text. */
  type Renderer = AuditLog -> string

  type Hash = string -> string

  function Canonical(collate: Collation, render: Renderer, row: AuditLog): string {
    render(row.(metadata := Normalize(collate, row.metadata)))
  }

  /** Oldest first, then by the collation of the id. */
  function ByTime(collate: Collation): (AuditLog, AuditLog) -> bool {
    (a: AuditLog, b: AuditLog) => a.createdAt < b.createdAt || (a.createdAt == b.createdAt && collate(a.id, b.id))
  }

  lemma {:induction false} TimesOrdered(collate: Collation)
    requires TotalPreorder(collate)
    ensures TotalPreorder(ByTime(collate))
  {
    var le := ByTime(collate);
    forall a, b ensures le(a, b) || le(b, a) { assert collate(a.id, b.id) || collate(b.id, a.id); }
    forall a, b, c | le(a, b) && le(b, c) ensures le(a, c) {
      assert collate(a.id, b.id) && collate(b.id, c.id) ==> collate(a.id, c.id);
    }
  }

  /** The chain before any row: sixty-four zeros. */
  function Genesis(): string { seq(64, i => '0') }

  datatype ManifestEntry = ManifestEntry(id: string, createdAt: int, rowHash: string, chainHash: string)

  datatype Manifest = Manifest(count: nat, sha256: string, first: Option<int>,
    last: Option<int>, entries: seq<ManifestEntry>)

  function Link(hash: Hash, chain: string, row: string): string { hash(chain + ":" + hash(row)) }

  /** The chain hash after the given canonical rows. */
  function Chain(hash: Hash, rows: seq<string>): string {
    if rows == [] then Genesis() else Link(hash, Chain(hash, rows[..|rows| - 1]), rows[|rows| - 1])
  }

  function CanonicalRows(collate: Collation, render: Renderer, ordered: seq<AuditLog>): seq<string> {
    seq(|ordered|, i requires 0 <= i < |ordered| => Canonical(collate, render, ordered[i]))
  }

  function Entries(collate: Collation, render: Renderer, hash: Hash, ordered: seq<AuditLog>): seq<ManifestEntry> {
    var rows := CanonicalRows(collate, render, ordered);
    seq(|ordered|, i requires 0 <= i < |ordered| =>
      ManifestEntry(ordered[i].id, ordered[i].createdAt, hash(rows[i]), Chain(hash, rows[..i + 1])))
  }

  function ManifestOf(collate: Collation, render: Renderer, hash: Hash, ordered: seq<AuditLog>): Manifest {
    Manifest(|ordered|, Chain(hash, CanonicalRows(collate, render, ordered)),
             if ordered == [] then None else Some(ordered[0].createdAt),
             if ordered == [] then None else Some(ordered[|ordered| - 1].createdAt),
             Entries(collate, render, hash, ordered))
  }

  lemma {:induction false} ChainNext(hash: Hash, rows: seq<string>, i: nat)
    requires i < |rows|
    ensures Chain(hash, rows[..i + 1]) == Link(hash, Chain(hash, rows[..i]), rows[i])
  {
    assert rows[..i + 1][..i] == rows[..i] && rows[..i + 1][i] == rows[i];
  }

  lemma {:induction false} EntriesNext(entries: seq<ManifestEntry>, i: nat)
    requires i < |entries|
    ensures entries[..i + 1] == entries[..i] + [entries[i]]
  {
  }

  method BuildHashManifest(collate: Collation, render: Renderer, hash: Hash, logs: seq<AuditLog>)
    returns (manifest: Manifest)
    ensures manifest == ManifestOf(collate, render, hash, Sort(ByTime(collate), logs))
  {
    var ordered := Sort(ByTime(collate), logs);
    var chainHash, entries := ChainRows(collate, render, hash, ordered);
    manifest := Manifest(|ordered|, chainHash, if ordered == [] then None else Some(ordered[0].createdAt),
                         if ordered == [] then None else Some(ordered[|ordered| - 1].createdAt), entries);
  }

  /** The loop over the ordered rows. */
  method ChainRows(collate: Collation, render: Renderer, hash: Hash, ordered: seq<AuditLog>)
    returns (chainHash: string, entries: seq<ManifestEntry>)
    ensures chainHash == Chain(hash, CanonicalRows(collate, render, ordered))
      && entries == Entries(collate, render, hash, ordered)
  {
    ghost var rows, expected := CanonicalRows(collate, render, ordered), Entries(collate, render, hash, ordered);
    chainHash, entries := Genesis(), [];
    for i := 0 to |ordered|
      invariant chainHash == Chain(hash, rows[..i]) && entries == expected[..i]
    {
      var rowHash := hash(Canonical(collate, render, ordered[i]));
      ChainNext(hash, rows, i);
      EntriesNext(expected, i);
      chainHash := hash(chainHash + ":" + rowHash);
      entries := entries + [ManifestEntry(ordered[i].id, ordered[i].createdAt, rowHash, chainHash)];
    }
    assert rows[..|ordered|] == rows && expected[..|ordered|] == expected;
  }

  /** Oldest first, and by the collation of their ids among rows of one moment. */
  ghost predicate Chronological(collate: Collation, rows: seq<AuditLog>) {
    forall i, j :: 0 <= i < j < |rows| ==>
      || rows[i].createdAt < rows[j].createdAt
      || (rows[i].createdAt == rows[j].createdAt && collate(rows[i].id, rows[j].id))
  }

  /** Each entry names its row, hashes the row with its metadata in canonical form, and hashes that onto the hash of
      the entry before it, or onto sixty-four zeros. */
  ghost predicate Linked(collate: Collation, render: Renderer, hash: Hash, row: AuditLog, before: string,
                         entry: ManifestEntry)
  {
    && entry.id == row.id && entry.createdAt == row.createdAt
    && entry.rowHash == hash(render(row.(metadata := Normalize(collate, row.metadata))))
    && entry.chainHash == hash(before + ":" + entry.rowHash)
  }

  /** The hash that `n` entries come to. */
  function HashBefore(entries: seq<ManifestEntry>, n: nat): string
    requires n <= |entries|
  {
    if n > 0 then entries[n - 1].chainHash else Genesis()
  }

  lemma {:induction false} EntryLinked(collate: Collation, render: Renderer, hash: Hash, ordered: seq<AuditLog>, i: nat)
    requires i < |ordered|
    ensures var entries := Entries(collate, render, hash, ordered);
      Linked(collate, render, hash, ordered[i], HashBefore(entries, i), entries[i])
  {
    ChainNext(hash, CanonicalRows(collate, render, ordered), i);
  }

  lemma {:induction false} LastLink(collate: Collation, render: Renderer, hash: Hash, ordered: seq<AuditLog>)
    ensures var rows, entries := CanonicalRows(collate, render, ordered), Entries(collate, render, hash, ordered);
      Chain(hash, rows) == HashBefore(entries, |entries|)
  {
    var rows := CanonicalRows(collate, render, ordered);
    assert rows[..|rows|] == rows;
  }

  /** The manifest lists every row once, oldest first, each linked to the one before it, and names the number of rows,
      the last link, and the least and greatest times. */
  lemma {:induction false} ManifestCorrect(collate: Collation, render: Renderer, hash: Hash, logs: seq<AuditLog>)
    returns (ordered: seq<AuditLog>)
    requires TotalPreorder(collate)
    ensures multiset(ordered) == multiset(logs) && Chronological(collate, ordered)
    ensures var m := ManifestOf(collate, render, hash, Sort(ByTime(collate), logs));
      && m.count == |m.entries| == |ordered| == |logs| && m.sha256 == HashBefore(m.entries, m.count)
      && (forall i :: 0 <= i < m.count ==>
            Linked(collate, render, hash, ordered[i], HashBefore(m.entries, i), m.entries[i]))
      && |HashBefore(m.entries, 0)| == 64 && (forall c :: c in HashBefore(m.entries, 0) ==> c == '0')
      && (logs == [] ==> m.first == m.last == None)
      && (logs != [] ==> (exists l :: l in logs && m.first == Some(l.createdAt))
                         && (exists l :: l in logs && m.last == Some(l.createdAt))
                         && forall l :: l in logs ==> m.first.value <= l.createdAt <= m.last.value)
  {
    TimesOrdered(collate);
    ordered := Sort(ByTime(collate), logs);
    SortCorrect(ByTime(collate), logs);
    forall i, j | 0 <= i < j < |ordered| ensures ByTime(collate)(ordered[i], ordered[j]) { }
    LastLink(collate, render, hash, ordered);
    forall i | 0 <= i < |ordered|
      ensures var entries := Entries(collate, render, hash, ordered);
        Linked(collate, render, hash, ordered[i], HashBefore(entries, i), entries[i])
    {
      EntryLinked(collate, render, hash, ordered, i);
    }
    TimesBound(collate, logs, ordered);
  }

  lemma {:induction false} TimesBound(collate: Collation, logs: seq<AuditLog>, ordered: seq<AuditLog>)
    requires multiset(ordered) == multiset(logs) && Chronological(collate, ordered)
    ensures |ordered| == |logs|
    ensures logs != [] ==> ordered[0] in logs && ordered[|ordered| - 1] in logs
    ensures forall l :: l in logs ==> ordered[0].createdAt <= l.createdAt <= ordered[|ordered| - 1].createdAt
  {
    assert |ordered| == |multiset(ordered)| == |multiset(logs)| == |logs|;
    if logs != [] {
      assert ordered[0] in multiset(ordered) && ordered[|ordered| - 1] in multiset(ordered);
    }
    forall l | l in logs ensures ordered[0].createdAt <= l.createdAt <= ordered[|ordered| - 1].createdAt {
      assert l in multiset(logs);
      var k :| 0 <= k < |ordered| && ordered[k] == l;
    }
  }

  /** Any two logs of the same moment have ids that the collation tells apart, as distinct UUIDs do. */
  ghost predicate IdsSeparate(collate: Collation, logs: seq<AuditLog>) {
    forall i, j :: 0 <= i < |logs| && 0 <= j < |logs| && logs[i].createdAt == logs[j].createdAt
        && Tied(collate, logs[i].id, logs[j].id)
      ==> logs[i] == logs[j]
  }

  /** The export does not depend on the order in which the rows were read. */
  lemma {:induction false} ManifestForgetsOrder(collate: Collation, render: Renderer, hash: Hash, logs: seq<AuditLog>,
                                                shuffled: seq<AuditLog>)
    requires TotalPreorder(collate) && multiset(logs) == multiset(shuffled) && IdsSeparate(collate, logs)
    ensures ManifestOf(collate, render, hash, Sort(ByTime(collate), logs))
      == ManifestOf(collate, render, hash, Sort(ByTime(collate), shuffled))
  {
    TimesOrdered(collate);
    var le := ByTime(collate);
    SortCorrect(le, logs);
    SortCorrect(le, shuffled);
    var a := Sort(le, logs);
    forall i, j | 0 <= i < |a| && 0 <= j < |a| && le(a[i], a[j]) && le(a[j], a[i]) ensures a[i] == a[j] {
      SortMembers(le, logs, a[i]);
      SortMembers(le, logs, a[j]);
      var p :| 0 <= p < |logs| && logs[p] == a[i];
      var q :| 0 <= q < |logs| && logs[q] == a[j];
    }
    SortedUnique(le, a, Sort(le, shuffled));
  }

  /** No two entries have ids that the collation ties at one moment: no two rows share an id. */
  ghost predicate IdsDistinct(collate: Collation, logs: seq<AuditLog>) {
    forall i, j :: 0 <= i < |logs| && 0 <= j < |logs| && logs[i].createdAt == logs[j].createdAt
        && Tied(collate, logs[i].id, logs[j].id)
      ==> i == j
  }

  /** The same entry with the keys of its metadata in another order, at any depth. */
  ghost predicate Rekeyed(collate: Collation, row: AuditLog, row': AuditLog) {
    && row' == row.(metadata := row'.metadata)
    && Shuffled(row.metadata, row'.metadata) && WellFormed(row.metadata) && WellFormed(row'.metadata)
    && TieFree(collate, row.metadata)
  }

  ghost predicate AllRekeyed(collate: Collation, logs: seq<AuditLog>, logs': seq<AuditLog>) {
    |logs'| == |logs| && forall i :: 0 <= i < |logs| ==> Rekeyed(collate, logs[i], logs'[i])
  }

  /** Sorting by time and id does not look at metadata. */
  lemma {:induction false} InsertRekeyed(collate: Collation, x: AuditLog, x': AuditLog, s: seq<AuditLog>,
                                         s': seq<AuditLog>)
    requires Rekeyed(collate, x, x') && AllRekeyed(collate, s, s')
    ensures AllRekeyed(collate, Insert(ByTime(collate), x, s), Insert(ByTime(collate), x', s'))
  {
    if s != [] {
      assert Rekeyed(collate, s[0], s'[0]);
      assert AllRekeyed(collate, s[1..], s'[1..]);
      InsertRekeyed(collate, x, x', s[1..], s'[1..]);
    }
  }

  lemma {:induction false} SortRekeyed(collate: Collation, logs: seq<AuditLog>, logs': seq<AuditLog>)
    requires AllRekeyed(collate, logs, logs')
    ensures AllRekeyed(collate, Sort(ByTime(collate), logs), Sort(ByTime(collate), logs'))
  {
    if logs != [] {
      assert Rekeyed(collate, logs[0], logs'[0]);
      assert AllRekeyed(collate, logs[1..], logs'[1..]);
      SortRekeyed(collate, logs[1..], logs'[1..]);
      InsertRekeyed(collate, logs[0], logs'[0], Sort(ByTime(collate), logs[1..]), Sort(ByTime(collate), logs'[1..]));
    }
  }

  lemma {:induction false} RekeyedManifest(collate: Collation, render: Renderer, hash: Hash, logs: seq<AuditLog>,
                                           logs': seq<AuditLog>)
    requires TotalPreorder(collate) && AllRekeyed(collate, logs, logs')
    ensures ManifestOf(collate, render, hash, logs) == ManifestOf(collate, render, hash, logs')
  {
    forall i | 0 <= i < |logs| ensures Canonical(collate, render, logs[i]) == Canonical(collate, render, logs'[i])
      && logs[i].id == logs'[i].id && logs[i].createdAt == logs'[i].createdAt
    {
      assert Rekeyed(collate, logs[i], logs'[i]);
      NormalizeForgetsOrder(collate, logs[i].metadata, logs'[i].metadata);
      assert logs'[i].(metadata := Normalize(collate, logs'[i].metadata))
        == logs[i].(metadata := Normalize(collate, logs[i].metadata));
    }
    assert CanonicalRows(collate, render, logs) == CanonicalRows(collate, render, logs');
    assert Entries(collate, render, hash, logs) == Entries(collate, render, hash, logs');
  }

  /** The manifest ignores both orders at once: the keys of every entry's metadata are put in another order,
      and then the entries are. */
  lemma {:induction false} ManifestForgetsArrangement(collate: Collation, render: Renderer, hash: Hash,
                                                      logs: seq<AuditLog>,
                                                      rekeyed: seq<AuditLog>, shuffled: seq<AuditLog>)
    requires TotalPreorder(collate) && IdsDistinct(collate, logs)
    requires AllRekeyed(collate, logs, rekeyed) && multiset(shuffled) == multiset(rekeyed)
    ensures ManifestOf(collate, render, hash, Sort(ByTime(collate), logs))
      == ManifestOf(collate, render, hash, Sort(ByTime(collate), shuffled))
  {
    forall i | 0 <= i < |logs| ensures rekeyed[i].id == logs[i].id && rekeyed[i].createdAt == logs[i].createdAt {
      assert Rekeyed(collate, logs[i], rekeyed[i]);
    }
    SortRekeyed(collate, logs, rekeyed);
    RekeyedManifest(collate, render, hash, Sort(ByTime(collate), logs), Sort(ByTime(collate), rekeyed));
    ManifestForgetsOrder(collate, render, hash, rekeyed, shuffled);
  }

  // ---------------------------------------------------------------- what the final hash proves

  predicate NoColon(s: string) { ':' !in s }

  /** Hexadecimal digests contain no colon. */
  ghost predicate HexDigests(hash: Hash) { forall s :: NoColon(hash(s)) }

  predicate Collision(hash: Hash, x: string, y: string) { x != y && hash(x) == hash(y) }

  /** What breaks SHA-256: two texts with one digest, or a text whose digest is all zeros. */
  predicate Broken(hash: Hash, x: string, y: string) { Collision(hash, x, y) || hash(x) == Genesis() }

  lemma {:induction false} SplitAtColon(a: string, b: string, c: string, d: string)
    requires NoColon(a) && NoColon(c) && a + ":" + b == c + ":" + d
    ensures a == c && b == d
  {
    var s, t := a + ":" + b, c + ":" + d;
    assert s[|a|] == ':' && t[|c|] == ':';
    assert (forall i :: 0 <= i < |a| ==> s[i] == a[i] && a[i] in a)
      && (forall i :: 0 <= i < |c| ==> t[i] == c[i] && c[i] in c);
    assert |a| == |c|;
    assert s[..|a|] == a && t[..|c|] == c && s[|a| + 1..] == b && t[|c| + 1..] == d;
  }

  lemma {:induction false} ChainHasNoColon(hash: Hash, rows: seq<string>)
    requires HexDigests(hash)
    ensures NoColon(Chain(hash, rows))
  {
  }

  /** Two chains with one final hash are over the same canonical rows in the same order, or they exhibit
      texts that break the hash function. Nothing is assumed of the hash but that digests are hexadecimal. */
  lemma {:induction false} FinalHashDeterminesRows(hash: Hash, rows: seq<string>, rows': seq<string>)
    returns (x: string, y: string)
    requires HexDigests(hash) && Chain(hash, rows) == Chain(hash, rows')
    ensures rows == rows' || Broken(hash, x, y)
    decreases |rows|
  {
    x, y := "", "";
    if rows != [] && rows' != [] {
      var front, front', last, last' := rows[..|rows| - 1], rows'[..|rows'| - 1], rows[|rows| - 1], rows'[|rows'| - 1];
      x, y := Chain(hash, front) + ":" + hash(last), Chain(hash, front') + ":" + hash(last');
      if x == y {
        ChainHasNoColon(hash, front);
        ChainHasNoColon(hash, front');
        SplitAtColon(Chain(hash, front), hash(last), Chain(hash, front'), hash(last'));
        if last != last' {
          x, y := last, last';
        } else {
          x, y := FinalHashDeterminesRows(hash, front, front');
          assert front == front' ==> rows == front + [last] && rows' == front' + [last'];
        }
      }
    } else if rows != [] {
      x := Chain(hash, rows[..|rows| - 1]) + ":" + hash(rows[|rows| - 1]);
    } else if rows' != [] {
      x := Chain(hash, rows'[..|rows'| - 1]) + ":" + hash(rows'[|rows'| - 1]);
    }
  }

  /** Two exports with the same digest list the same canonical rows in the same order, unless SHA-256 is broken. */
  lemma {:induction false} DigestDeterminesExport(collate: Collation, render: Renderer, hash: Hash, logs: seq<AuditLog>,
                                                  logs': seq<AuditLog>)
    returns (x: string, y: string)
    requires HexDigests(hash)
    requires ManifestOf(collate, render, hash, logs).sha256 == ManifestOf(collate, render, hash, logs').sha256
    ensures CanonicalRows(collate, render, logs) == CanonicalRows(collate, render, logs') || Broken(hash, x, y)
  {
    x, y := FinalHashDeterminesRows(hash, CanonicalRows(collate, render, logs), CanonicalRows(collate, render, logs'));
  }
}
