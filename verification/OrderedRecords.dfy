/** Records kept in key order, as a `BTreeMap<String, _>` keeps them. */
module OrderedRecords {

  datatype Entry<V> = Entry(key: string, value: V)

  // ----- Keys compare by code point, which is how Rust orders strings -----

  predicate Below(a: string, b: string) {
    b != "" && (a == "" || a[0] < b[0] || (a[0] == b[0] && Below(a[1..], b[1..])))
  }

  lemma {:induction false} BelowOrders(a: string, b: string)
    ensures !(Below(a, b) && Below(b, a)) && !Below(a, a)
    ensures Below(a, b) || Below(b, a) || a == b
  {
    if a != "" && b != "" {
      BelowOrders(a[1..], b[1..]);
      assert a == [a[0]] + a[1..] && b == [b[0]] + b[1..];
    }
    if a != "" { BelowOrders(a[1..], a[1..]); }
  }

  lemma {:induction false} BelowTransitive(a: string, b: string, c: string)
    requires Below(a, b) && Below(b, c)
    ensures Below(a, c)
  {
    if a != "" && a[0] == b[0] && b[0] == c[0] { BelowTransitive(a[1..], b[1..], c[1..]); }
  }

  // ----- Insertion -----

  function AsMap<V>(es: seq<Entry<V>>): map<string, V> {
    if es == [] then map[] else AsMap(es[1..])[es[0].key := es[0].value]
  }

  ghost predicate Ordered<V>(es: seq<Entry<V>>) {
    es == [] || (Ordered(es[1..]) && forall k :: k in AsMap(es[1..]) ==> Below(es[0].key, k))
  }

  function Insert<V>(es: seq<Entry<V>>, key: string, value: V): seq<Entry<V>> {
    if es == [] || Below(key, es[0].key) then [Entry(key, value)] + es
    else if key == es[0].key then [Entry(key, value)] + es[1..]
    else [es[0]] + Insert(es[1..], key, value)
  }

  lemma {:induction false} InsertMeans<V>(es: seq<Entry<V>>, key: string, value: V)
    ensures AsMap(Insert(es, key, value)) == AsMap(es)[key := value]
  {
    if es != [] && !Below(key, es[0].key) && key != es[0].key {
      InsertMeans(es[1..], key, value);
      assert ([es[0]] + Insert(es[1..], key, value))[1..] == Insert(es[1..], key, value);
    }
  }

  lemma OrderedCons<V>(e: Entry<V>, es: seq<Entry<V>>)
    requires Ordered(es) && forall k :: k in AsMap(es) ==> Below(e.key, k)
    ensures Ordered([e] + es)
  {
    assert ([e] + es)[1..] == es;
  }

  lemma {:induction false} InsertOrdered<V>(es: seq<Entry<V>>, key: string, value: V)
    requires Ordered(es)
    ensures Ordered(Insert(es, key, value))
  {
    var e := Entry(key, value);
    if es == [] {
    } else if Below(key, es[0].key) {
      forall k | k in AsMap(es) ensures Below(key, k) {
        if k != es[0].key { BelowTransitive(key, es[0].key, k); }
      }
      OrderedCons(e, es);
    } else if key == es[0].key {
      OrderedCons(e, es[1..]);
    } else {
      BelowOrders(key, es[0].key);
      InsertOrdered(es[1..], key, value);
      InsertMeans(es[1..], key, value);
      OrderedCons(es[0], Insert(es[1..], key, value));
    }
  }

  lemma EmptyMap<V>(es: seq<Entry<V>>)
    ensures es == [] <==> AsMap(es) == map[]
  {
    if es != [] { assert es[0].key in AsMap(es); }
  }

  /** Ordered entries are determined by the map they denote. */
  lemma {:induction false} OrderedUnique<V>(a: seq<Entry<V>>, b: seq<Entry<V>>)
    requires Ordered(a) && Ordered(b) && AsMap(a) == AsMap(b)
    ensures a == b
  {
    EmptyMap(a);
    EmptyMap(b);
    if a != [] {
      var x, y := a[0].key, b[0].key;
      assert x in AsMap(b) && y in AsMap(a);
      BelowOrders(x, y);
      BelowOrders(x, x);
      assert x == y;
      assert AsMap(a[1..]) == AsMap(a) - {x} && AsMap(b[1..]) == AsMap(b) - {x};
      OrderedUnique(a[1..], b[1..]);
      assert a == [a[0]] + a[1..] && b == [b[0]] + b[1..];
    }
  }

  // ----- Reading entries back in order -----

  lemma {:induction false} AsMapSnoc<V>(es: seq<Entry<V>>, e: Entry<V>)
    requires e.key !in AsMap(es)
    ensures AsMap(es + [e]) == AsMap(es)[e.key := e.value]
  {
    if es == [] {
      assert es + [e] == [e] && [e][1..] == [];
    } else {
      assert (es + [e])[1..] == es[1..] + [e];
      AsMapSnoc(es[1..], e);
    }
  }

  lemma {:induction false} KeyListed<V>(es: seq<Entry<V>>, e: Entry<V>)
    requires e in es
    ensures e.key in AsMap(es)
  {
    if e != es[0] { KeyListed(es[1..], e); }
  }

  lemma {:induction false} KeysAreEntries<V>(es: seq<Entry<V>>, key: string)
    requires key in AsMap(es)
    ensures Entry(key, AsMap(es)[key]) in es
  {
    if key != es[0].key { KeysAreEntries(es[1..], key); }
  }

  lemma {:induction false} OrderedPrefix<V>(es: seq<Entry<V>>, e: Entry<V>)
    requires Ordered(es + [e])
    ensures Ordered(es) && e.key !in AsMap(es) && Insert(es, e.key, e.value) == es + [e]
  {
    if es == [] {
      assert es + [e] == [e];
    } else {
      assert (es + [e])[1..] == es[1..] + [e];
      OrderedPrefix(es[1..], e);
      AsMapSnoc(es[1..], e);
      assert e.key in AsMap((es + [e])[1..]);
      BelowOrders(es[0].key, e.key);
      BelowOrders(es[0].key, es[0].key);
      assert [es[0]] + (es[1..] + [e]) == es + [e];
    }
  }

  // ----- The order of keys -----

  /** a and b agree up to k, where a ends before b does, or has the smaller character. */
  predicate LessAt(a: string, b: string, k: nat) {
    k <= |a| && k < |b| && a[..k] == b[..k] && (k == |a| || a[k] < b[k])
  }

  /** Keys are ordered as words in a dictionary are, by code point. */
  lemma {:induction false} BelowIff(a: string, b: string)
    ensures Below(a, b) <==> exists k: nat :: LessAt(a, b, k)
  {
    if a == "" && b != "" {
      assert LessAt(a, b, 0);
    } else if a != "" && b != "" {
      BelowIff(a[1..], b[1..]);
      if a[0] < b[0] { assert LessAt(a, b, 0); }
      if a[0] == b[0] { LessAtNext(a, b); }
    }
  }

  lemma LessAtNext(a: string, b: string)
    requires a != "" && b != "" && a[0] == b[0]
    ensures (exists k: nat :: LessAt(a[1..], b[1..], k)) <==> exists k: nat :: LessAt(a, b, k)
  {
    if k: nat :| LessAt(a[1..], b[1..], k) {
      assert a[..k + 1] == [a[0]] + a[1..][..k] && b[..k + 1] == [b[0]] + b[1..][..k];
      assert LessAt(a, b, k + 1);
    }
    if k: nat :| LessAt(a, b, k) {
      assert k > 0;
      assert a[1..][..k - 1] == a[..k][1..] && b[1..][..k - 1] == b[..k][1..];
      assert LessAt(a[1..], b[1..], k - 1);
    }
  }
}
