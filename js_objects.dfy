/**
 * Plain JavaScript objects whose property values are strings, as the
 * `scripts`, `dependencies` and `devDependencies` records of a manifest are.
 * An object is its own-property list in insertion order, so that the order
 * JSON serialisation follows is part of the model.
 */
module JsObjects {

  type Entry = (string, string)

  type Entries = seq<Entry>

  /** The property names, in insertion order. */
  function KeyList(o: Entries): (ks: seq<string>)
    ensures |ks| == |o|
  {
    if o == [] then [] else [o[0].0] + KeyList(o[1..])
  }

  /** The `i`-th name is the name of the `i`-th entry. */
  lemma {:induction false} KeyListAt(o: Entries, i: nat)
    requires i < |o|
    ensures KeyList(o)[i] == o[i].0
  {
    if i > 0 {
      KeyListAt(o[1..], i - 1);
    }
  }

  /** No property name occurs twice (true of every object `JSON.parse` builds). */
  predicate UniqueKeys(o: Entries)
  {
    o == [] || (o[0].0 !in KeyList(o[1..]) && UniqueKeys(o[1..]))
  }

  type Object = o: Entries | UniqueKeys(o) witness []

  /** The object as a dictionary; a later entry for the same name wins. */
  function ToMap(o: Entries): map<string, string>
  {
    if o == [] then map[] else map[o[0].0 := o[0].1] + ToMap(o[1..])
  }

  /** The dictionary view has exactly the object's property names. */
  lemma {:induction false} ToMapKeys(o: Entries)
    ensures forall k :: k in ToMap(o) <==> k in KeyList(o)
  {
    if o != [] {
      ToMapKeys(o[1..]);
      assert KeyList(o) == [o[0].0] + KeyList(o[1..]);
    }
  }

  /** In an object with unique names, every entry is what a lookup finds. */
  lemma {:induction false} ToMapAt(o: Entries, i: nat)
    requires UniqueKeys(o) && i < |o|
    ensures o[i].0 in ToMap(o) && ToMap(o)[o[i].0] == o[i].1
  {
    if i > 0 {
      ToMapAt(o[1..], i - 1);
    } else {
      ToMapKeys(o[1..]);
    }
  }

  /** The names of `ks` that are not in `seen`, in their order in `ks`. */
  function Unseen(ks: seq<string>, seen: seq<string>): seq<string>
  {
    if ks == [] then []
    else (if ks[0] in seen then [] else [ks[0]]) + Unseen(ks[1..], seen)
  }

  /** `Unseen` keeps exactly the names of `ks` that are not in `seen`. */
  lemma {:induction false} UnseenMembers(ks: seq<string>, seen: seq<string>)
    ensures forall k :: k in Unseen(ks, seen) <==> k in ks && k !in seen
  {
    if ks != [] {
      UnseenMembers(ks[1..], seen);
      assert ks == [ks[0]] + ks[1..];
    }
  }

  /** A name absent from `ks` can join `seen` without changing what is unseen. */
  lemma {:induction false} UnseenExtend(ks: seq<string>, seen: seq<string>, k: string)
    requires k !in ks
    ensures Unseen(ks, seen + [k]) == Unseen(ks, seen)
  {
    if ks != [] {
      UnseenExtend(ks[1..], seen, k);
    }
  }

  /**
   * Property assignment `o[k] = v`: an existing property keeps its position
   * and takes the new value; a new property is appended.
   */
  function Put(o: Entries, k: string, v: string): (r: Entries)
    ensures KeyList(r) == if k in KeyList(o) then KeyList(o) else KeyList(o) + [k]
  {
    if o == [] then [(k, v)]
    else if o[0].0 == k then [(k, v)] + o[1..]
    else [o[0]] + Put(o[1..], k, v)
  }

  /** Assignment keeps names unique. */
  lemma {:induction false} PutUnique(o: Entries, k: string, v: string)
    requires UniqueKeys(o)
    ensures UniqueKeys(Put(o, k, v))
  {
    if o != [] && o[0].0 != k {
      var tail := Put(o[1..], k, v);
      PutUnique(o[1..], k, v);
      assert ([o[0]] + tail)[1..] == tail;
    } else if o != [] {
      assert ([(k, v)] + o[1..])[1..] == o[1..];
    }
  }

  /** Assignment updates exactly the one name in the dictionary view. */
  lemma {:induction false} PutMap(o: Entries, k: string, v: string)
    requires UniqueKeys(o)
    ensures ToMap(Put(o, k, v)) == ToMap(o)[k := v]
  {
    if o != [] {
      var (k0, v0) := o[0];
      var rest := ToMap(o[1..]);
      if k0 == k {
        ToMapKeys(o[1..]);
        ReplaceFirst(k, v0, v, rest);
      } else {
        PutMap(o[1..], k, v);
        UpdateAfterUnion(map[k0 := v0], rest, k, v);
      }
    }
  }

  lemma ReplaceFirst(k: string, w: string, v: string, r: map<string, string>)
    requires k !in r
    ensures (map[k := w] + r)[k := v] == map[k := v] + r
  {
  }

  lemma UpdateAfterUnion(m: map<string, string>, r: map<string, string>, k: string, v: string)
    ensures m + r[k := v] == (m + r)[k := v]
  {
  }

  /** Assigning the value a property already has changes nothing. */
  lemma {:induction false} PutExisting(o: Entries, i: nat)
    requires UniqueKeys(o) && i < |o|
    ensures Put(o, o[i].0, o[i].1) == o
  {
    if i > 0 {
      KeyListAt(o[1..], i - 1);
      PutExisting(o[1..], i - 1);
    }
  }

  /** Assigning a name the object lacks appends it. */
  lemma {:induction false} PutFresh(o: Entries, k: string, v: string)
    requires k !in KeyList(o)
    ensures Put(o, k, v) == o + [(k, v)]
  {
    if o != [] {
      PutFresh(o[1..], k, v);
    }
  }

  /** `Object.assign`-style copy of every own property of `src`, in order, onto `o`. */
  function SpreadInto(o: Entries, src: Entries): (r: Entries)
    ensures KeyList(o) <= KeyList(r)
    ensures |o| <= |r| <= |o| + |src|
    decreases |src|
  {
    if src == [] then o else SpreadInto(Put(o, src[0].0, src[0].1), src[1..])
  }

  /** Spreading keeps names unique and behaves as a dictionary union in which `src` wins. */
  lemma {:induction false} SpreadIntoMap(o: Entries, src: Entries)
    requires UniqueKeys(o)
    ensures UniqueKeys(SpreadInto(o, src))
    ensures ToMap(SpreadInto(o, src)) == ToMap(o) + ToMap(src)
    decreases |src|
  {
    if src != [] {
      var (k, v) := src[0];
      var o' := Put(o, k, v);
      PutUnique(o, k, v);
      PutMap(o, k, v);
      SpreadIntoMap(o', src[1..]);
      UpdateThenUnion(ToMap(o), k, v, ToMap(src[1..]));
    }
  }

  lemma UpdateThenUnion(m: map<string, string>, k: string, v: string, r: map<string, string>)
    ensures m[k := v] + r == m + (map[k := v] + r)
  {
  }

  /** Spreading keeps the target's names in place and appends the new names of `src` in order. */
  lemma {:induction false} SpreadIntoOrder(o: Entries, src: Entries)
    requires UniqueKeys(src)
    ensures KeyList(SpreadInto(o, src)) == KeyList(o) + Unseen(KeyList(src), KeyList(o))
    decreases |src|
  {
    if src != [] {
      var (k, v) := src[0];
      var o' := Put(o, k, v);
      var ks, rest := KeyList(o), KeyList(src[1..]);
      SpreadIntoOrder(o', src[1..]);
      assert KeyList(src) == [k] + rest;
      UnseenStep(k, rest, ks);
    }
  }

  /** One step of `Unseen` over a name that does not occur again. */
  lemma UnseenStep(k: string, rest: seq<string>, seen: seq<string>)
    requires k !in rest
    ensures Unseen([k] + rest, seen) == (if k in seen then [] else [k]) + Unseen(rest, seen)
    ensures k !in seen ==> Unseen(rest, seen + [k]) == Unseen(rest, seen)
  {
    assert ([k] + rest)[1..] == rest;
    if k !in seen {
      UnseenExtend(rest, seen, k);
    }
  }

  /** Spreading an object's own entries back onto it changes nothing. */
  lemma {:induction false} SpreadIntoSelf(o: Entries, src: Entries)
    requires UniqueKeys(o)
    requires forall i :: 0 <= i < |src| ==> src[i] in o
    ensures SpreadInto(o, src) == o
    decreases |src|
  {
    if src != [] {
      assert src[0] in o;
      var i :| 0 <= i < |o| && o[i] == src[0];
      PutExisting(o, i);
      SpreadIntoSelf(o, src[1..]);
    }
  }

  /** Spreading an object whose names are all new appends its entries unchanged. */
  lemma {:induction false} SpreadIntoFresh(o: Entries, src: Entries)
    requires UniqueKeys(src)
    requires forall k :: k in KeyList(src) ==> k !in KeyList(o)
    ensures SpreadInto(o, src) == o + src
    decreases |src|
  {
    if src != [] {
      var (k, v) := src[0];
      var o', rest := o + [(k, v)], KeyList(src[1..]);
      assert KeyList(src) == [k] + rest;
      PutFresh(o, k, v);
      assert KeyList(o') == KeyList(o) + [k];
      forall k' | k' in rest ensures k' !in KeyList(o') {
        assert k' in KeyList(src) && k' != k;
      }
      assert o + src == o' + src[1..];
      SpreadIntoFresh(o', src[1..]);
    }
  }

  /**
   * The object literal `{ ...a, ...b }`. Its properties are those of both;
   * on a shared name the value is `b`'s; `a`'s names come first in their
   * own order, followed by the names only `b` has, in `b`'s order.
   */
  function Spread(a: Object, b: Object): (r: Object)
    ensures ToMap(r) == ToMap(a) + ToMap(b)
    ensures KeyList(r) == KeyList(a) + Unseen(KeyList(b), KeyList(a))
  {
    SpreadIntoFresh([], a);
    assert [] + a == a;
    SpreadIntoMap(a, b);
    SpreadIntoOrder(a, b);
    SpreadInto(SpreadInto([], a), b)
  }

  /** Spreading an object onto a copy of itself gives it back. */
  lemma SpreadSelf(a: Object)
    ensures Spread(a, a) == a
  {
    SpreadIntoFresh([], a);
    assert [] + a == a;
    SpreadIntoSelf(a, a);
  }

  /** Spreading the empty object adds nothing. */
  lemma SpreadEmpty(a: Object)
    ensures Spread(a, []) == a
  {
    SpreadIntoFresh([], a);
    assert [] + a == a;
  }
}
