/**
 * MetabaseList.dir without a layer: the listings of every backend merged into one dict,
 * where an earlier backend's entry takes precedence and names that do not start with a
 * letter are dropped; as a list, the merged names sorted.
 */
module Listing {

  import opened Wrappers
  import opened Errors
  import Names

  /** One backend's listing: its names, each with its value (None when not asked for a dict). */
  type Items<V> = seq<(string, V)>

  /** The listings one after the other, in backend order. */
  function Flatten<V>(ls: seq<Items<V>>): Items<V> {
    if ls == [] then [] else Flatten(ls[..|ls| - 1]) + ls[|ls| - 1]
  }

  /** `k[0].isalpha()`; an empty name has no first character (IndexError). */
  predicate Listed(k: string) {
    |k| > 0 && Names.IsAlpha(k[0])
  }

  /** One pass of the inner loop of dir. */
  function Step<V>(r: Result<map<string, V>, Error>, item: (string, V)): Result<map<string, V>, Error> {
    if r.Failure? then r
    else if |item.0| == 0 then Failure(IndexError)
    else if Listed(item.0) && item.0 !in r.value then Success(r.value[item.0 := item.1])
    else r
  }

  /** The dict dir builds from the items in the order it visits them. */
  function MergeAll<V>(items: Items<V>): (r: Result<map<string, V>, Error>)
    ensures r.Failure? ==> r.error == IndexError
    ensures r.Success? ==> forall k :: k in r.value ==> Listed(k)
  {
    if items == [] then Success(map[]) else Step(MergeAll(items[..|items| - 1]), items[|items| - 1])
  }

  /** The merge fails exactly when some name is empty. */
  lemma {:induction false} MergeFails<V>(items: Items<V>)
    ensures MergeAll(items).Failure? <==> exists i :: 0 <= i < |items| && items[i].0 == ""
    decreases |items|
  {
    if items != [] {
      var front := items[..|items| - 1];
      MergeFails(front);
      if exists i :: 0 <= i < |front| && front[i].0 == "" {
        var i :| 0 <= i < |front| && front[i].0 == "";
        assert items[i].0 == "";
      }
    }
  }

  /** A name is in the merge exactly when some backend lists it and it starts with a letter. */
  lemma {:induction false} MergeKeys<V>(items: Items<V>, k: string)
    requires MergeAll(items).Success?
    ensures k in MergeAll(items).value <==> Listed(k) && exists i :: 0 <= i < |items| && items[i].0 == k
    decreases |items|
  {
    if items != [] {
      var front := items[..|items| - 1];
      MergeKeys(front, k);
      if exists i :: 0 <= i < |front| && front[i].0 == k {
        var i :| 0 <= i < |front| && front[i].0 == k;
        assert items[i].0 == k;
      }
    }
  }

  /** The value kept for a name is the one at its first occurrence: the earliest backend wins. */
  lemma {:induction false} MergeEarliest<V>(items: Items<V>, i: nat)
    requires MergeAll(items).Success?
    requires i < |items| && Listed(items[i].0)
    requires forall j :: 0 <= j < i ==> items[j].0 != items[i].0
    ensures items[i].0 in MergeAll(items).value && MergeAll(items).value[items[i].0] == items[i].1
    decreases |items|
  {
    var front := items[..|items| - 1];
    if i < |front| {
      MergeEarliest(front, i);
    } else {
      MergeKeys(front, items[i].0);
    }
  }

  lemma {:induction false} FlattenAppend<V>(a: seq<Items<V>>, b: seq<Items<V>>)
    ensures Flatten(a + b) == Flatten(a) + Flatten(b)
    decreases |b|
  {
    if b != [] {
      var b' := b[..|b| - 1];
      assert (a + b)[..|a + b| - 1] == a + b';
      assert (a + b)[|a + b| - 1] == b[|b| - 1];
      FlattenAppend(a, b');
    } else {
      assert a + b == a;
    }
  }

  /** Once the merge has failed, later items change nothing. */
  lemma {:induction false} MergeStuck<V>(a: Items<V>, t: Items<V>)
    requires MergeAll(a).Failure?
    ensures MergeAll(a + t) == MergeAll(a)
    decreases |t|
  {
    if t != [] {
      var t' := t[..|t| - 1];
      assert (a + t)[..|a + t| - 1] == a + t';
      MergeStuck(a, t');
    } else {
      assert a + t == a;
    }
  }

  predicate Sorted(l: seq<string>) {
    forall i, j :: 0 <= i < j < |l| ==> Names.LexLess(l[i], l[j])
  }

  /** `l.sort()` of the distinct merged names. */
  method SortNames(keys: set<string>) returns (l: seq<string>)
    ensures Sorted(l)
    ensures forall k :: k in l <==> k in keys
    ensures |l| == |keys|
  {
    l := [];
    var rest := keys;
    while rest != {}
      invariant rest <= keys
      invariant Sorted(l)
      invariant forall k :: k in l <==> k in keys && k !in rest
      invariant |l| + |rest| == |keys|
      decreases rest
    {
      var k :| k in rest;
      var i := 0;
      while i < |l| && Names.LexLess(l[i], k)
        invariant 0 <= i <= |l|
        invariant forall j :: 0 <= j < i ==> Names.LexLess(l[j], k)
      {
        i := i + 1;
      }
      InsertSorted(l, i, k);
      l := l[..i] + [k] + l[i..];
      rest := rest - {k};
    }
  }

  /** Inserting a new name after every smaller one and before the rest keeps the list sorted. */
  lemma InsertSorted(l: seq<string>, i: nat, k: string)
    requires Sorted(l) && i <= |l| && k !in l
    requires forall j :: 0 <= j < i ==> Names.LexLess(l[j], k)
    requires i < |l| ==> !Names.LexLess(l[i], k)
    ensures Sorted(l[..i] + [k] + l[i..])
  {
    var m := l[..i] + [k] + l[i..];
    if i < |l| {
      Names.LexLessTotal(l[i], k);
      forall j | i < j < |l|
        ensures Names.LexLess(k, l[j])
      {
        Names.LexLessTransitive(k, l[i], l[j]);
      }
    }
    forall a, b | 0 <= a < b < |m|
      ensures Names.LexLess(m[a], m[b])
    {
      if a < i && b == i {
      } else if a < i && b > i {
        assert m[b] == l[b - 1];
        if b - 1 >= i {
          Names.LexLessTransitive(l[a], k, l[b - 1]);
        }
      } else if a == i {
        assert m[b] == l[b - 1];
      } else if a > i {
        assert m[a] == l[a - 1] && m[b] == l[b - 1];
      }
    }
  }

  /** dir(prefix, asDict=True) over the backends' listings: the nested loops of the source. */
  method DirDict<V>(ls: seq<Items<V>>) returns (r: Result<map<string, V>, Error>)
    ensures r == MergeAll(Flatten(ls))
  {
    r := Success(map[]);
    var i := 0;
    while i < |ls|
      invariant 0 <= i <= |ls|
      invariant r == MergeAll(Flatten(ls[..i])) && r.Success?
    {
      assert ls[..i + 1][..i] == ls[..i];
      r := MergeListing(r.value, Flatten(ls[..i]), ls[i]);
      if r.Failure? {
        assert ls == ls[..i + 1] + ls[i + 1..];
        FlattenAppend(ls[..i + 1], ls[i + 1..]);
        MergeStuck(Flatten(ls[..i + 1]), Flatten(ls[i + 1..]));
        return;
      }
      i := i + 1;
    }
    assert ls[..i] == ls;
  }

  /** The inner loop of dir: one backend's listing merged into what the earlier ones gave. */
  method MergeListing<V>(acc: map<string, V>, ghost seen: Items<V>, l: Items<V>) returns (r: Result<map<string, V>, Error>)
    requires MergeAll(seen) == Success(acc)
    ensures r == MergeAll(seen + l)
  {
    r := Success(acc);
    var j := 0;
    assert seen + l[..0] == seen;
    while j < |l|
      invariant 0 <= j <= |l|
      invariant r == MergeAll(seen + l[..j]) && r.Success?
    {
      var item := l[j];
      ghost var s := seen + l[..j];
      assert (s + [item])[..|s|] == s;
      assert seen + l[..j + 1] == s + [item];
      if |item.0| == 0 {
        MergeStuck(s + [item], l[j + 1..]);
        assert seen + l == s + [item] + l[j + 1..];
        return Failure(IndexError);
      }
      if Names.IsAlpha(item.0[0]) && item.0 !in r.value {
        r := Success(r.value[item.0 := item.1]);
      }
      j := j + 1;
    }
    assert l[..j] == l;
  }

  /** dir(prefix) over the backends' listings: the merged names, sorted. */
  method Dir<V>(ls: seq<Items<V>>) returns (r: Result<seq<string>, Error>)
    ensures MergeAll(Flatten(ls)).Failure? ==> r == Failure(IndexError)
    ensures MergeAll(Flatten(ls)).Success? ==>
      r.Success? && Sorted(r.value) && forall k :: k in r.value <==> k in MergeAll(Flatten(ls)).value
  {
    var d := DirDict(ls);
    if d.Failure? {
      return Failure(d.error);
    }
    var l := SortNames(d.value.Keys);
    r := Success(l);
  }
}
