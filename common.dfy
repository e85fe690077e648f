/** Failure-carrying results and the sequence operations the event bus is built from:
    the ordered, de-duplicating set builder (Guava's ImmutableSet.Builder), order-keeping
    filtering (ArrayList.removeIf, Stream.filter) and concatenation of indexed lists. */
module Common {

  datatype Option<+T> = None | Some(value: T)

  /** The exceptions the library raises or lets through. */
  datatype Error =
    | IllegalArgument     // IllegalArgumentException (Preconditions.checkArgument)
    | IllegalState        // IllegalStateException (Preconditions.checkState, failed construction)
    | NullPointer         // NullPointerException (Objects.requireNonNull, ConcurrentHashMap keys)
    | RuntimeFailure      // RuntimeException wrapping a failed listener instantiation
    | Thrown(code: int)   // any other exception, raised by code outside the model

  datatype Result<+T> = Ok(value: T) | Err(error: Error)

  /** The result of an operation that returns nothing in the source. */
  datatype Outcome = Pass | Fail(error: Error)

  predicate NoDup<T(==)>(s: seq<T>) {
    forall i, j :: 0 <= i < j < |s| ==> s[i] != s[j]
  }

  /** `ImmutableSet.Builder.addAll`: appends, in order, each element of `xs` not yet present. */
  function AddAll<T(==)>(b: seq<T>, xs: seq<T>): seq<T>
    decreases |xs|
  {
    if xs == [] then b
    else AddAll(if xs[0] in b then b else b + [xs[0]], xs[1..])
  }

  /** The ordered set built from `s`: the first occurrence of every element, in order. */
  function Distinct<T(==)>(s: seq<T>): seq<T> {
    AddAll([], s)
  }

  lemma {:induction false} AddAllConcat<T>(b: seq<T>, xs: seq<T>, ys: seq<T>)
    ensures AddAll(AddAll(b, xs), ys) == AddAll(b, xs + ys)
    decreases |xs|
  {
    if xs == [] {
      assert xs + ys == ys;
    } else {
      var b' := if xs[0] in b then b else b + [xs[0]];
      AddAllConcat(b', xs[1..], ys);
      assert (xs + ys)[0] == xs[0] && (xs + ys)[1..] == xs[1..] + ys;
    }
  }

  lemma {:induction false} AddAllMembers<T>(b: seq<T>, xs: seq<T>)
    ensures forall x :: x in AddAll(b, xs) <==> x in b || x in xs
    ensures NoDup(b) ==> NoDup(AddAll(b, xs))
    decreases |xs|
  {
    if xs != [] {
      var b' := if xs[0] in b then b else b + [xs[0]];
      AddAllMembers(b', xs[1..]);
      assert forall x :: x in xs <==> x == xs[0] || x in xs[1..];
    }
  }

  lemma DistinctMembers<T>(s: seq<T>)
    ensures forall x :: x in Distinct(s) <==> x in s
    ensures NoDup(Distinct(s))
  {
    AddAllMembers([], s);
  }

  /** Building the ordered set one more element at a time: the element is appended exactly
      when it has not been seen before, so the first occurrence is the one kept. */
  lemma DistinctSnoc<T>(s: seq<T>, x: T)
    ensures Distinct(s + [x]) == if x in s then Distinct(s) else Distinct(s) + [x]
  {
    AddAllConcat([], s, [x]);
    DistinctMembers(s);
    assert [x][1..] == [];
  }

  /** The elements of `s` for which `keep` holds, in their original order. */
  function Filter<T>(s: seq<T>, keep: T -> bool): (r: seq<T>)
    ensures |r| <= |s|
    ensures forall i :: 0 <= i < |r| ==> r[i] in s
  {
    if s == [] then []
    else Filter(s[..|s| - 1], keep) + (if keep(s[|s| - 1]) then [s[|s| - 1]] else [])
  }

  function Negate<T>(p: T -> bool): T -> bool {
    x => !p(x)
  }

  lemma {:induction false} FilterAppend<T>(a: seq<T>, b: seq<T>, keep: T -> bool)
    ensures Filter(a + b, keep) == Filter(a, keep) + Filter(b, keep)
    decreases |b|
  {
    if b == [] {
      assert a + b == a;
    } else {
      var b' := b[..|b| - 1];
      assert (a + b)[..|a + b| - 1] == a + b';
      FilterAppend(a, b', keep);
    }
  }

  lemma FilterMembers<T>(s: seq<T>, keep: T -> bool)
    ensures forall x :: x in Filter(s, keep) <==> x in s && keep(x)
    ensures |Filter(s, keep)| <= |s|
    ensures |Filter(s, keep)| == |s| <==> forall i :: 0 <= i < |s| ==> keep(s[i])
    ensures |Filter(s, keep)| == |s| ==> Filter(s, keep) == s
  {
    FilterHas(s, keep);
    FilterKeepsAll(s, keep);
  }

  lemma {:induction false} FilterHas<T>(s: seq<T>, keep: T -> bool)
    ensures forall x :: x in Filter(s, keep) <==> x in s && keep(x)
  {
    if s != [] {
      var s', last := s[..|s| - 1], s[|s| - 1];
      FilterHas(s', keep);
      assert s == s' + [last];
    }
  }

  lemma {:induction false} FilterKeepsAll<T>(s: seq<T>, keep: T -> bool)
    ensures |Filter(s, keep)| == |s| <==> forall i :: 0 <= i < |s| ==> keep(s[i])
    ensures |Filter(s, keep)| == |s| ==> Filter(s, keep) == s
  {
    if s != [] {
      var s', last := s[..|s| - 1], s[|s| - 1];
      FilterKeepsAll(s', keep);
      assert s == s' + [last];
      if forall i :: 0 <= i < |s| ==> keep(s[i]) {
        forall i | 0 <= i < |s'|
          ensures keep(s'[i])
        {
          assert s'[i] == s[i];
        }
      }
    }
  }

  /** Filtering an ordered set is building the ordered set of the filtered sequence. */
  lemma {:induction false} FilterDistinct<T>(s: seq<T>, keep: T -> bool)
    ensures Filter(Distinct(s), keep) == Distinct(Filter(s, keep))
    decreases |s|
  {
    if s == [] {
    } else {
      var s', x := s[..|s| - 1], s[|s| - 1];
      assert s == s' + [x];
      FilterDistinct(s', keep);
      DistinctSnoc(s', x);
      FilterMembers(s', keep);
      var f := Filter(s', keep);
      assert Filter(s, keep) == f + (if keep(x) then [x] else []);
      if keep(x) {
        DistinctSnoc(f, x);
        if x !in s' {
          FilterAppend(Distinct(s'), [x], keep);
          assert Filter([x], keep) == [x] by { assert [x][..0] == []; }
        }
      } else {
        assert f + [] == f;
        if x !in s' {
          FilterAppend(Distinct(s'), [x], keep);
          assert Filter([x], keep) == [] by { assert [x][..0] == []; }
        }
      }
    }
  }

  /** The lists `table[i]` for `i` in `ids`, concatenated in the order of `ids`. */
  function Gather<T>(table: seq<seq<T>>, ids: seq<nat>): seq<T>
    requires forall k :: 0 <= k < |ids| ==> ids[k] < |table|
  {
    if ids == [] then []
    else Gather(table, ids[..|ids| - 1]) + table[ids[|ids| - 1]]
  }

  lemma {:induction false} GatherMembers<T>(table: seq<seq<T>>, ids: seq<nat>)
    requires forall k :: 0 <= k < |ids| ==> ids[k] < |table|
    ensures forall x :: x in Gather(table, ids) <==> exists i :: i in ids && x in table[i]
  {
    if ids != [] {
      var ids' := ids[..|ids| - 1];
      GatherMembers(table, ids');
      assert forall i :: i in ids <==> i in ids' || i == ids[|ids| - 1];
    }
  }

  /** Only the listed entries of the table matter. */
  lemma {:induction false} GatherAgree<T>(t1: seq<seq<T>>, t2: seq<seq<T>>, ids: seq<nat>)
    requires forall k :: 0 <= k < |ids| ==> ids[k] < |t1| && ids[k] < |t2| && t1[ids[k]] == t2[ids[k]]
    ensures Gather(t1, ids) == Gather(t2, ids)
  {
    if ids != [] {
      GatherAgree(t1, t2, ids[..|ids| - 1]);
    }
  }

  lemma {:induction false} GatherAppend<T>(table: seq<seq<T>>, a: seq<nat>, b: seq<nat>)
    requires forall k :: 0 <= k < |a| ==> a[k] < |table|
    requires forall k :: 0 <= k < |b| ==> b[k] < |table|
    ensures Gather(table, a + b) == Gather(table, a) + Gather(table, b)
    decreases |b|
  {
    if b == [] {
      assert a + b == a;
    } else {
      var b' := b[..|b| - 1];
      assert (a + b)[..|a + b| - 1] == a + b';
      GatherAppend(table, a, b');
    }
  }

  /** The values `m[k]` for `k` in `ks`, in order. */
  function Lookup<K, V>(m: map<K, V>, ks: seq<K>): (r: seq<V>)
    requires forall i :: 0 <= i < |ks| ==> ks[i] in m
    ensures |r| == |ks| && forall i :: 0 <= i < |ks| ==> r[i] == m[ks[i]]
  {
    seq(|ks|, i requires 0 <= i < |ks| => m[ks[i]])
  }

  /** Looking up a concatenation concatenates the lookups. */
  lemma LookupConcat<K, V>(m: map<K, V>, a: seq<K>, b: seq<K>)
    requires forall i :: 0 <= i < |a| ==> a[i] in m
    requires forall i :: 0 <= i < |b| ==> b[i] in m
    ensures forall i :: 0 <= i < |a + b| ==> (a + b)[i] in m
    ensures Lookup(m, a + b) == Lookup(m, a) + Lookup(m, b)
  {
    assert forall i :: 0 <= i < |a + b| ==> (a + b)[i] in m by {
      forall i | 0 <= i < |a + b| ensures (a + b)[i] in m {
        if i < |a| { assert (a + b)[i] == a[i]; } else { assert (a + b)[i] == b[i - |a|]; }
      }
    }
  }

  /** No two keys share a value. */
  ghost predicate Injective<K, V>(m: map<K, V>) {
    forall a, b :: a in m && b in m && m[a] == m[b] ==> a == b
  }

  /** A key is among `ks` exactly when its value is among their values. */
  lemma LookupMember<K, V>(m: map<K, V>, ks: seq<K>, x: K)
    requires Injective(m) && x in m
    requires forall i :: 0 <= i < |ks| ==> ks[i] in m
    ensures m[x] in Lookup(m, ks) <==> x in ks
  {
    if m[x] in Lookup(m, ks) {
      var i :| 0 <= i < |ks| && Lookup(m, ks)[i] == m[x];
      assert ks[i] == x;
    }
    if x in ks {
      var i :| 0 <= i < |ks| && ks[i] == x;
      assert Lookup(m, ks)[i] == m[x];
    }
  }

  /** Looking up an ordered set of keys in an injective map gives an ordered set. */
  lemma {:induction false} DistinctLookup<K, V>(m: map<K, V>, ks: seq<K>)
    requires Injective(m)
    requires forall i :: 0 <= i < |ks| ==> ks[i] in m
    ensures forall i :: 0 <= i < |Distinct(ks)| ==> Distinct(ks)[i] in m
    ensures Distinct(Lookup(m, ks)) == Lookup(m, Distinct(ks))
    decreases |ks|
  {
    DistinctMembers(ks);
    assert forall i :: 0 <= i < |Distinct(ks)| ==> Distinct(ks)[i] in Distinct(ks);
    if ks != [] {
      var ks', x := ks[..|ks| - 1], ks[|ks| - 1];
      assert ks == ks' + [x];
      DistinctLookup(m, ks');
      var vs' := Lookup(m, ks');
      assert Lookup(m, ks) == vs' + [m[x]];
      DistinctSnoc(vs', m[x]);
      DistinctSnoc(ks', x);
      LookupMember(m, ks', x);
      if x !in ks' {
        var d := Distinct(ks');
        assert Lookup(m, d + [x]) == Lookup(m, d) + [m[x]];
      }
    }
  }
}
