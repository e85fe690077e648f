/** The listener lists of one bus: one node per event type, each holding its own listeners,
    the ordered set of its ancestor nodes (`supers`, fixed when the node is made), the nodes
    that count it among their ancestors (`knownExtenders`) and a lazily built snapshot.

    The nodes live in an arena and refer to each other by index; node `n`'s fields are the
    `n`th entries of the sequences below. */
module ListenerList {
  import opened Common
  import opened Runtime

  /** The cache processor: applied to the freshly gathered buffer before it is frozen. It
      leaves the buffer as the result says, or throws (an error). */
  type Processor = seq<Listener> -> Result<seq<Listener>>

  /** The ancestry of the nodes: a node's ancestors were made before it, and its `supers`
      has no repeats and is closed under taking ancestors. */
  ghost predicate Ancestry(supers: seq<seq<nat>>) {
    && (forall n, k :: 0 <= n < |supers| && 0 <= k < |supers[n]| ==> supers[n][k] < n)
    && (forall n :: 0 <= n < |supers| ==> NoDup(supers[n]))
    && (forall n, s, u :: 0 <= n < |supers| && s in supers[n] && u in supers[s] ==> u in supers[n])
  }

  /** `knownExtenders` is exactly the reverse of `supers`. */
  ghost predicate Reverse(supers: seq<seq<nat>>, knownExtenders: seq<set<nat>>) {
    && |knownExtenders| == |supers|
    && (forall n :: 0 <= n < |supers| ==> forall m :: m in knownExtenders[n] ==> m < |supers| && n in supers[m])
    && (forall m :: 0 <= m < |supers| ==> forall n :: n in supers[m] ==> n < |knownExtenders| && m in knownExtenders[n])
  }

  /** The `supers` a new node gets from its direct supers: those, then each one's own
      `supers`, first occurrences kept. */
  ghost function ClosureOf(supers: seq<seq<nat>>, direct: seq<nat>): seq<nat>
    requires forall k :: 0 <= k < |direct| ==> direct[k] < |supers|
  {
    Distinct(direct + Gather(supers, direct))
  }

  /** A new node's ancestors are its direct supers and their ancestors, each once. */
  lemma ClosureMembers(supers: seq<seq<nat>>, direct: seq<nat>)
    requires forall k :: 0 <= k < |direct| ==> direct[k] < |supers|
    ensures forall x :: x in ClosureOf(supers, direct) <==> x in direct || exists i :: i in direct && x in supers[i]
    ensures NoDup(ClosureOf(supers, direct))
  {
    DistinctMembers(direct + Gather(supers, direct));
    GatherMembers(supers, direct);
  }

  /** The closure of a new node's direct supers lies below the new node, has no repeats and
      is closed under taking ancestors. */
  lemma ClosureFacts(supers: seq<seq<nat>>, direct: seq<nat>)
    requires Ancestry(supers)
    requires forall k :: 0 <= k < |direct| ==> direct[k] < |supers|
    ensures forall k :: 0 <= k < |ClosureOf(supers, direct)| ==> ClosureOf(supers, direct)[k] < |supers|
    ensures forall m, u :: 0 <= m < |supers| && m in ClosureOf(supers, direct) && u in supers[m] ==>
      u in ClosureOf(supers, direct)
    ensures NoDup(ClosureOf(supers, direct))
  {
    var c := ClosureOf(supers, direct);
    ClosureMembers(supers, direct);
    forall k | 0 <= k < |c|
      ensures c[k] < |supers|
    {
      if c[k] !in direct {
        var i :| i in direct && c[k] in supers[i];
      }
    }
    forall m, u | 0 <= m < |supers| && m in c && u in supers[m]
      ensures u in c
    {
      if m !in direct {
        var i :| i in direct && m in supers[i];
      }
    }
  }

  /** Adding a node whose `supers` is the closure of its direct supers keeps the ancestry
      well formed. */
  lemma AncestryGrows(supers: seq<seq<nat>>, direct: seq<nat>)
    requires Ancestry(supers)
    requires forall k :: 0 <= k < |direct| ==> direct[k] < |supers|
    ensures Ancestry(supers + [ClosureOf(supers, direct)])
  {
    var n := |supers|;
    var c := ClosureOf(supers, direct);
    var s' := supers + [c];
    ClosureFacts(supers, direct);
    forall p, k | 0 <= p < |s'| && 0 <= k < |s'[p]|
      ensures s'[p][k] < p
    {
      if p < n {
        assert s'[p] == supers[p];
      }
    }
    forall p, m, u | 0 <= p < |s'| && m in s'[p] && u in s'[m]
      ensures u in s'[p]
    {
      if p < n {
        assert s'[p] == supers[p];
        var k :| 0 <= k < |supers[p]| && supers[p][k] == m;
        assert s'[m] == supers[m];
      } else {
        var k :| 0 <= k < |c| && c[k] == m;
        assert s'[m] == supers[m];
      }
    }
    forall p | 0 <= p < |s'|
      ensures NoDup(s'[p])
    {
      if p < n {
        assert s'[p] == supers[p];
      }
    }
  }

  /** Registering a new node as an extender of each of its ancestors, and of nothing else,
      keeps `knownExtenders` the reverse of `supers`. */
  lemma ReverseGrows(supers: seq<seq<nat>>, ext: seq<set<nat>>, c: seq<nat>, ext': seq<set<nat>>)
    requires Ancestry(supers) && Reverse(supers, ext)
    requires forall k :: 0 <= k < |c| ==> c[k] < |supers|
    requires |ext'| == |supers| + 1 && ext'[|supers|] == {}
    requires forall i :: 0 <= i < |supers| ==> ext'[i] == if i in c then ext[i] + {|supers|} else ext[i]
    ensures Reverse(supers + [c], ext')
  {
    var n := |supers|;
    var s' := supers + [c];
    forall i | 0 <= i < n + 1
      ensures forall m :: m in ext'[i] ==> m < n + 1 && i in s'[m]
    {
      forall m | m in ext'[i]
        ensures m < n + 1 && i in s'[m]
      {
        assert i < n;
        if m != n {
          assert m in ext[i];
          assert s'[m] == supers[m];
        }
      }
    }
    forall m | 0 <= m < n + 1
      ensures forall i :: i in s'[m] ==> m in ext'[i]
    {
      forall i | i in s'[m]
        ensures m in ext'[i]
      {
        if m < n {
          assert s'[m] == supers[m];
          var k :| 0 <= k < |supers[m]| && supers[m][k] == i;
        } else {
          var k :| 0 <= k < |c| && c[k] == i;
        }
      }
    }
  }

  class ListenerLists {
    const cacheProcessor: Processor
    var supers: seq<seq<nat>>
    var knownExtenders: seq<set<nat>>
    var listeners: seq<seq<Listener>>
    var cache: seq<Option<seq<Listener>>>

    function Count(): nat
      reads this
    {
      |supers|
    }

    /** Every node has all four fields, and a node's ancestors were made before it. */
    ghost predicate Shaped()
      reads this
    {
      && |knownExtenders| == |supers|
      && |listeners| == |supers|
      && |cache| == |supers|
      && (forall n, k :: 0 <= n < |supers| && 0 <= k < |supers[n]| ==> supers[n][k] < n)
    }

    /** The snapshot node `n` must hold before processing: its own listeners, then each
        ancestor's own listeners in `supers` order. */
    ghost function Merged(n: nat): seq<Listener>
      reads this
      requires Shaped() && n < |supers|
    {
      listeners[n] + Gather(listeners, supers[n])
    }

    ghost predicate Linked()
      reads this
    {
      Shaped() && Ancestry(supers) && Reverse(supers, knownExtenders)
    }

    /** A present snapshot is the processed merge of the current listeners. */
    ghost predicate CoherentExcept(stale: set<nat>)
      reads this
      requires Shaped()
    {
      forall n {:trigger Merged(n)} :: 0 <= n < |supers| && n !in stale && cache[n].Some? ==>
        cacheProcessor(Merged(n)) == Ok(cache[n].value)
    }

    ghost predicate Valid()
      reads this
    {
      Linked() && CoherentExcept({})
    }

    constructor (cacheProcessor: Processor)
      ensures Valid()
      ensures this.cacheProcessor == cacheProcessor
      ensures supers == [] && knownExtenders == [] && listeners == [] && cache == []
    {
      this.cacheProcessor := cacheProcessor;
      supers, knownExtenders, listeners, cache := [], [], [], [];
    }

    /** The first half of the `ListenerList` constructor: the ordered set of the direct
        supers followed by each one's `supers`. */
    method CollectSupers(direct: seq<nat>) returns (builder: seq<nat>)
      requires forall k :: 0 <= k < |direct| ==> direct[k] < |supers|
      ensures builder == ClosureOf(supers, direct)
    {
      builder := AddAll<nat>([], direct);
      var i := 0;
      assert direct + Gather(supers, direct[..0]) == direct;
      while i < |direct|
        invariant 0 <= i <= |direct|
        invariant builder == AddAll<nat>([], direct + Gather(supers, direct[..i]))
      {
        assert direct[..i + 1][..i] == direct[..i];
        AddAllConcat<nat>([], direct + Gather(supers, direct[..i]), supers[direct[i]]);
        assert Gather(supers, direct[..i + 1]) == Gather(supers, direct[..i]) + supers[direct[i]];
        assert direct + Gather(supers, direct[..i + 1]) == (direct + Gather(supers, direct[..i])) + supers[direct[i]];
        builder := AddAll<nat>(builder, supers[direct[i]]);
        i := i + 1;
      }
      assert direct[..i] == direct;
    }

    /** The `ListenerList` constructor. The new node's `supers` are its direct supers
        followed by each direct super's `supers`, first occurrences kept; the new node then
        becomes a known extender of each of them. No listener and no snapshot changes. */
    method NewNode(direct: seq<nat>) returns (n: nat)
      requires Valid()
      requires forall k :: 0 <= k < |direct| ==> direct[k] < Count()
      modifies this
      ensures Valid()
      ensures n == old(Count())
      ensures supers == old(supers) + [ClosureOf(old(supers), direct)]
      ensures listeners == old(listeners) + [[]]
      ensures cache == old(cache) + [None]
      ensures |knownExtenders| == n + 1 && knownExtenders[n] == {}
      ensures forall i :: 0 <= i < n ==>
        knownExtenders[i] == if i in supers[n] then old(knownExtenders[i]) + {n} else old(knownExtenders[i])
    {
      var sup := supers;
      var builder := CollectSupers(direct);
      n := |sup|;
      AncestryGrows(sup, direct);
      assert (sup + [builder])[n] == builder;
      assert forall k :: 0 <= k < |builder| ==> builder[k] < n;

      var ext := knownExtenders;
      var j := 0;
      while j < |builder|
        invariant 0 <= j <= |builder|
        invariant |ext| == n
        invariant forall k :: 0 <= k < n ==>
          ext[k] == if k in builder[..j] then old(knownExtenders[k]) + {n} else old(knownExtenders[k])
        invariant supers == sup && listeners == old(listeners)
        invariant cache == old(cache) && knownExtenders == old(knownExtenders)
      {
        assert builder[..j + 1] == builder[..j] + [builder[j]];
        ext := ext[builder[j] := ext[builder[j]] + {n}];
        j := j + 1;
      }
      assert builder[..j] == builder;
      ReverseGrows(sup, knownExtenders, builder, ext + [{}]);

      supers := supers + [builder];
      listeners := listeners + [[]];
      cache := cache + [None];
      knownExtenders := ext + [{}];
      forall m | 0 <= m < n
        ensures Merged(m) == old(Merged(m))
      {
        GatherAgree(listeners, old(listeners), supers[m]);
      }
    }

    /** `deprecateCaches`: drops the snapshot of this node and of every known extender. */
    method DeprecateCaches(n: nat)
      requires Linked() && n < Count()
      requires CoherentExcept({n} + knownExtenders[n])
      modifies this
      ensures Valid()
      ensures supers == old(supers) && knownExtenders == old(knownExtenders) && listeners == old(listeners)
      ensures |cache| == |old(cache)|
      ensures forall m :: 0 <= m < |cache| ==>
        cache[m] == if m == n || m in knownExtenders[n] then None else old(cache[m])
    {
      cache := cache[n := None];
      var todo := knownExtenders[n];
      while todo != {}
        invariant supers == old(supers) && knownExtenders == old(knownExtenders) && listeners == old(listeners)
        invariant |cache| == |old(cache)|
        invariant Linked()
        invariant todo <= knownExtenders[n]
        invariant forall m :: 0 <= m < |cache| ==>
          cache[m] == if m == n || (m in knownExtenders[n] && m !in todo) then None else old(cache[m])
        decreases todo
      {
        var m :| m in todo;
        assert m in knownExtenders[n];
        cache := cache[m := None];
        todo := todo - {m};
      }
      forall m | 0 <= m < |supers| && cache[m].Some?
        ensures cacheProcessor(Merged(m)) == Ok(cache[m].value)
      {
        assert Merged(m) == old(Merged(m));
      }
    }

    /** `add`: appends the listener to this node's own list; the snapshots of this node and
        of its known extenders are dropped, every other snapshot is kept. */
    method Add(n: nat, listener: Listener)
      requires Valid() && n < Count()
      modifies this
      ensures Valid()
      ensures supers == old(supers) && knownExtenders == old(knownExtenders)
      ensures listeners == old(listeners)[n := old(listeners[n]) + [listener]]
      ensures |cache| == |old(cache)|
      ensures forall m :: 0 <= m < |cache| ==>
        cache[m] == if m == n || m in knownExtenders[n] then None else old(cache[m])
    {
      listeners := listeners[n := listeners[n] + [listener]];
      forall m | 0 <= m < |supers| && m != n && m !in knownExtenders[n]
        ensures Merged(m) == old(Merged(m))
      {
        GatherAgree(listeners, old(listeners), supers[m]);
      }
      DeprecateCaches(n);
    }

    /** `removeIf`: removes exactly the listeners the filter matches, keeping the order of
        the rest, and reports whether any was removed. Snapshots are dropped as by `add`
        only when something was removed. */
    method RemoveIf(n: nat, filter: Listener -> bool) returns (modified: bool)
      requires Valid() && n < Count()
      modifies this
      ensures Valid()
      ensures supers == old(supers) && knownExtenders == old(knownExtenders)
      ensures listeners == old(listeners)[n := Filter(old(listeners[n]), Negate(filter))]
      ensures modified <==> exists l :: l in old(listeners[n]) && filter(l)
      ensures !modified ==> cache == old(cache)
      ensures modified ==> |cache| == |old(cache)| && forall m :: 0 <= m < |cache| ==>
        cache[m] == if m == n || m in knownExtenders[n] then None else old(cache[m])
    {
      var before := listeners[n];
      var keep := Negate(filter);
      var kept := Filter(before, keep);
      FilterMembers(before, keep);
      modified := |kept| < |before|;
      ghost var culprit := 0;
      if modified {
        var i :| 0 <= i < |before| && !keep(before[i]);
        culprit := before[i];
        assert culprit in before && filter(culprit);
      } else {
        forall l | l in before
          ensures !filter(l)
        {
          var i :| 0 <= i < |before| && before[i] == l;
          assert keep(before[i]);
        }
      }
      if !modified {
        assert listeners == old(listeners)[n := kept];
        return;
      }
      listeners := listeners[n := kept];
      forall m | 0 <= m < |supers| && m != n && m !in knownExtenders[n]
        ensures Merged(m) == old(Merged(m))
      {
        GatherAgree(listeners, old(listeners), supers[m]);
      }
      DeprecateCaches(n);
      assert culprit in old(listeners[n]) && filter(culprit);
    }

    /** `getCache`: a present snapshot is returned as it is; otherwise the node's own
        listeners and then each ancestor's, in `supers` order, are gathered and processed,
        and the result is stored and returned. Either way the result is the processed merge,
        and no listener list changes; a processor that throws stores nothing. */
    method GetCache(n: nat) returns (r: Result<seq<Listener>>)
      requires Valid() && n < Count()
      modifies this
      ensures Valid()
      ensures supers == old(supers) && knownExtenders == old(knownExtenders) && listeners == old(listeners)
      ensures r == cacheProcessor(Merged(n))
      ensures cache == if r.Ok? then old(cache)[n := Some(r.value)] else old(cache)
      ensures old(cache[n]).Some? ==> r == Ok(old(cache[n]).value) && cache == old(cache)
    {
      if cache[n].Some? {
        assert cacheProcessor(Merged(n)) == Ok(cache[n].value);
        return Ok(cache[n].value);
      }
      var builder := listeners[n];
      var i := 0;
      while i < |supers[n]|
        invariant 0 <= i <= |supers[n]|
        invariant builder == listeners[n] + Gather(listeners, supers[n][..i])
      {
        assert supers[n][..i + 1][..i] == supers[n][..i];
        builder := builder + listeners[supers[n][i]];
        i := i + 1;
      }
      assert supers[n][..i] == supers[n];
      r := cacheProcessor(builder);
      if r.Err? {
        return;
      }
      cache := cache[n := Some(r.value)];
      forall m | 0 <= m < |supers| && m != n && cache[m].Some?
        ensures cacheProcessor(Merged(m)) == Ok(cache[m].value)
      {
        assert Merged(m) == old(Merged(m));
      }
    }
  }

  /** What a snapshot holds: a listener is in the merge of node `n` exactly when it is one of
      `n`'s own listeners or one of an ancestor's. */
  lemma MergedMembers(ls: ListenerLists, n: nat, x: Listener)
    requires ls.Shaped() && n < ls.Count()
    ensures x in ls.Merged(n) <==> x in ls.listeners[n] || exists s :: s in ls.supers[n] && x in ls.listeners[s]
  {
    GatherMembers(ls.listeners, ls.supers[n]);
  }
}
