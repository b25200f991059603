/** List building by comprehension: the loops that append one result per element. */
module Lists {
  import opened Wrappers

  /** `[f(x) for x in xs[:n]]`. */
  function MapPrefix<A, B>(f: A -> B, xs: seq<A>, n: nat): (r: seq<B>)
    requires n <= |xs|
    ensures |r| == n
  {
    if n == 0 then [] else MapPrefix(f, xs, n - 1) + [f(xs[n - 1])]
  }

  lemma {:induction false} MapPrefixAt<A, B>(f: A -> B, xs: seq<A>, n: nat, k: nat)
    requires k < n <= |xs|
    ensures MapPrefix(f, xs, n)[k] == f(xs[k])
  {
    if k < n - 1 {
      MapPrefixAt(f, xs, n - 1, k);
    }
  }

  /** `[f(i, x) for i, x in enumerate(xs[:n])]`, keeping the `Some` results. */
  function Gather<A, B>(f: (nat, A) -> Option<B>, xs: seq<A>, n: nat): (r: seq<B>)
    requires n <= |xs|
    ensures |r| <= n
  {
    if n == 0 then [] else Gather(f, xs, n - 1) + (if f(n - 1, xs[n - 1]).Some? then [f(n - 1, xs[n - 1]).value] else [])
  }

  /** One more element: its result, if any, goes at the end. */
  lemma GatherStep<A, B>(f: (nat, A) -> Option<B>, xs: seq<A>, n: nat)
    requires n < |xs|
    ensures Gather(f, xs, n + 1) == Gather(f, xs, n) + (if f(n, xs[n]).Some? then [f(n, xs[n]).value] else [])
  {
  }

  /** The loop `for i, x in enumerate(xs)` that appends every result `f(i, x)` that is not `None`. */
  method GatherLoop<A, B>(f: (nat, A) -> Option<B>, xs: seq<A>) returns (out: seq<B>)
    ensures out == Gather(f, xs, |xs|)
  {
    out := [];
    for i := 0 to |xs|
      invariant out == Gather(f, xs, i)
    {
      var r := f(i, xs[i]);
      if r.Some? {
        out := out + [r.value];
      }
    }
  }

  /** Each gathered result comes from its own element, in order, and exactly the `Some` elements contribute. */
  lemma {:induction false} GatherOrigin<A, B>(f: (nat, A) -> Option<B>, xs: seq<A>, n: nat) returns (idx: seq<nat>)
    requires n <= |xs|
    ensures var g := Gather(f, xs, n);
            && |idx| == |g|
            && (forall j :: 0 <= j < |idx| ==> idx[j] < n && f(idx[j], xs[idx[j]]) == Some(g[j]))
            && (forall j, j' :: 0 <= j < j' < |idx| ==> idx[j] < idx[j'])
            && (forall i :: 0 <= i < n ==> (f(i, xs[i]).Some? <==> i in idx))
  {
    if n == 0 {
      idx := [];
    } else {
      var prev := GatherOrigin(f, xs, n - 1);
      var g0 := Gather(f, xs, n - 1);
      var g := Gather(f, xs, n);
      if f(n - 1, xs[n - 1]).Some? {
        idx := prev + [n - 1];
        assert g == g0 + [f(n - 1, xs[n - 1]).value];
        forall j | 0 <= j < |prev| ensures idx[j] == prev[j] && g[j] == g0[j] {
        }
      } else {
        idx := prev;
        assert g == g0;
      }
      forall i | 0 <= i < n - 1 ensures i in idx <==> i in prev {
      }
    }
  }

  /** The dictionary built by `d[k] = f(k)` for each key of `keys[:n]`. */
  function Tabulate<K(==), V>(f: K -> V, keys: seq<K>, n: nat): map<K, V>
    requires n <= |keys|
  {
    if n == 0 then map[] else Tabulate(f, keys, n - 1)[keys[n - 1] := f(keys[n - 1])]
  }

  /** It holds every key of `keys[:n]`, each mapped to its own `f` value, and no other key. */
  lemma {:induction false} TabulateKeys<K, V>(f: K -> V, keys: seq<K>, n: nat)
    requires n <= |keys|
    ensures Tabulate(f, keys, n) == map k | k in keys[..n] :: f(k)
  {
    if n > 0 {
      TabulateKeys(f, keys, n - 1);
      assert keys[..n] == keys[..n - 1] + [keys[n - 1]];
    }
  }

  /** The dictionary built by `d[k] = v` for each `(k, v) = f(x)` of `xs[:n]` that is `Some`. */
  function Assign<A, K(==), V>(f: A -> Option<(K, V)>, xs: seq<A>, n: nat): map<K, V>
    requires n <= |xs|
  {
    if n == 0 then map[]
    else if f(xs[n - 1]).Some? then Assign(f, xs, n - 1)[f(xs[n - 1]).value.0 := f(xs[n - 1]).value.1]
    else Assign(f, xs, n - 1)
  }

  /** The element `x` writes the key `key`. */
  predicate Writes<A, K(==), V>(f: A -> Option<(K, V)>, x: A, key: K) {
    f(x).Some? && f(x).value.0 == key
  }

  /** A key is present iff some element writes it, and then it holds the value of the last such element. */
  lemma {:induction false} AssignLast<A, K, V>(f: A -> Option<(K, V)>, xs: seq<A>, n: nat, key: K) returns (last: nat)
    requires n <= |xs|
    ensures key in Assign(f, xs, n) <==> exists k :: 0 <= k < n && Writes(f, xs[k], key)
    ensures key in Assign(f, xs, n) ==>
      && last < n && Writes(f, xs[last], key) && Assign(f, xs, n)[key] == f(xs[last]).value.1
      && forall k :: last < k < n ==> !Writes(f, xs[k], key)
  {
    if n == 0 {
      last := 0;
    } else if Writes(f, xs[n - 1], key) {
      last := n - 1;
      var _ := AssignLast(f, xs, n - 1, key);
    } else {
      last := AssignLast(f, xs, n - 1, key);
      assert Assign(f, xs, n) == (if f(xs[n - 1]).Some? then Assign(f, xs, n - 1)[f(xs[n - 1]).value.0 := f(xs[n - 1]).value.1] else Assign(f, xs, n - 1));
    }
  }
}
