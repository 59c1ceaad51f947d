/** The merge when a dictionary spells the renamed key both ways: then the second of the
    two, in iteration order, is merged into what the first one left.  For every order,
    when the merge raises and when merging twice is merging once. */
module YamlMergeOrder {
  import opened YamlMerge

  datatype Option<T> = None | Some(value: T)

  /** A subtree on its way to a key of the base. */
  datatype Pair = Pair(to: string, y: Yaml)

  // ----- Merging several trees one after the other -----

  function Get(m: map<string, Yaml>, t: string): Option<Yaml> {
    if t in m then Some(m[t]) else None
  }

  function MergeInto(ord: Order, v: Option<Yaml>, y: Yaml): Result<Yaml>
    requires Enumerates(ord)
  {
    if v.None? then Ok(y) else Merge(ord, v.value, y)
  }

  function Fold(ord: Order, v: Option<Yaml>, ys: seq<Yaml>): Result<Option<Yaml>>
    requires Enumerates(ord)
    decreases |ys|
  {
    if ys == [] then Ok(v)
    else
      match MergeInto(ord, v, ys[0])
      case Ok(w) => Fold(ord, Some(w), ys[1..])
      case Raised => Raised
  }

  function MergePairs(ord: Order, m: map<string, Yaml>, ps: seq<Pair>): Result<map<string, Yaml>>
    requires Enumerates(ord)
    decreases |ps|
  {
    if ps == [] then Ok(m)
    else
      match MergeInto(ord, Get(m, ps[0].to), ps[0].y)
      case Ok(w) => MergePairs(ord, m[ps[0].to := w], ps[1..])
      case Raised => Raised
  }

  /** The subtrees that go to key t, in order. */
  function Select(ps: seq<Pair>, t: string): seq<Yaml> {
    if ps == [] then []
    else (if ps[0].to == t then [ps[0].y] else []) + Select(ps[1..], t)
  }

  function PairsOf(x: Yaml, keys: seq<string>): (ps: seq<Pair>)
    requires x.Dict? && forall k :: k in keys ==> k in x.entries
    ensures |ps| == |keys| && forall i :: 0 <= i < |keys| ==> ps[i] == Pair(KeyMap(keys[i]), x.entries[keys[i]])
  {
    if keys == [] then [] else [Pair(KeyMap(keys[0]), x.entries[keys[0]])] + PairsOf(x, keys[1..])
  }

  predicate AllDicts(ys: seq<Yaml>) {
    forall i :: 0 <= i < |ys| ==> ys[i].Dict?
  }

  /** The subtrees of several dictionaries, each in its iteration order. */
  function AllPairs(ord: Order, ys: seq<Yaml>): seq<Pair>
    requires Enumerates(ord) && AllDicts(ys)
  {
    if ys == [] then [] else PairsOf(ys[0], ord(ys[0].entries)) + AllPairs(ord, ys[1..])
  }

  /** Each key is merged on its own, with what goes to it. */
  lemma {:induction false} PairsPointwise(ord: Order, m: map<string, Yaml>, ps: seq<Pair>)
    requires Enumerates(ord)
    ensures MergePairs(ord, m, ps).Ok? <==> forall t :: Fold(ord, Get(m, t), Select(ps, t)).Ok?
    ensures MergePairs(ord, m, ps).Ok? ==>
              forall t :: Fold(ord, Get(m, t), Select(ps, t)) == Ok(Get(MergePairs(ord, m, ps).value, t))
    decreases |ps|
  {
    if ps != [] {
      var p := ps[0];
      var first := MergeInto(ord, Get(m, p.to), p.y);
      assert Select(ps, p.to)[0] == p.y && Select(ps, p.to)[1..] == Select(ps[1..], p.to);
      if first.Ok? {
        var m' := m[p.to := first.value];
        PairsPointwise(ord, m', ps[1..]);
        forall t ensures Fold(ord, Get(m, t), Select(ps, t)) == Fold(ord, Get(m', t), Select(ps[1..], t)) {
          if t != p.to {
            assert Select(ps, t) == Select(ps[1..], t);
          }
        }
      } else {
        assert Fold(ord, Get(m, p.to), Select(ps, p.to)).Raised?;
      }
    }
  }

  lemma {:induction false} PairsConcat(ord: Order, m: map<string, Yaml>, ps: seq<Pair>, qs: seq<Pair>)
    requires Enumerates(ord)
    ensures MergePairs(ord, m, ps + qs) ==
            match MergePairs(ord, m, ps) case Ok(r) => MergePairs(ord, r, qs) case Raised => Raised
    decreases |ps|
  {
    if ps == [] {
      assert ps + qs == qs;
    } else {
      assert (ps + qs)[1..] == ps[1..] + qs;
      var first := MergeInto(ord, Get(m, ps[0].to), ps[0].y);
      if first.Ok? {
        PairsConcat(ord, m[ps[0].to := first.value], ps[1..], qs);
      }
    }
  }

  lemma {:induction false} KeysArePairs(ord: Order, m: map<string, Yaml>, x: Yaml, keys: seq<string>)
    requires Enumerates(ord) && x.Dict? && forall k :: k in keys ==> k in x.entries
    ensures MergeKeys(ord, m, x, keys) == MergePairs(ord, m, PairsOf(x, keys))
    decreases |keys|
  {
    if keys != [] {
      var ps := PairsOf(x, keys);
      assert ps[1..] == PairsOf(x, keys[1..]);
      if MergeKey(ord, m, x, keys[0]).Ok? {
        KeysArePairs(ord, MergeKey(ord, m, x, keys[0]).value, x, keys[1..]);
      }
    }
  }

  /** Folding dictionaries into a dictionary merges all their pairs. */
  lemma {:induction false} FoldOfDicts(ord: Order, m: map<string, Yaml>, ys: seq<Yaml>)
    requires Enumerates(ord)
    ensures !AllDicts(ys) ==> Fold(ord, Some(Dict(m)), ys).Raised?
    ensures AllDicts(ys) ==>
              Fold(ord, Some(Dict(m)), ys) ==
              match MergePairs(ord, m, AllPairs(ord, ys)) case Ok(r) => Ok(Some(Dict(r))) case Raised => Raised
    decreases |ys|
  {
    if ys != [] && ys[0].Dict? {
      var keys := ord(ys[0].entries);
      KeysArePairs(ord, m, ys[0], keys);
      var first := MergePairs(ord, m, PairsOf(ys[0], keys));
      if first.Ok? {
        FoldOfDicts(ord, first.value, ys[1..]);
      }
      if AllDicts(ys) {
        PairsConcat(ord, m, PairsOf(ys[0], keys), AllPairs(ord, ys[1..]));
      }
    }
  }

  lemma {:induction false} FoldIntoList(ord: Order, l: seq<Yaml>, ys: seq<Yaml>)
    requires Enumerates(ord)
    ensures Fold(ord, Some(List(l)), ys).Ok? <==> forall i :: 0 <= i < |ys| ==> !ys[i].Other?
    ensures Fold(ord, Some(List(l)), ys).Ok? ==>
              var r := Fold(ord, Some(List(l)), ys).value;
              && r.Some? && r.value.List?
              && forall e :: e in r.value.items <==> e in l || ComesIn(ord, ys, e)
    decreases |ys|
  {
    if ys != [] && !ys[0].Other? {
      var xs := Elements(ord, ys[0]).value;
      AddMissingMeaning(l, xs);
      FoldIntoList(ord, AddMissing(l, xs), ys[1..]);
      forall e ensures ComesIn(ord, ys, e) <==> e in xs || ComesIn(ord, ys[1..], e) {
        if ComesIn(ord, ys[1..], e) {
          var i :| 0 <= i < |ys| - 1 && IsElement(ord, ys[1..][i], e);
          assert IsElement(ord, ys[i + 1], e);
        }
        if e in xs {
          assert IsElement(ord, ys[0], e);
        }
        if ComesIn(ord, ys, e) && e !in xs {
          var i :| 0 <= i < |ys| && IsElement(ord, ys[i], e);
          assert IsElement(ord, ys[1..][i - 1], e);
        }
      }
    }
  }

  predicate IsElement(ord: Order, y: Yaml, e: Yaml) {
    Elements(ord, y).Ok? && e in Elements(ord, y).value
  }

  /** Some tree of ys iterates over e. */
  predicate ComesIn(ord: Order, ys: seq<Yaml>, e: Yaml) {
    exists i :: 0 <= i < |ys| && IsElement(ord, ys[i], e)
  }

  lemma {:induction false} FoldIntoScalar(ord: Order, v: Yaml, ys: seq<Yaml>)
    requires Enumerates(ord) && !v.Dict? && !v.List?
    ensures Fold(ord, Some(v), ys) == Ok(Some(v))
    decreases |ys|
  {
    if ys != [] {
      FoldIntoScalar(ord, v, ys[1..]);
    }
  }

  // ----- Heights -----

  function Max(a: nat, b: nat): nat {
    if a >= b then a else b
  }

  function Height(ord: Order, x: Yaml): nat
    requires Enumerates(ord)
    decreases x, 1, 0
  {
    if x.Dict? then 1 + HeightOfKeys(ord, x, ord(x.entries)) else 0
  }

  function HeightOfKeys(ord: Order, x: Yaml, keys: seq<string>): nat
    requires Enumerates(ord) && x.Dict? && forall k :: k in keys ==> k in x.entries
    decreases x, 0, |keys|
  {
    if keys == [] then 0 else Max(Height(ord, x.entries[keys[0]]), HeightOfKeys(ord, x, keys[1..]))
  }

  function HeightOfAll(ord: Order, ys: seq<Yaml>): (h: nat)
    requires Enumerates(ord)
    ensures forall i :: 0 <= i < |ys| ==> Height(ord, ys[i]) <= h
  {
    if ys == [] then 0 else Max(Height(ord, ys[0]), HeightOfAll(ord, ys[1..]))
  }

  lemma {:induction false} KeysAreLower(ord: Order, x: Yaml, keys: seq<string>)
    requires Enumerates(ord) && x.Dict? && forall k :: k in keys ==> k in x.entries
    ensures forall i :: 0 <= i < |keys| ==> Height(ord, x.entries[keys[i]]) <= HeightOfKeys(ord, x, keys)
    decreases |keys|
  {
    if keys != [] {
      KeysAreLower(ord, x, keys[1..]);
      forall i | 0 <= i < |keys| ensures Height(ord, x.entries[keys[i]]) <= HeightOfKeys(ord, x, keys) {
        if i > 0 {
          assert keys[i] == keys[1..][i - 1];
        }
      }
    }
  }

  lemma {:induction false} PairsAreLower(ord: Order, ys: seq<Yaml>)
    requires Enumerates(ord) && AllDicts(ys)
    ensures forall p :: p in AllPairs(ord, ys) ==> Height(ord, p.y) < HeightOfAll(ord, ys)
    decreases |ys|
  {
    if ys != [] {
      PairsAreLower(ord, ys[1..]);
      var keys := ord(ys[0].entries);
      KeysAreLower(ord, ys[0], keys);
      forall p | p in PairsOf(ys[0], keys) ensures Height(ord, p.y) < Height(ord, ys[0]) {
        var i :| 0 <= i < |keys| && PairsOf(ys[0], keys)[i] == p;
      }
    }
  }

  lemma {:induction false} SelectedAreLower(ord: Order, ps: seq<Pair>, t: string, h: nat)
    requires Enumerates(ord) && h > 0 && forall p :: p in ps ==> Height(ord, p.y) < h
    ensures HeightOfAll(ord, Select(ps, t)) < h
    decreases |ps|
  {
    if ps != [] {
      SelectedAreLower(ord, ps[1..], t, h);
      var rest := Select(ps[1..], t);
      assert ps[0] in ps;
      if ps[0].to == t {
        assert ([ps[0].y] + rest)[1..] == rest;
      } else {
        assert [] + rest == rest;
      }
    }
  }

  lemma GoesLower(ord: Order, ys: seq<Yaml>, t: string)
    requires Enumerates(ord) && AllDicts(ys) && ys != []
    ensures HeightOfAll(ord, Select(AllPairs(ord, ys), t)) < HeightOfAll(ord, ys)
  {
    PairsAreLower(ord, ys);
    assert Height(ord, ys[0]) > 0;
    SelectedAreLower(ord, AllPairs(ord, ys), t, HeightOfAll(ord, ys));
  }

  // ----- When it raises, and what it contains -----

  /** The trees ys can be merged into v one after the other; without v the first takes its place. */
  ghost predicate FitAll(ord: Order, v: Option<Yaml>, ys: seq<Yaml>)
    requires Enumerates(ord)
    decreases HeightOfAll(ord, ys), |ys|
  {
    if ys == [] then true
    else
      match v
      case None => FitAll(ord, Some(ys[0]), ys[1..])
      case Some(Dict(m)) =>
        && AllDicts(ys)
        && forall t ::
             (GoesLower(ord, ys, t);
              FitAll(ord, Get(m, t), Select(AllPairs(ord, ys), t)))
      case Some(List(_)) => forall i :: 0 <= i < |ys| ==> !ys[i].Other?
      case _ => true
  }

  /** What merging the trees ys into v leaves already contains all of z, keys mapped. */
  ghost predicate HoldsAfter(ord: Order, v: Option<Yaml>, ys: seq<Yaml>, z: Yaml)
    requires Enumerates(ord)
    decreases HeightOfAll(ord, ys), |ys|
  {
    match v
    case None => ys != [] && HoldsAfter(ord, Some(ys[0]), ys[1..], z)
    case Some(Dict(m)) =>
      if ys == [] then Contains(ord, v.value, z)
      else
        && AllDicts(ys) && z.Dict?
        && forall k | k in z.entries ::
             (GoesLower(ord, ys, KeyMap(k));
              HoldsAfter(ord, Get(m, KeyMap(k)), Select(AllPairs(ord, ys), KeyMap(k)), z.entries[k]))
    case Some(List(l)) =>
      Elements(ord, z).Ok? && forall e :: e in Elements(ord, z).value ==> e in l || ComesIn(ord, ys, e)
    case _ => true
  }

  lemma {:induction false} FoldRaisesExactly(ord: Order, v: Option<Yaml>, ys: seq<Yaml>)
    requires Enumerates(ord)
    ensures Fold(ord, v, ys).Ok? <==> FitAll(ord, v, ys)
    decreases HeightOfAll(ord, ys), |ys|
  {
    if ys != [] {
      match v
      case None => FoldRaisesExactly(ord, Some(ys[0]), ys[1..]);
      case Some(Dict(m)) =>
        FoldOfDicts(ord, m, ys);
        if AllDicts(ys) {
          PairsPointwise(ord, m, AllPairs(ord, ys));
          forall t ensures Fold(ord, Get(m, t), Select(AllPairs(ord, ys), t)).Ok? <==>
                           FitAll(ord, Get(m, t), Select(AllPairs(ord, ys), t))
          {
            GoesLower(ord, ys, t);
            FoldRaisesExactly(ord, Get(m, t), Select(AllPairs(ord, ys), t));
          }
        }
      case Some(List(l)) => FoldIntoList(ord, l, ys);
      case Some(w) => FoldIntoScalar(ord, w, ys);
    }
  }

  lemma {:induction false} FoldContainsExactly(ord: Order, v: Option<Yaml>, ys: seq<Yaml>, z: Yaml)
    requires Enumerates(ord) && Fold(ord, v, ys).Ok?
    ensures HoldsAfter(ord, v, ys, z) <==>
            Fold(ord, v, ys).value.Some? && Contains(ord, Fold(ord, v, ys).value.value, z)
    decreases HeightOfAll(ord, ys), |ys|
  {
    match v
    case None =>
      if ys != [] {
        FoldContainsExactly(ord, Some(ys[0]), ys[1..], z);
      }
    case Some(Dict(m)) =>
      FoldOfDicts(ord, m, ys);
      if ys != [] {
        var r := MergePairs(ord, m, AllPairs(ord, ys)).value;
        PairsPointwise(ord, m, AllPairs(ord, ys));
        if z.Dict? {
          forall k | k in z.entries
            ensures HoldsAfter(ord, Get(m, KeyMap(k)), Select(AllPairs(ord, ys), KeyMap(k)), z.entries[k]) <==>
                    KeyMap(k) in r && Contains(ord, r[KeyMap(k)], z.entries[k])
          {
            GoesLower(ord, ys, KeyMap(k));
            FoldContainsExactly(ord, Get(m, KeyMap(k)), Select(AllPairs(ord, ys), KeyMap(k)), z.entries[k]);
          }
        }
      }
    case Some(List(l)) => FoldIntoList(ord, l, ys);
    case Some(w) => FoldIntoScalar(ord, w, ys);
  }

  /** For every tree and every iteration order: the merge raises exactly when the shapes
      do not fit, subtrees of both spellings in turn. */
  lemma MergeRaisesInOrder(ord: Order, base: Yaml, add: Yaml)
    requires Enumerates(ord)
    ensures Merge(ord, base, add).Ok? <==> FitAll(ord, Some(base), [add])
  {
    FoldRaisesExactly(ord, Some(base), [add]);
    OneTree(ord, base, add);
  }

  /** For every tree and every iteration order: merging twice is merging once exactly when
      the result holds, at each key, what was sent there. */
  lemma MergeIsIdempotentInOrder(ord: Order, base: Yaml, add: Yaml)
    requires Enumerates(ord) && Merge(ord, base, add).Ok?
    ensures var once := Merge(ord, base, add).value;
            Merge(ord, once, add) == Ok(once) <==> HoldsAfter(ord, Some(base), [add], add)
  {
    OneTree(ord, base, add);
    FoldContainsExactly(ord, Some(base), [add], add);
    MergeChangesNothingExactly(ord, Merge(ord, base, add).value, add);
  }

  lemma OneTree(ord: Order, base: Yaml, add: Yaml)
    requires Enumerates(ord)
    ensures Fold(ord, Some(base), [add]) ==
            match Merge(ord, base, add) case Ok(r) => Ok(Some(r)) case Raised => Raised
  {
    assert [add][1..] == [];
  }
}
