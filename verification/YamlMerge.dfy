/** Merging two YAML trees; on conflict the base tree wins. */
module YamlMerge {

  /** A parsed document.  Text iterates as its characters; other scalars (numbers, null)
      do not iterate. */
  datatype Yaml =
    | Text(s: string)
    | Other(id: int)
    | List(items: seq<Yaml>)
    | Dict(entries: map<string, Yaml>)

  /** Raised stands for the exception Python raises when the shapes do not fit. */
  datatype Result<T> = Ok(value: T) | Raised

  /** The order in which a dictionary is iterated; the theorems hold for every such order. */
  type Order = map<string, Yaml> -> seq<string>

  ghost predicate Enumerates(ord: Order) {
    && (forall m: map<string, Yaml>, k: string {:trigger k in ord(m)} :: k in ord(m) <==> k in m)
    && (forall m: map<string, Yaml>, i, j :: 0 <= i < j < |ord(m)| ==> ord(m)[i] != ord(m)[j])
  }

  function KeyMap(k: string): string {
    if k == "official" then "supported" else k
  }

  // ----- The merge -----

  function Elements(ord: Order, y: Yaml): Result<seq<Yaml>> {
    match y
    case Text(s) => Ok(seq(|s|, i requires 0 <= i < |s| => Text([s[i]])))
    case Other(_) => Raised
    case List(items) => Ok(items)
    case Dict(m) => Ok(seq(|ord(m)|, i requires 0 <= i < |ord(m)| => Text(ord(m)[i])))
  }

  /** Appends each item that is not there yet. */
  function AddMissing(l: seq<Yaml>, xs: seq<Yaml>): seq<Yaml>
    decreases xs
  {
    if xs == [] then l
    else AddMissing(if xs[0] in l then l else l + [xs[0]], xs[1..])
  }

  function Merge(ord: Order, base: Yaml, add: Yaml): Result<Yaml>
    requires Enumerates(ord)
    decreases add, 1, 0
  {
    match base
    case Dict(m) =>
      if !add.Dict? then Raised
      else
        (match MergeKeys(ord, m, add, ord(add.entries))
         case Ok(r) => Ok(Dict(r))
         case Raised => Raised)
    case List(l) =>
      (match Elements(ord, add)
       case Ok(xs) => Ok(List(AddMissing(l, xs)))
       case Raised => Raised)
    case _ => Ok(base)
  }

  function MergeKeys(ord: Order, m: map<string, Yaml>, add: Yaml, keys: seq<string>): Result<map<string, Yaml>>
    requires Enumerates(ord) && add.Dict? && forall k :: k in keys ==> k in add.entries
    decreases add, 0, |keys|
  {
    if keys == [] then Ok(m)
    else
      match MergeKey(ord, m, add, keys[0])
      case Ok(r) => MergeKeys(ord, r, add, keys[1..])
      case Raised => Raised
  }

  function MergeKey(ord: Order, m: map<string, Yaml>, add: Yaml, k: string): Result<map<string, Yaml>>
    requires Enumerates(ord) && add.Dict? && k in add.entries
    decreases add, 0, 0
  {
    var to := KeyMap(k);
    if to !in m then Ok(m[to := add.entries[k]])
    else
      match Merge(ord, m[to], add.entries[k])
      case Ok(v) => Ok(m[to := v])
      case Raised => Raised
  }

  // ----- What the result keeps and contains -----

  /** w keeps every leaf of v, every list of v as a prefix, and every key of v. */
  predicate Extends(v: Yaml, w: Yaml)
    decreases v
  {
    match v
    case List(l) => w.List? && l <= w.items
    case Dict(m) => w.Dict? && forall k :: k in m ==> k in w.entries && Extends(m[k], w.entries[k])
    case _ => w == v
  }

  /** v already contains all of x, keys mapped. */
  predicate Contains(ord: Order, v: Yaml, x: Yaml)
    decreases x
  {
    match v
    case List(l) => Elements(ord, x).Ok? && forall y :: y in Elements(ord, x).value ==> y in l
    case Dict(m) =>
      && x.Dict?
      && forall k :: k in x.entries ==> KeyMap(k) in m && Contains(ord, m[KeyMap(k)], x.entries[k])
    case _ => true
  }

  /** No dictionary anywhere in x has the key to be renamed. */
  predicate NoOfficial(x: Yaml)
    decreases x
  {
    x.Dict? ==> forall k :: k in x.entries ==> k != "official" && NoOfficial(x.entries[k])
  }

  /** No dictionary anywhere in x has both the key to be renamed and its new name. */
  predicate OneSpelling(x: Yaml)
    decreases x
  {
    x.Dict? ==>
      && !("official" in x.entries && "supported" in x.entries)
      && forall k :: k in x.entries ==> OneSpelling(x.entries[k])
  }

  /** Every subtree of x that a merge into v would copy as it is, because v has nothing
      under its mapped key, is free of the key to be renamed. */
  predicate CopiesClean(v: Yaml, x: Yaml)
    decreases x, 0
  {
    v.Dict? && x.Dict? ==> forall k :: k in x.entries ==> CleanAt(v.entries, KeyMap(k), x.entries[k])
  }

  predicate CleanAt(m: map<string, Yaml>, to: string, x: Yaml)
    decreases x, 1
  {
    if to in m then CopiesClean(m[to], x) else NoOfficial(x)
  }

  lemma {:induction false} NoOfficialIsClean(v: Yaml, x: Yaml)
    requires NoOfficial(x)
    ensures CopiesClean(v, x)
    decreases x
  {
    if v.Dict? && x.Dict? {
      forall k | k in x.entries ensures CleanAt(v.entries, KeyMap(k), x.entries[k]) {
        if KeyMap(k) in v.entries {
          NoOfficialIsClean(v.entries[KeyMap(k)], x.entries[k]);
        }
      }
    }
  }

  lemma {:induction false} CleanGrows(v: Yaml, w: Yaml, x: Yaml)
    requires Extends(v, w) && CopiesClean(v, x)
    ensures CopiesClean(w, x)
    decreases x, 0
  {
    if v.Dict? && x.Dict? {
      forall k | k in x.entries ensures CleanAt(w.entries, KeyMap(k), x.entries[k]) {
        CleanAtGrows(v.entries, w.entries, KeyMap(k), x.entries[k]);
      }
    }
  }

  lemma {:induction false} CleanAtGrows(m: map<string, Yaml>, r: map<string, Yaml>, to: string, x: Yaml)
    requires Extends(Dict(m), Dict(r)) && CleanAt(m, to, x)
    ensures CleanAt(r, to, x)
    decreases x, 1
  {
    if to in m {
      CleanGrows(m[to], r[to], x);
    } else if to in r {
      NoOfficialIsClean(r[to], x);
    }
  }

  lemma {:induction false} ExtendsReflexive(v: Yaml)
    ensures Extends(v, v)
    decreases v
  {
    if v.Dict? {
      forall k | k in v.entries ensures Extends(v.entries[k], v.entries[k]) {
        ExtendsReflexive(v.entries[k]);
      }
    }
  }

  lemma {:induction false} ExtendsTransitive(u: Yaml, v: Yaml, w: Yaml)
    requires Extends(u, v) && Extends(v, w)
    ensures Extends(u, w)
    decreases u
  {
    if u.Dict? {
      forall k | k in u.entries ensures k in w.entries && Extends(u.entries[k], w.entries[k]) {
        ExtendsTransitive(u.entries[k], v.entries[k], w.entries[k]);
      }
    }
  }

  lemma {:induction false} ContainsGrows(ord: Order, v: Yaml, w: Yaml, x: Yaml)
    requires Contains(ord, v, x) && Extends(v, w)
    ensures Contains(ord, w, x)
    decreases x
  {
    if v.Dict? {
      forall k | k in x.entries ensures KeyMap(k) in w.entries && Contains(ord, w.entries[KeyMap(k)], x.entries[k]) {
        ContainsGrows(ord, v.entries[KeyMap(k)], w.entries[KeyMap(k)], x.entries[k]);
      }
    } else if v.List? {
      forall y | y in Elements(ord, x).value ensures y in w.items {
        assert y in v.items;
      }
    }
  }

  lemma {:induction false} ContainsItself(ord: Order, x: Yaml)
    requires NoOfficial(x)
    ensures Contains(ord, x, x)
    decreases x
  {
    if x.Dict? {
      forall k | k in x.entries ensures KeyMap(k) in x.entries && Contains(ord, x.entries[KeyMap(k)], x.entries[k]) {
        ContainsItself(ord, x.entries[k]);
      }
    }
  }

  /** The list after the merge: the base list, then the missing items, each once. */
  lemma {:induction false} AddMissingMeaning(l: seq<Yaml>, xs: seq<Yaml>)
    ensures var r := AddMissing(l, xs);
            && l <= r
            && (forall y :: y in r <==> y in l || y in xs)
            && (forall i, j :: |l| <= i < |r| && 0 <= j < i ==> r[i] != r[j])
    decreases xs
  {
    if xs != [] {
      var l' := if xs[0] in l then l else l + [xs[0]];
      AddMissingMeaning(l', xs[1..]);
      var r := AddMissing(l, xs);
      assert xs == [xs[0]] + xs[1..];
      if xs[0] !in l {
        assert r[|l|] == l'[|l|] == xs[0];
        assert forall j :: 0 <= j < |l| ==> r[j] == l[j];
      }
    }
  }

  function FirstIndex(xs: seq<Yaml>, y: Yaml): (k: nat)
    requires y in xs
    ensures k < |xs| && xs[k] == y && y !in xs[..k]
  {
    if xs[0] == y then 0 else
      var k := FirstIndex(xs[1..], y);
      assert xs[..k + 1] == [xs[0]] + xs[1..][..k];
      k + 1
  }

  /** An item behind what the first step leaves is another one than the first of xs. */
  lemma AppendedLater(l: seq<Yaml>, xs: seq<Yaml>, i: nat)
    requires xs != [] && (if xs[0] in l then |l| else |l| + 1) <= i < |AddMissing(l, xs)|
    ensures AddMissing(l, xs)[i] in xs[1..] && AddMissing(l, xs)[i] != xs[0]
  {
    var l' := if xs[0] in l then l else l + [xs[0]];
    var r := AddMissing(l, xs);
    AddMissingMeaning(l', xs[1..]);
    forall k | 0 <= k < |l'| ensures l'[k] != r[i] {
      assert r[k] == l'[k];
    }
    assert xs[0] in l' && r[i] in r;
  }

  lemma {:induction false} AppendedInOrder(l: seq<Yaml>, xs: seq<Yaml>, i: nat, j: nat)
    requires |l| <= i < j < |AddMissing(l, xs)|
    ensures var r := AddMissing(l, xs); r[i] in xs && r[j] in xs && FirstIndex(xs, r[i]) < FirstIndex(xs, r[j])
    decreases xs
  {
    var l' := if xs[0] in l then l else l + [xs[0]];
    AppendedLater(l, xs, j);
    if i >= |l'| {
      AppendedLater(l, xs, i);
      AppendedInOrder(l', xs[1..], i, j);
    } else {
      AddMissingMeaning(l', xs[1..]);
      assert AddMissing(l, xs)[i] == l'[i] == xs[0];
    }
  }

  /** The items are appended in the order in which they first occur. */
  lemma AddMissingKeepsOrder(l: seq<Yaml>, xs: seq<Yaml>)
    ensures var r := AddMissing(l, xs);
            forall i, j | |l| <= i < j < |r| ::
              r[i] in xs && r[j] in xs && FirstIndex(xs, r[i]) < FirstIndex(xs, r[j])
  {
    forall i, j | |l| <= i < j < |AddMissing(l, xs)|
      ensures AddMissing(l, xs)[i] in xs && AddMissing(l, xs)[j] in xs
      ensures FirstIndex(xs, AddMissing(l, xs)[i]) < FirstIndex(xs, AddMissing(l, xs)[j])
    {
      AppendedInOrder(l, xs, i, j);
    }
  }

  lemma {:induction false} AddMissingNothing(l: seq<Yaml>, xs: seq<Yaml>)
    requires forall y :: y in xs ==> y in l
    ensures AddMissing(l, xs) == l
    decreases xs
  {
    if xs != [] {
      AddMissingNothing(l, xs[1..]);
    }
  }

  /** The merge keeps everything in the base. */
  lemma {:induction false} MergeKeepsBase(ord: Order, base: Yaml, add: Yaml)
    requires Enumerates(ord) && Merge(ord, base, add).Ok?
    ensures Extends(base, Merge(ord, base, add).value)
    decreases add, 1, 0
  {
    match base
    case Dict(m) => MergeKeysKeepBase(ord, m, add, ord(add.entries));
    case List(l) => AddMissingMeaning(l, Elements(ord, add).value);
    case _ =>
  }

  lemma {:induction false} MergeKeysKeepBase(ord: Order, m: map<string, Yaml>, add: Yaml, keys: seq<string>)
    requires Enumerates(ord) && add.Dict? && forall k :: k in keys ==> k in add.entries
    requires MergeKeys(ord, m, add, keys).Ok?
    ensures Extends(Dict(m), Dict(MergeKeys(ord, m, add, keys).value))
    decreases add, 0, |keys|
  {
    if keys == [] {
      ExtendsReflexive(Dict(m));
    } else {
      var r := MergeKey(ord, m, add, keys[0]).value;
      MergeKeyKeepsBase(ord, m, add, keys[0]);
      MergeKeysKeepBase(ord, r, add, keys[1..]);
      ExtendsTransitive(Dict(m), Dict(r), Dict(MergeKeys(ord, m, add, keys).value));
    }
  }

  lemma {:induction false} MergeKeyKeepsBase(ord: Order, m: map<string, Yaml>, add: Yaml, k: string)
    requires Enumerates(ord) && add.Dict? && k in add.entries && MergeKey(ord, m, add, k).Ok?
    ensures Extends(Dict(m), Dict(MergeKey(ord, m, add, k).value))
    decreases add, 0, 0
  {
    var to := KeyMap(k);
    if to in m {
      MergeKeepsBase(ord, m[to], add.entries[k]);
    }
    forall j | j in m && j != to ensures Extends(m[j], m[j]) {
      ExtendsReflexive(m[j]);
    }
  }

  /** The result contains every added item under its mapped key, provided no subtree
      with the key to be renamed is copied as it is. */
  lemma {:induction false} MergeContainsAdded(ord: Order, base: Yaml, add: Yaml)
    requires Enumerates(ord) && Merge(ord, base, add).Ok? && CopiesClean(base, add)
    ensures Contains(ord, Merge(ord, base, add).value, add)
    decreases add, 1, 0
  {
    match base
    case Dict(m) => MergeKeysContainAdded(ord, m, add, ord(add.entries));
    case List(l) => AddMissingMeaning(l, Elements(ord, add).value);
    case _ =>
  }

  lemma {:induction false} MergeKeysContainAdded(ord: Order, m: map<string, Yaml>, add: Yaml, keys: seq<string>)
    requires Enumerates(ord) && add.Dict? && (forall k :: k in keys ==> k in add.entries)
    requires forall k :: k in keys ==> CleanAt(m, KeyMap(k), add.entries[k])
    requires MergeKeys(ord, m, add, keys).Ok?
    ensures var r := MergeKeys(ord, m, add, keys).value;
            forall k :: k in keys ==> KeyMap(k) in r && Contains(ord, r[KeyMap(k)], add.entries[k])
    decreases add, 0, |keys|
  {
    if keys != [] {
      var r, all := MergeKey(ord, m, add, keys[0]).value, MergeKeys(ord, m, add, keys).value;
      MergeKeyKeepsBase(ord, m, add, keys[0]);
      forall k | k in keys[1..] ensures CleanAt(r, KeyMap(k), add.entries[k]) {
        CleanAtGrows(m, r, KeyMap(k), add.entries[k]);
      }
      MergeKeysContainAdded(ord, r, add, keys[1..]);
      MergeKeysKeepBase(ord, r, add, keys[1..]);
      MergeKeyContainsAdded(ord, m, add, keys[0]);
      var to := KeyMap(keys[0]);
      assert Extends(r[to], all[to]);
      ContainsGrows(ord, r[to], all[to], add.entries[keys[0]]);
    }
  }

  lemma {:induction false} MergeKeyContainsAdded(ord: Order, m: map<string, Yaml>, add: Yaml, k: string)
    requires Enumerates(ord) && add.Dict? && k in add.entries && CleanAt(m, KeyMap(k), add.entries[k])
    requires MergeKey(ord, m, add, k).Ok?
    ensures var r := MergeKey(ord, m, add, k).value;
            KeyMap(k) in r && Contains(ord, r[KeyMap(k)], add.entries[k])
    decreases add, 0, 0
  {
    var to := KeyMap(k);
    if to in m {
      MergeContainsAdded(ord, m[to], add.entries[k]);
    } else {
      ContainsItself(ord, add.entries[k]);
    }
  }

  /** Merging in what is already there changes nothing. */
  lemma {:induction false} MergeOfContained(ord: Order, base: Yaml, add: Yaml)
    requires Enumerates(ord) && Contains(ord, base, add)
    ensures Merge(ord, base, add) == Ok(base)
    decreases add, 1, 0
  {
    match base
    case Dict(m) => MergeKeysOfContained(ord, m, add, ord(add.entries));
    case List(l) => AddMissingNothing(l, Elements(ord, add).value);
    case _ =>
  }

  lemma {:induction false} MergeKeysOfContained(ord: Order, m: map<string, Yaml>, add: Yaml, keys: seq<string>)
    requires Enumerates(ord) && add.Dict? && Contains(ord, Dict(m), add) && forall k :: k in keys ==> k in add.entries
    ensures MergeKeys(ord, m, add, keys) == Ok(m)
    decreases add, 0, |keys|
  {
    if keys != [] {
      var k := keys[0];
      MergeOfContained(ord, m[KeyMap(k)], add.entries[k]);
      assert m[KeyMap(k) := m[KeyMap(k)]] == m;
      MergeKeysOfContained(ord, m, add, keys[1..]);
    }
  }

  lemma {:induction false} ExtendsAntisymmetric(v: Yaml, w: Yaml)
    requires Extends(v, w) && Extends(w, v)
    ensures v == w
    decreases v
  {
    if v.Dict? {
      assert w.entries.Keys == v.entries.Keys by {
        assert forall k :: k in w.entries ==> k in v.entries;
      }
      forall k | k in v.entries ensures v.entries[k] == w.entries[k] {
        ExtendsAntisymmetric(v.entries[k], w.entries[k]);
      }
      assert v.entries == w.entries;
    }
  }

  lemma {:induction false} UnchangedMeansContained(ord: Order, base: Yaml, add: Yaml)
    requires Enumerates(ord) && Merge(ord, base, add) == Ok(base)
    ensures Contains(ord, base, add)
    decreases add, 1, 0
  {
    match base
    case Dict(m) => UnchangedKeysContained(ord, m, add, ord(add.entries));
    case List(l) => AddMissingMeaning(l, Elements(ord, add).value);
    case _ =>
  }

  lemma {:induction false} UnchangedKeysContained(ord: Order, m: map<string, Yaml>, add: Yaml, keys: seq<string>)
    requires Enumerates(ord) && add.Dict? && forall k :: k in keys ==> k in add.entries
    requires MergeKeys(ord, m, add, keys) == Ok(m)
    ensures forall k :: k in keys ==> KeyMap(k) in m && Contains(ord, m[KeyMap(k)], add.entries[k])
    decreases add, 0, |keys|
  {
    if keys != [] {
      var k := keys[0];
      var r := MergeKey(ord, m, add, k).value;
      MergeKeyKeepsBase(ord, m, add, k);
      MergeKeysKeepBase(ord, r, add, keys[1..]);
      ExtendsAntisymmetric(Dict(m), Dict(r));
      assert KeyMap(k) in r;
      UnchangedMeansContained(ord, m[KeyMap(k)], add.entries[k]);
      UnchangedKeysContained(ord, m, add, keys[1..]);
    }
  }

  /** A merge leaves the base as it was exactly when the base already contains the
      added tree: all its keys, mapped, and all its list items under them. */
  lemma MergeChangesNothingExactly(ord: Order, base: Yaml, add: Yaml)
    requires Enumerates(ord)
    ensures Merge(ord, base, add) == Ok(base) <==> Contains(ord, base, add)
  {
    if Contains(ord, base, add) {
      MergeOfContained(ord, base, add);
    }
    if Merge(ord, base, add) == Ok(base) {
      UnchangedMeansContained(ord, base, add);
    }
  }

  // ----- Merging the same tree twice -----

  lemma {:induction false} SelfContainedMeansClean(ord: Order, x: Yaml)
    requires Contains(ord, x, x) && OneSpelling(x)
    ensures NoOfficial(x)
    decreases x
  {
    if x.Dict? {
      forall k | k in x.entries ensures k != "official" && NoOfficial(x.entries[k]) {
        assert KeyMap(k) in x.entries;
        SelfContainedMeansClean(ord, x.entries[k]);
      }
    }
  }

  lemma {:induction false} MergeKeysLeaveOthers(ord: Order, m: map<string, Yaml>, add: Yaml,
                                                keys: seq<string>, to: string)
    requires Enumerates(ord) && add.Dict? && (forall k :: k in keys ==> k in add.entries)
    requires MergeKeys(ord, m, add, keys).Ok? && to in m && forall k :: k in keys ==> KeyMap(k) != to
    ensures var r := MergeKeys(ord, m, add, keys).value; to in r && r[to] == m[to]
    decreases |keys|
  {
    if keys != [] {
      MergeKeysLeaveOthers(ord, MergeKey(ord, m, add, keys[0]).value, add, keys[1..], to);
    }
  }

  /** When no two keys are mapped to the same one, each key is merged with the base alone. */
  lemma {:induction false} MergeKeysPointwise(ord: Order, m: map<string, Yaml>, add: Yaml, keys: seq<string>, k: string)
    requires Enumerates(ord) && add.Dict? && (forall j :: j in keys ==> j in add.entries)
    requires forall i, j :: 0 <= i < j < |keys| ==> KeyMap(keys[i]) != KeyMap(keys[j])
    requires MergeKeys(ord, m, add, keys).Ok? && k in keys
    ensures var r, to := MergeKeys(ord, m, add, keys).value, KeyMap(k);
            && to in r
            && (to !in m ==> r[to] == add.entries[k])
            && (to in m ==> Merge(ord, m[to], add.entries[k]) == Ok(r[to]))
    decreases |keys|
  {
    var m' := MergeKey(ord, m, add, keys[0]).value;
    if keys[0] == k {
      forall j | j in keys[1..] ensures KeyMap(j) != KeyMap(k) {
        var i :| 1 <= i < |keys| && keys[i] == j;
        assert KeyMap(keys[0]) != KeyMap(keys[i]);
      }
      MergeKeysLeaveOthers(ord, m', add, keys[1..], KeyMap(k));
    } else {
      var i :| 1 <= i < |keys| && keys[i] == k;
      assert KeyMap(keys[0]) != KeyMap(keys[i]);
      assert keys[1..][i - 1] == k;
      MergeKeysPointwise(ord, m', add, keys[1..], k);
    }
  }

  lemma {:induction false} ContainedMeansClean(ord: Order, base: Yaml, add: Yaml)
    requires Enumerates(ord) && OneSpelling(add) && Merge(ord, base, add).Ok?
    requires Contains(ord, Merge(ord, base, add).value, add)
    ensures CopiesClean(base, add)
    decreases add
  {
    if base.Dict? {
      var m, keys := base.entries, ord(add.entries);
      KeysStayApart(ord, add.entries);
      forall k | k in add.entries ensures CleanAt(m, KeyMap(k), add.entries[k]) {
        assert k in keys;
        MergeKeysPointwise(ord, m, add, keys, k);
        if KeyMap(k) in m {
          ContainedMeansClean(ord, m[KeyMap(k)], add.entries[k]);
        } else {
          SelfContainedMeansClean(ord, add.entries[k]);
        }
      }
    }
  }

  /** The shapes a merge accepts: dictionaries into dictionaries, anything that iterates
      into lists, anything at all into scalars. */
  predicate Fits(v: Yaml, x: Yaml)
    decreases x
  {
    match v
    case Dict(m) => x.Dict? && forall k :: k in x.entries && KeyMap(k) in m ==> Fits(m[KeyMap(k)], x.entries[k])
    case List(_) => !x.Other?
    case _ => true
  }

  lemma KeysStayApart(ord: Order, m: map<string, Yaml>)
    requires Enumerates(ord) && OneSpelling(Dict(m))
    ensures forall i, j :: 0 <= i < j < |ord(m)| ==> KeyMap(ord(m)[i]) != KeyMap(ord(m)[j])
  {
    forall i, j | 0 <= i < j < |ord(m)| ensures KeyMap(ord(m)[i]) != KeyMap(ord(m)[j]) {
      assert ord(m)[i] != ord(m)[j] && ord(m)[i] in ord(m) && ord(m)[j] in ord(m);
      assert ord(m)[i] in m && ord(m)[j] in m;
    }
  }

  /** A merge raises exactly when the shapes do not fit. */
  lemma {:induction false} MergeRaisesExactly(ord: Order, base: Yaml, add: Yaml)
    requires Enumerates(ord) && OneSpelling(add)
    ensures Merge(ord, base, add).Ok? <==> Fits(base, add)
    decreases add, 1, 0
  {
    if base.Dict? && add.Dict? {
      var m, keys := base.entries, ord(add.entries);
      KeysStayApart(ord, add.entries);
      if Fits(base, add) {
        FittingKeysMerge(ord, m, add, keys);
      } else if MergeKeys(ord, m, add, keys).Ok? {
        var k :| k in add.entries && KeyMap(k) in m && !Fits(m[KeyMap(k)], add.entries[k]);
        assert k in keys;
        MergeKeysPointwise(ord, m, add, keys, k);
        MergeRaisesExactly(ord, m[KeyMap(k)], add.entries[k]);
      }
    }
  }

  lemma {:induction false} FittingKeysMerge(ord: Order, m: map<string, Yaml>, add: Yaml, keys: seq<string>)
    requires Enumerates(ord) && add.Dict? && OneSpelling(add) && (forall k :: k in keys ==> k in add.entries)
    requires forall i, j :: 0 <= i < j < |keys| ==> KeyMap(keys[i]) != KeyMap(keys[j])
    requires forall k :: k in keys && KeyMap(k) in m ==> Fits(m[KeyMap(k)], add.entries[k])
    ensures MergeKeys(ord, m, add, keys).Ok?
    decreases add, 0, |keys|
  {
    if keys != [] {
      var to := KeyMap(keys[0]);
      if to in m {
        MergeRaisesExactly(ord, m[to], add.entries[keys[0]]);
      }
      forall k | k in keys[1..] ensures KeyMap(k) != to {
        var i :| 1 <= i < |keys| && keys[i] == k;
        assert KeyMap(keys[0]) != KeyMap(keys[i]);
      }
      FittingKeysMerge(ord, MergeKey(ord, m, add, keys[0]).value, add, keys[1..]);
    }
  }

  /** Merging the same tree a second time changes nothing if no copied subtree has the
      key to be renamed; and only if, unless some dictionary spells that key both ways. */
  lemma MergeIsIdempotentExactly(ord: Order, base: Yaml, add: Yaml)
    requires Enumerates(ord) && Merge(ord, base, add).Ok?
    ensures var once := Merge(ord, base, add).value;
            && (CopiesClean(base, add) ==> Merge(ord, once, add) == Ok(once))
            && (OneSpelling(add) && Merge(ord, once, add) == Ok(once) ==> CopiesClean(base, add))
  {
    var once := Merge(ord, base, add).value;
    MergeChangesNothingExactly(ord, once, add);
    if CopiesClean(base, add) {
      MergeContainsAdded(ord, base, add);
    }
    if OneSpelling(add) && Merge(ord, once, add) == Ok(once) {
      ContainedMeansClean(ord, base, add);
    }
  }

  /** In particular a key renamed at the top level only is harmless. */
  lemma TopLevelRenameIsIdempotent(ord: Order, base: Yaml, add: Yaml)
    requires Enumerates(ord) && Merge(ord, base, add).Ok?
    requires add.Dict? ==> forall k :: k in add.entries ==> NoOfficial(add.entries[k])
    ensures var once := Merge(ord, base, add).value; Merge(ord, once, add) == Ok(once)
  {
    if base.Dict? {
      forall k | k in add.entries ensures CleanAt(base.entries, KeyMap(k), add.entries[k]) {
        if KeyMap(k) in base.entries {
          NoOfficialIsClean(base.entries[KeyMap(k)], add.entries[k]);
        }
      }
    }
    MergeIsIdempotentExactly(ord, base, add);
  }

  /** A dictionary gains exactly the mapped keys of the added one. */
  lemma {:induction false} MergeKeysExactly(ord: Order, m: map<string, Yaml>, add: Yaml, keys: seq<string>)
    requires Enumerates(ord) && add.Dict? && (forall k :: k in keys ==> k in add.entries)
    requires MergeKeys(ord, m, add, keys).Ok?
    ensures MergeKeys(ord, m, add, keys).value.Keys == m.Keys + set k | k in keys :: KeyMap(k)
    decreases |keys|
  {
    if keys != [] {
      var r := MergeKey(ord, m, add, keys[0]).value;
      assert r.Keys == m.Keys + {KeyMap(keys[0])};
      MergeKeysExactly(ord, r, add, keys[1..]);
      assert keys == [keys[0]] + keys[1..];
    }
  }

  /** The result never gains the key to be renamed; the new name stands for both
      spellings, and any other key is there when either side has it. */
  lemma RenamedKeyExactly(ord: Order, m: map<string, Yaml>, x: map<string, Yaml>, t: string)
    requires Enumerates(ord) && Merge(ord, Dict(m), Dict(x)).Ok?
    ensures var r := Merge(ord, Dict(m), Dict(x)).value;
            && r.Dict?
            && (t in r.entries <==>
                  || t in m
                  || (t != "official" && t in x)
                  || (t == "supported" && "official" in x))
  {
    MergeKeysExactly(ord, m, Dict(x), ord(x));
    assert t in x <==> t in ord(x);
    assert "official" in x <==> "official" in ord(x);
    var r := Merge(ord, Dict(m), Dict(x)).value.entries;
    if t in r && t !in m {
      var k :| k in ord(x) && KeyMap(k) == t;
    }
    if t in x && t != "official" {
      assert KeyMap(t) == t && t in r;
    }
    if "official" in x {
      assert KeyMap("official") == "supported" && "supported" in r;
    }
  }

  /** What a tree iterates over: the items of a list, the letters of a text, the keys of a
      dictionary. */
  ghost predicate IteratesOver(ord: Order, y: Yaml, xs: seq<Yaml>) {
    match y
    case List(items) => xs == items
    case Text(s) => |xs| == |s| && forall i :: 0 <= i < |s| ==> xs[i] == Text(s[i..i + 1])
    case Dict(m) => |xs| == |ord(m)| && forall i :: 0 <= i < |xs| ==> xs[i] == Text(ord(m)[i])
    case Other(_) => false
  }

  lemma ElementsAre(ord: Order, y: Yaml, xs: seq<Yaml>)
    requires IteratesOver(ord, y, xs)
    ensures Elements(ord, y) == Ok(xs)
  {
    var ys := Elements(ord, y).value;
    assert |ys| == |xs| && forall i :: 0 <= i < |ys| ==> ys[i] == xs[i];
    assert ys == xs;
  }

  /** A list keeps its items and takes in what the added tree iterates over, each once and
      in that order; a scalar that does not iterate raises. */
  lemma ListTakesIn(ord: Order, l: seq<Yaml>, add: Yaml, xs: seq<Yaml>)
    requires Enumerates(ord)
    ensures Merge(ord, List(l), add).Raised? <==> add.Other?
    ensures IteratesOver(ord, add, xs) ==>
              Merge(ord, List(l), add).Ok? && Merge(ord, List(l), add).value.List? &&
              var r := Merge(ord, List(l), add).value.items;
              && l <= r
              && (forall y :: y in r <==> y in l || y in xs)
              && (forall i, j :: |l| <= i < |r| && 0 <= j < i ==> r[i] != r[j])
              && (forall i, j | |l| <= i < j < |r| ::
                    r[i] in xs && r[j] in xs && FirstIndex(xs, r[i]) < FirstIndex(xs, r[j]))
  {
    if IteratesOver(ord, add, xs) {
      ElementsAre(ord, add, xs);
      AddMissingMeaning(l, xs);
      AddMissingKeepsOrder(l, xs);
    }
  }

  /** Below the top level the renamed key breaks idempotence: the first merge copies a
      subtree with "official" as it is, the second renames it inside that subtree. */
  lemma NestedOfficialIsNotIdempotent(ord: Order)
    requires Enumerates(ord)
    ensures var add := Dict(map["x" := Dict(map["official" := Text("f")])]);
            && Merge(ord, Dict(map[]), add).Ok?
            && Merge(ord, Merge(ord, Dict(map[]), add).value, add) != Merge(ord, Dict(map[]), add)
  {
    var none: map<string, Yaml> := map[];
    var inner := Dict(map["official" := Text("f")]);
    var add := Dict(map["x" := inner]);
    OneKey(ord, "x", inner);
    assert MergeKeys(ord, none, add, ["x"]).Ok? by {
      assert MergeKey(ord, none, add, "x").Ok?;
    }
    assert !CopiesClean(Dict(none), add) by {
      assert "official" in inner.entries && "x" in add.entries;
      assert !NoOfficial(inner) && !CleanAt(none, KeyMap("x"), inner);
    }
    MergeIsIdempotentExactly(ord, Dict(none), add);
  }

  lemma OneKey(ord: Order, k: string, y: Yaml)
    requires Enumerates(ord)
    ensures ord(map[k := y]) == [k]
  {
    var m := map[k := y];
    assert k in ord(m);
    assert |ord(m)| > 1 ==> ord(m)[0] != ord(m)[1];
    forall i | 0 <= i < |ord(m)| ensures ord(m)[i] == k {
      assert ord(m)[i] in ord(m);
      assert ord(m)[i] in m;
    }
  }

  // ----- The merge as a loop -----

  /** The loops of merge_yaml; the recursion descends into shared keys. */
  method MergeYaml(ord: Order, base: Yaml, add: Yaml) returns (r: Result<Yaml>)
    requires Enumerates(ord)
    ensures r == Merge(ord, base, add)
    decreases add
  {
    if base.Dict? {
      if !add.Dict? {
        return Raised;
      }
      var keys := ord(add.entries);
      var data := base.entries;
      var n := 0;
      while n < |keys|
        invariant n <= |keys|
        invariant forall k :: k in keys[n..] ==> k in add.entries
        invariant MergeKeys(ord, base.entries, add, keys) == MergeKeys(ord, data, add, keys[n..])
      {
        var k := keys[n];
        assert k in keys && keys[n..][0] == k && keys[n..][1..] == keys[n + 1..];
        var to := KeyMap(k);
        if to !in data {
          data := data[to := add.entries[k]];
        } else {
          var merged := MergeYaml(ord, data[to], add.entries[k]);
          if merged.Raised? {
            return Raised;
          }
          data := data[to := merged.value];
        }
        n := n + 1;
      }
      assert keys[n..] == [];
      r := Ok(Dict(data));
    } else if base.List? {
      var xs := Elements(ord, add);
      if xs.Raised? {
        return Raised;
      }
      var data := base.items;
      var n := 0;
      while n < |xs.value|
        invariant n <= |xs.value|
        invariant AddMissing(base.items, xs.value) == AddMissing(data, xs.value[n..])
      {
        assert xs.value[n..][0] == xs.value[n] && xs.value[n..][1..] == xs.value[n + 1..];
        if xs.value[n] !in data {
          data := data + [xs.value[n]];
        }
        n := n + 1;
      }
      assert xs.value[n..] == [];
      r := Ok(List(data));
    } else {
      r := Ok(base);
    }
  }
}
