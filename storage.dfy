/**
 * The in-memory store: two insertion-ordered dictionaries, assets and
 * findings, keyed by id. A Python dict is modelled as a `map` from id to
 * record together with the sequence of its ids in insertion order; ids
 * come from the caller (the source draws them from `uuid4`) and must be
 * fresh.
 */
module Storage {
  import opened Wrappers
  import opened Text

  datatype Asset = Asset(id: string, name: string, tags: seq<string>, services: seq<string>)

  datatype Finding = Finding(
    id: string,
    assetName: string,
    title: string,
    metrics: map<string, string>,
    score: real,
    severity: string)

  // ---------------------------------------------------------------------
  // Insertion-ordered dictionaries
  // ---------------------------------------------------------------------

  /** The keys listed in `s`. */
  function Elements(s: seq<string>): set<string> {
    if s == [] then {} else Elements(s[..|s| - 1]) + {s[|s| - 1]}
  }

  /** `Elements` holds exactly the members of the sequence. */
  lemma {:induction false} ElementsMembers(s: seq<string>)
    ensures forall x :: x in Elements(s) <==> x in s
  {
    if s != [] {
      ElementsMembers(s[..|s| - 1]);
      assert s == s[..|s| - 1] + [s[|s| - 1]];
    }
  }

  /** Listing a key after `s` adds it to the listed keys. */
  lemma ElementsAppend(s: seq<string>, x: string)
    ensures Elements(s + [x]) == Elements(s) + {x}
  {
    assert (s + [x])[..|s|] == s;
  }

  /** No key is listed twice: each one is absent from the keys before it. */
  ghost predicate NoDuplicates(s: seq<string>) {
    s == [] || (s[|s| - 1] !in Elements(s[..|s| - 1]) && NoDuplicates(s[..|s| - 1]))
  }

  /** Without duplicates, any two positions hold different keys. */
  lemma {:induction false} NoDuplicatesDistinct(s: seq<string>)
    requires NoDuplicates(s)
    ensures forall i, j :: 0 <= i < j < |s| ==> s[i] != s[j]
  {
    if s != [] {
      var init := s[..|s| - 1];
      NoDuplicatesDistinct(init);
      ElementsMembers(init);
      forall i, j | 0 <= i < j < |s| ensures s[i] != s[j] {
        if j == |s| - 1 {
          assert s[i] == init[i];
        } else {
          assert s[i] == init[i] && s[j] == init[j];
        }
      }
    }
  }

  /** `order` lists the keys of `m`, each once: the iteration order of a dict. */
  ghost predicate WellOrdered<V>(order: seq<string>, m: map<string, V>) {
    NoDuplicates(order) && Elements(order) == m.Keys
  }

  /** The values of a dict: the entries of `m` in the order of `order`. */
  function InOrder<V>(order: seq<string>, m: map<string, V>): (r: seq<V>)
    requires Elements(order) <= m.Keys
    ensures |r| == |order|
  {
    if order == [] then []
    else InOrder(order[..|order| - 1], m) + [m[order[|order| - 1]]]
  }

  /** The `i`-th value is the entry under the `i`-th key. */
  lemma {:induction false} InOrderAt<V>(order: seq<string>, m: map<string, V>, i: nat)
    requires Elements(order) <= m.Keys && i < |order|
    ensures order[i] in m && InOrder(order, m)[i] == m[order[i]]
  {
    if i < |order| - 1 {
      InOrderAt(order[..|order| - 1], m, i);
    }
  }

  /** Entries under keys that are not listed do not show up in the values. */
  lemma {:induction false} InOrderUpdateOther<V>(order: seq<string>, m: map<string, V>, id: string, v: V)
    requires Elements(order) <= m.Keys && id !in Elements(order)
    ensures InOrder(order, m[id := v]) == InOrder(order, m)
  {
    if order != [] {
      InOrderUpdateOther(order[..|order| - 1], m, id, v);
    }
  }

  /** Appending a fresh key to the dict appends its entry to `d.values()`; the earlier entries are untouched. */
  lemma InOrderAppend<V>(order: seq<string>, m: map<string, V>, id: string, v: V)
    requires Elements(order) <= m.Keys && id !in Elements(order)
    ensures InOrder(order + [id], m[id := v]) == InOrder(order, m) + [v]
  {
    assert (order + [id])[..|order|] == order;
    InOrderUpdateOther(order, m, id, v);
  }

  /** Inserting a fresh key at the end keeps the order consistent with the keys. */
  lemma AppendWellOrdered<V>(order: seq<string>, m: map<string, V>, id: string, v: V)
    requires WellOrdered(order, m) && id !in m
    ensures WellOrdered(order + [id], m[id := v])
  {
    assert (order + [id])[..|order|] == order;
  }

  /** The key order after deleting `id`: it is dropped, the rest keep their order. */
  function Without(order: seq<string>, id: string): (r: seq<string>)
    ensures Elements(r) == Elements(order) - {id}
    ensures |r| <= |order|
  {
    if order == [] then []
    else
      var last := order[|order| - 1];
      var rest := Without(order[..|order| - 1], id);
      if last == id then rest
      else
        ElementsAppend(rest, last);
        rest + [last]
  }

  /** Deleting from a one-key order drops that key exactly when it is the deleted one. */
  lemma WithoutSingle(x: string, id: string)
    ensures Without([x], id) == if x == id then [] else [x]
  {
    assert [x][..0] == [];
  }

  /**
   * Deleting from a concatenation deletes from each part, so the remaining
   * keys keep their relative insertion order.
   */
  lemma {:induction false} WithoutConcat(a: seq<string>, b: seq<string>, id: string)
    ensures Without(a + b, id) == Without(a, id) + Without(b, id)
  {
    if b == [] {
      assert a + b == a;
    } else {
      var init, last := b[..|b| - 1], b[|b| - 1];
      WithoutConcat(a, init, id);
      SplitLast(a, b);
      WithoutSnoc(a + init, last, id);
      WithoutSnoc(init, last, id);
      Associative(Without(a, id), Without(init, id), if last == id then [] else [last]);
    }
  }

  /** A non-empty sequence, and anything followed by it, end in its last element. */
  lemma SplitLast<T>(a: seq<T>, b: seq<T>)
    requires b != []
    ensures b == b[..|b| - 1] + [b[|b| - 1]]
    ensures a + b == (a + b[..|b| - 1]) + [b[|b| - 1]]
  {
  }

  lemma Associative<T>(x: seq<T>, y: seq<T>, z: seq<T>)
    ensures (x + y) + z == x + (y + z)
  {
  }

  /** Appending one key to the order appends it to what deletion leaves, unless it is the deleted key. */
  lemma WithoutSnoc(s: seq<string>, x: string, id: string)
    ensures Without(s + [x], id) == Without(s, id) + (if x == id then [] else [x])
  {
    assert (s + [x])[..|s|] == s;
  }

  /** Deleting a key that is absent changes nothing. */
  lemma {:induction false} WithoutAbsent(order: seq<string>, id: string)
    requires id !in Elements(order)
    ensures Without(order, id) == order
  {
    if order != [] {
      WithoutAbsent(order[..|order| - 1], id);
      assert order == order[..|order| - 1] + [order[|order| - 1]];
    }
  }

  /** Deleting twice is deleting once. */
  lemma WithoutIdempotent(order: seq<string>, id: string)
    ensures Without(Without(order, id), id) == Without(order, id)
  {
    WithoutAbsent(Without(order, id), id);
  }

  /** Deleting a key keeps the other keys distinct. */
  lemma {:induction false} WithoutNoDuplicates(order: seq<string>, id: string)
    requires NoDuplicates(order)
    ensures NoDuplicates(Without(order, id))
  {
    if order != [] {
      var init := order[..|order| - 1];
      WithoutNoDuplicates(init, id);
      var rest := Without(init, id);
      var last := order[|order| - 1];
      if last != id {
        assert (rest + [last])[..|rest|] == rest;
      }
    }
  }

  /** Deleting from a dict keeps its order consistent with its keys. */
  lemma WithoutWellOrdered<V>(order: seq<string>, m: map<string, V>, id: string)
    requires WellOrdered(order, m)
    ensures WellOrdered(Without(order, id), m - {id})
  {
    WithoutNoDuplicates(order, id);
  }

  // ---------------------------------------------------------------------
  // Record construction and queries over the ordered values
  // ---------------------------------------------------------------------

  /** The record a new finding gets: asset name and title stripped, blank ones replaced by their defaults, the rest as given. */
  function NewFinding(id: string, assetName: string, title: string, metrics: map<string, string>, score: real, severity: string): (f: Finding)
    ensures f.id == id && f.metrics == metrics && f.score == score && f.severity == severity
    ensures f.assetName != "" && IsStripped(f.assetName)
    ensures f.title != "" && IsStripped(f.title)
    ensures Strip(assetName) != "" ==> f.assetName == Strip(assetName)
    ensures Strip(assetName) == "" ==> f.assetName == "Unassigned"
    ensures Strip(title) != "" ==> f.title == Strip(title)
    ensures Strip(title) == "" ==> f.title == "Untitled Finding"
  {
    StripIsStripped(assetName);
    StripIsStripped(title);
    assert IsStripped("Unassigned") && IsStripped("Untitled Finding");
    OrElseStripped(Strip(assetName), "Unassigned");
    OrElseStripped(Strip(title), "Untitled Finding");
    Finding(id, OrElse(Strip(assetName), "Unassigned"), OrElse(Strip(title), "Untitled Finding"), metrics, score, severity)
  }

  /** The first asset, in order, named `name`. */
  function FirstNamed(s: seq<Asset>, name: string): (r: Option<Asset>)
    ensures r.None? <==> forall i :: 0 <= i < |s| ==> s[i].name != name
    ensures r.Some? ==>
      exists i :: 0 <= i < |s| && s[i] == r.value && s[i].name == name &&
        forall j :: 0 <= j < i ==> s[j].name != name
  {
    if s == [] then None
    else if s[0].name == name then Some(s[0])
    else
      var r := FirstNamed(s[1..], name);
      assert forall i :: 1 <= i < |s| ==> s[i] == s[1..][i - 1];
      r
  }

  /** The asset at `i` is the first one named `name` when none before it is. */
  lemma FirstNamedAt(s: seq<Asset>, name: string, i: nat)
    requires i < |s| && s[i].name == name
    requires forall j :: 0 <= j < i ==> s[j].name != name
    ensures FirstNamed(s, name) == Some(s[i])
  {
    var r := FirstNamed(s, name);
    var k :| 0 <= k < |s| && s[k] == r.value && s[k].name == name && forall j :: 0 <= j < k ==> s[j].name != name;
    assert k == i;
  }

  /** The findings whose asset name is exactly `name`, in order. */
  function ForAsset(fs: seq<Finding>, name: string): (r: seq<Finding>)
    ensures |r| <= |fs|
  {
    if fs == [] then []
    else
      var rest := ForAsset(fs[..|fs| - 1], name);
      if fs[|fs| - 1].assetName == name then rest + [fs[|fs| - 1]] else rest
  }

  /** The filter keeps exactly the findings whose asset name is `name`. */
  lemma {:induction false} ForAssetMembers(fs: seq<Finding>, name: string)
    ensures forall f :: f in ForAsset(fs, name) <==> f in fs && f.assetName == name
  {
    if fs != [] {
      var init, last := fs[..|fs| - 1], fs[|fs| - 1];
      ForAssetMembers(init, name);
      assert fs == init + [last];
    }
  }

  /** Filtering distributes over concatenation, so it keeps the order of the findings. */
  lemma {:induction false} ForAssetConcat(a: seq<Finding>, b: seq<Finding>, name: string)
    ensures ForAsset(a + b, name) == ForAsset(a, name) + ForAsset(b, name)
  {
    if b == [] {
      assert a + b == a;
    } else {
      var init, last := b[..|b| - 1], b[|b| - 1];
      ForAssetConcat(a, init, name);
      assert (a + b)[..|a + b| - 1] == a + init && (a + b)[|a + b| - 1] == last;
      var tail := if last.assetName == name then [last] else [];
      assert ForAsset(a + b, name) == ForAsset(a + init, name) + tail;
      assert ForAsset(b, name) == ForAsset(init, name) + tail;
    }
  }

  // ---------------------------------------------------------------------
  // Severity counts: a dict from severity name to count, insertion ordered
  // ---------------------------------------------------------------------

  type Counts = seq<(string, int)>

  /** The counts the severity tally starts from: the five names, each at 0. */
  const InitialCounts: Counts := [("Critical", 0), ("High", 0), ("Medium", 0), ("Low", 0), ("None", 0)]

  /** The count stored under `k`, or 0 when `k` is not a key. */
  function Get(c: Counts, k: string): int {
    if c == [] then 0
    else if c[0].0 == k then c[0].1
    else Get(c[1..], k)
  }

  function Keys(c: Counts): set<string> {
    if c == [] then {} else {c[0].0} + Keys(c[1..])
  }

  /** The sum of the counts. */
  function Total(c: Counts): int {
    if c == [] then 0 else c[0].1 + Total(c[1..])
  }

  /** Every key of the list is among its `Keys`. */
  lemma {:induction false} KeysAt(c: Counts, i: nat)
    requires i < |c|
    ensures c[i].0 in Keys(c)
  {
    if i > 0 {
      KeysAt(c[1..], i - 1);
    }
  }

  /** No key occurs twice in the list: it is a dict. */
  predicate DistinctKeys(c: Counts) {
    forall i, j :: 0 <= i < j < |c| ==> c[i].0 != c[j].0
  }

  /**
   * Adding one to a key's count: an existing key keeps its place and the
   * list its length; a new key is appended with count 1.
   */
  function Bump(c: Counts, k: string): (r: Counts)
    ensures Get(r, k) == Get(c, k) + 1
    ensures forall j :: j != k ==> Get(r, j) == Get(c, j)
    ensures Total(r) == Total(c) + 1
    ensures Keys(r) == Keys(c) + {k}
    ensures |c| <= |r| && forall i :: 0 <= i < |c| ==> r[i].0 == c[i].0
    ensures k in Keys(c) ==> |r| == |c|
    ensures k !in Keys(c) ==> r == c + [(k, 1)]
  {
    if c == [] then [(k, 1)]
    else if c[0].0 == k then
      var r := [(k, c[0].1 + 1)] + c[1..];
      assert r[1..] == c[1..];
      r
    else
      var rest := Bump(c[1..], k);
      var r := [c[0]] + rest;
      assert r[1..] == rest;
      assert c == [c[0]] + c[1..];
      r
  }

  /** Bumping keeps the keys distinct. */
  lemma BumpDistinct(c: Counts, k: string)
    requires DistinctKeys(c)
    ensures DistinctKeys(Bump(c, k))
  {
    var r := Bump(c, k);
    if k !in Keys(c) {
      forall i | 0 <= i < |c| ensures c[i].0 != k {
        KeysAt(c, i);
      }
    }
  }

  /** The counts after the loop over `fs`. */
  function CountsOf(fs: seq<Finding>): Counts {
    if fs == [] then InitialCounts
    else Bump(CountsOf(fs[..|fs| - 1]), fs[|fs| - 1].severity)
  }

  /** One more finding bumps the count of its severity. */
  lemma CountsOfStep(fs: seq<Finding>, i: nat)
    requires i < |fs|
    ensures CountsOf(fs[..i + 1]) == Bump(CountsOf(fs[..i]), fs[i].severity)
  {
    assert fs[..i + 1][..i] == fs[..i];
  }

  /** The number of findings in `fs` with severity `k`. */
  function NumWithSeverity(fs: seq<Finding>, k: string): nat {
    if fs == [] then 0
    else NumWithSeverity(fs[..|fs| - 1], k) + (if fs[|fs| - 1].severity == k then 1 else 0)
  }

  function Severities(fs: seq<Finding>): set<string> {
    if fs == [] then {} else Severities(fs[..|fs| - 1]) + {fs[|fs| - 1].severity}
  }

  /** The counts add up to the number of findings. */
  lemma {:induction false} CountsTotal(fs: seq<Finding>)
    ensures Total(CountsOf(fs)) == |fs|
  {
    if fs != [] {
      CountsTotal(fs[..|fs| - 1]);
    }
  }

  /** Each key's count is the number of findings with that severity; other keys read as 0. */
  lemma {:induction false} CountsGet(fs: seq<Finding>, k: string)
    ensures Get(CountsOf(fs), k) == NumWithSeverity(fs, k)
  {
    if fs != [] {
      CountsGet(fs[..|fs| - 1], k);
    } else {
      var c := InitialCounts;
      assert Get(c[4..], k) == 0;
      assert Get(c[3..], k) == 0 by { assert c[3..][1..] == c[4..]; }
      assert Get(c[2..], k) == 0 by { assert c[2..][1..] == c[3..]; }
      assert Get(c[1..], k) == 0 by { assert c[1..][1..] == c[2..]; }
    }
  }

  /**
   * The five severity names come first, in their fixed order; the keys are
   * those five and every severity string that occurs among the findings,
   * each listed once.
   */
  lemma {:induction false} CountsKeys(fs: seq<Finding>)
    ensures |CountsOf(fs)| >= 5
    ensures forall i :: 0 <= i < 5 ==> CountsOf(fs)[i].0 == InitialCounts[i].0
    ensures Keys(CountsOf(fs)) == Keys(InitialCounts) + Severities(fs)
    ensures DistinctKeys(CountsOf(fs))
  {
    if fs != [] {
      var init := fs[..|fs| - 1];
      CountsKeys(init);
      BumpDistinct(CountsOf(init), fs[|fs| - 1].severity);
    } else {
      InitialDistinct();
    }
  }

  /** The five names of the initial counts are pairwise distinct. */
  lemma InitialDistinct()
    ensures DistinctKeys(InitialCounts)
  {
    var names := seq(5, i requires 0 <= i < 5 => InitialCounts[i].0);
    assert names == ["Critical", "High", "Medium", "Low", "None"];
  }

  /** What `severity_counts` promises, in one place. */
  lemma CountsFacts(fs: seq<Finding>)
    ensures Total(CountsOf(fs)) == |fs|
    ensures forall k :: Get(CountsOf(fs), k) == NumWithSeverity(fs, k)
    ensures {"Critical", "High", "Medium", "Low", "None"} <= Keys(CountsOf(fs))
    ensures DistinctKeys(CountsOf(fs))
  {
    CountsTotal(fs);
    forall k ensures Get(CountsOf(fs), k) == NumWithSeverity(fs, k) {
      CountsGet(fs, k);
    }
    CountsKeys(fs);
    InitialKeys();
  }

  lemma InitialKeys()
    ensures Keys(InitialCounts) == {"Critical", "High", "Medium", "Low", "None"}
  {
    var c := InitialCounts;
    assert c[1..][1..][1..][1..][1..] == [];
  }

  // ---------------------------------------------------------------------
  // The store
  // ---------------------------------------------------------------------

  class Store {
    var assets: map<string, Asset>
    var assetOrder: seq<string>
    var findings: map<string, Finding>
    var findingOrder: seq<string>

    /** Both dicts list their keys once each, and every record sits under its own id. */
    ghost predicate Valid()
      reads this
    {
      && WellOrdered(assetOrder, assets) && WellOrdered(findingOrder, findings)
      && (forall id :: id in assets ==> assets[id].id == id)
      && (forall id :: id in findings ==> findings[id].id == id)
    }

    /** The stored assets in insertion order. */
    function Assets(): seq<Asset>
      reads this
      requires Valid()
    {
      InOrder(assetOrder, assets)
    }

    /** The stored findings in insertion order. */
    function Findings(): seq<Finding>
      reads this
      requires Valid()
    {
      InOrder(findingOrder, findings)
    }

    constructor ()
      ensures Valid()
      ensures assets == map[] && assetOrder == [] && findings == map[] && findingOrder == []
    {
      assets, assetOrder := map[], [];
      findings, findingOrder := map[], [];
    }

    /** `add_asset` under the fresh id `id`: the name is stripped, tags and services kept as given. */
    method AddAsset(id: string, name: string, tags: seq<string>, services: seq<string>) returns (a: Asset)
      requires Valid() && id !in assets
      modifies this
      ensures Valid()
      ensures a == Asset(id, Strip(name), tags, services)
      ensures assets == old(assets)[id := a] && assetOrder == old(assetOrder) + [id]
      ensures Assets() == old(Assets()) + [a]
      ensures findings == old(findings) && findingOrder == old(findingOrder)
    {
      a := Asset(id, Strip(name), tags, services);
      InOrderAppend(assetOrder, assets, id, a);
      AppendWellOrdered(assetOrder, assets, id, a);
      assets := assets[id := a];
      assetOrder := assetOrder + [id];
    }

    /** `get_asset_by_name`: the first asset, in insertion order, whose name is the stripped query. */
    method GetAssetByName(name: string) returns (r: Option<Asset>)
      requires Valid()
      ensures r == FirstNamed(Assets(), Strip(name))
      ensures r.Some? ==> r.value in Assets() && r.value.name == Strip(name)
      ensures r.None? <==> forall a :: a in Assets() ==> a.name != Strip(name)
    {
      var key := Strip(name);
      var values := Assets();
      var i := 0;
      while i < |values|
        invariant 0 <= i <= |values|
        invariant forall j :: 0 <= j < i ==> values[j].name != key
      {
        var a := values[i];
        if a.name == key {
          FirstNamedAt(values, key, i);
          return Some(a);
        }
        i := i + 1;
      }
      r := None;
    }

    /** `delete_asset`: drop the entry if present; findings are untouched. */
    method DeleteAsset(id: string)
      requires Valid()
      modifies this
      ensures Valid()
      ensures assets == old(assets) - {id} && assetOrder == Without(old(assetOrder), id)
      ensures id !in old(assets) ==> assets == old(assets) && assetOrder == old(assetOrder)
      ensures findings == old(findings) && findingOrder == old(findingOrder)
    {
      if id in assets {
        WithoutWellOrdered(assetOrder, assets, id);
        assets := assets - {id};
        assetOrder := Without(assetOrder, id);
      } else {
        WithoutAbsent(assetOrder, id);
        assert assets - {id} == assets;
      }
    }

    /** `add_finding` under the fresh id `id`. */
    method AddFinding(id: string, assetName: string, title: string, metrics: map<string, string>, score: real, severity: string)
      returns (f: Finding)
      requires Valid() && id !in findings
      modifies this
      ensures Valid()
      ensures f == NewFinding(id, assetName, title, metrics, score, severity)
      ensures findings == old(findings)[id := f] && findingOrder == old(findingOrder) + [id]
      ensures Findings() == old(Findings()) + [f]
      ensures assets == old(assets) && assetOrder == old(assetOrder)
    {
      f := NewFinding(id, assetName, title, metrics, score, severity);
      InOrderAppend(findingOrder, findings, id, f);
      AppendWellOrdered(findingOrder, findings, id, f);
      findings := findings[id := f];
      findingOrder := findingOrder + [id];
    }

    /** `delete_finding`: drop the entry if present; assets are untouched. */
    method DeleteFinding(id: string)
      requires Valid()
      modifies this
      ensures Valid()
      ensures findings == old(findings) - {id} && findingOrder == Without(old(findingOrder), id)
      ensures id !in old(findings) ==> findings == old(findings) && findingOrder == old(findingOrder)
      ensures assets == old(assets) && assetOrder == old(assetOrder)
    {
      if id in findings {
        WithoutWellOrdered(findingOrder, findings, id);
        findings := findings - {id};
        findingOrder := Without(findingOrder, id);
      } else {
        WithoutAbsent(findingOrder, id);
        assert findings - {id} == findings;
      }
    }

    /** `findings_for_asset_name`: the findings whose asset name equals `assetName` exactly, in insertion order. */
    method FindingsForAssetName(assetName: string) returns (r: seq<Finding>)
      requires Valid()
      ensures r == ForAsset(Findings(), assetName)
      ensures forall f :: f in r <==> f in Findings() && f.assetName == assetName
    {
      r := [];
      var values := Findings();
      var i := 0;
      while i < |values|
        invariant 0 <= i <= |values|
        invariant r == ForAsset(values[..i], assetName)
      {
        var f := values[i];
        assert values[..i + 1][..i] == values[..i];
        if f.assetName == assetName {
          r := r + [f];
        }
        i := i + 1;
      }
      assert values[..i] == values;
      ForAssetMembers(values, assetName);
    }

    /**
     * `severity_counts`: the five severity names first, then any other
     * severity met; each count is the number of findings with that severity.
     */
    method SeverityCounts() returns (c: Counts)
      requires Valid()
      ensures c == CountsOf(Findings())
      ensures Total(c) == |Findings()|
      ensures forall k :: Get(c, k) == NumWithSeverity(Findings(), k)
      ensures {"Critical", "High", "Medium", "Low", "None"} <= Keys(c)
      ensures DistinctKeys(c)
    {
      c := InitialCounts;
      var values := Findings();
      var i := 0;
      while i < |values|
        invariant 0 <= i <= |values|
        invariant c == CountsOf(values[..i])
      {
        CountsOfStep(values, i);
        c := Bump(c, values[i].severity);
        i := i + 1;
      }
      assert values[..i] == values;
      CountsFacts(values);
    }
  }
}
