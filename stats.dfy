/**
 * Per-frame detection statistics: the record a video worker builds from the
 * boxes of one result (`VideoWorker.extract_stats`).
 *
 * The counts are defined here by reference functions (`CountName`, `Distribution`,
 * `SumConf`, `MeanConfidence`, `StatsOf`), the method `ExtractStats` is proved to
 * compute them, and the lemmas say what they mean: the total is the number of
 * boxes, every class name that occurs is counted at least once, classes sharing a
 * name are merged, and the order of the boxes does not matter.
 */
module Stats {
  import opened Wrappers
  import opened Vision

  /** The dictionary `extract_stats` returns. */
  datatype FrameStats = FrameStats(
    totalObjects: nat,
    classDistribution: map<string, nat>,
    avgConfidence: real,
    fps: nat)

  /** `model.names[cls]` raises a KeyError for a class index the vocabulary lacks. */
  datatype StatsError = UnknownClass(cls: nat)

  /** Every box's class index has a name in the vocabulary. */
  predicate AllNamed(boxes: seq<Box>, names: map<nat, string>) {
    forall i :: 0 <= i < |boxes| ==> boxes[i].cls in names
  }

  /** 1 when the box's class is called `name`, else 0. */
  function Hit(b: Box, names: map<nat, string>, name: string): nat {
    if b.cls in names && names[b.cls] == name then 1 else 0
  }

  /** The number of boxes whose class is called `name`. */
  function CountName(boxes: seq<Box>, names: map<nat, string>, name: string): nat
    decreases |boxes|
  {
    if |boxes| == 0 then 0
    else CountName(boxes[..|boxes| - 1], names, name) + Hit(boxes[|boxes| - 1], names, name)
  }

  /** The class names that occur among the boxes. */
  function NamesOf(boxes: seq<Box>, names: map<nat, string>): set<string> {
    set b | b in boxes && b.cls in names :: names[b.cls]
  }

  /** Reference definition of `class_distribution`: each occurring name with its number of boxes. */
  function Distribution(boxes: seq<Box>, names: map<nat, string>): map<string, nat> {
    map n | n in NamesOf(boxes, names) :: CountName(boxes, names, n)
  }

  /** The sum of the confidences of the boxes. */
  function SumConf(boxes: seq<Box>): real
    decreases |boxes|
  {
    if |boxes| == 0 then 0.0 else SumConf(boxes[..|boxes| - 1]) + boxes[|boxes| - 1].conf
  }

  /** The mean confidence, 0 for no boxes (no division is performed then). */
  function MeanConfidence(boxes: seq<Box>): real {
    if |boxes| == 0 then 0.0 else SumConf(boxes) / (|boxes| as real)
  }

  /** The index of the first box whose class has no name: where `extract_stats` raises. */
  function FirstUnnamed(boxes: seq<Box>, names: map<nat, string>): (j: nat)
    requires !AllNamed(boxes, names)
    ensures j < |boxes| && boxes[j].cls !in names
    ensures AllNamed(boxes[..j], names)
  {
    if boxes[0].cls !in names then 0
    else
      var j := 1 + FirstUnnamed(boxes[1..], names);
      assert forall i :: 0 < i < j ==> boxes[..j][i] == boxes[1..][..j - 1][i - 1];
      j
  }

  /** A box without a name after named ones is the first one without a name. */
  lemma FirstUnnamedAt(boxes: seq<Box>, names: map<nat, string>, i: nat)
    requires i < |boxes| && boxes[i].cls !in names
    requires AllNamed(boxes[..i], names)
    ensures !AllNamed(boxes, names) && FirstUnnamed(boxes, names) == i
  {
  }

  /** Reference definition of the whole record: the counts, the mean, and `fps` never assigned. */
  function StatsOf(boxes: seq<Box>, names: map<nat, string>): Result<FrameStats, StatsError> {
    if AllNamed(boxes, names) then
      Success(FrameStats(|boxes|, Distribution(boxes, names), MeanConfidence(boxes), 0))
    else
      Failure(UnknownClass(boxes[FirstUnnamed(boxes, names)].cls))
  }

  /** `sum(m.values())`, taken over the keys in `keys`. */
  ghost function SumOver(m: map<string, nat>, keys: set<string>): nat
    requires keys <= m.Keys
    decreases keys
  {
    if keys == {} then 0
    else
      var k :| k in keys;
      m[k] + SumOver(m, keys - {k})
  }

  /** `sum(m.values())`. */
  ghost function SumValues(m: map<string, nat>): nat {
    SumOver(m, m.Keys)
  }

  // ---------------------------------------------------------------------------
  // Sums over the values of a map
  // ---------------------------------------------------------------------------

  /** Any key may be taken out first: the sum does not depend on the order of the keys. */
  lemma {:induction false} SumOverRemove(m: map<string, nat>, keys: set<string>, k: string)
    requires keys <= m.Keys && k in keys
    ensures SumOver(m, keys) == m[k] + SumOver(m, keys - {k})
    decreases keys
  {
    var j :| j in keys && SumOver(m, keys) == m[j] + SumOver(m, keys - {j});
    if j != k {
      SumOverRemove(m, keys - {j}, k);
      SumOverRemove(m, keys - {k}, j);
      assert keys - {j} - {k} == keys - {k} - {j};
    }
  }

  /** Two maps that agree on `keys` have the same sum over `keys`. */
  lemma {:induction false} SumOverAgree(m1: map<string, nat>, m2: map<string, nat>, keys: set<string>)
    requires keys <= m1.Keys && keys <= m2.Keys
    requires forall k :: k in keys ==> m1[k] == m2[k]
    ensures SumOver(m1, keys) == SumOver(m2, keys)
    decreases keys
  {
    if keys != {} {
      var k :| k in keys && SumOver(m1, keys) == m1[k] + SumOver(m1, keys - {k});
      SumOverRemove(m2, keys, k);
      SumOverAgree(m1, m2, keys - {k});
    }
  }

  /** Setting `m[k]` to `v` changes the sum of the values by `v` minus the old value (0 if absent). */
  lemma SumValuesUpdate(m: map<string, nat>, k: string, v: nat)
    ensures SumValues(m[k := v]) == SumValues(m) - (if k in m then m[k] else 0) + v
  {
    var u := m[k := v];
    if k in m {
      assert u.Keys == m.Keys;
      SumOverRemove(u, u.Keys, k);
      SumOverRemove(m, m.Keys, k);
      SumOverAgree(u, m, m.Keys - {k});
    } else {
      assert u.Keys - {k} == m.Keys;
      SumOverRemove(u, u.Keys, k);
      SumOverAgree(u, m, m.Keys);
    }
  }

  // ---------------------------------------------------------------------------
  // What the counts mean
  // ---------------------------------------------------------------------------

  /** Appending a box adds its class name (if it has one) to the occurring names. */
  lemma NamesOfSnoc(s: seq<Box>, b: Box, names: map<nat, string>)
    ensures NamesOf(s + [b], names) == NamesOf(s, names) + (if b.cls in names then {names[b.cls]} else {})
  {
  }

  /** A name is counted a positive number of times exactly when some box's class carries it. */
  lemma {:induction false} CountNamePositive(s: seq<Box>, names: map<nat, string>, n: string)
    ensures CountName(s, names, n) > 0 <==> n in NamesOf(s, names)
    decreases |s|
  {
    if |s| > 0 {
      var p, b := s[..|s| - 1], s[|s| - 1];
      assert s == p + [b];
      CountNamePositive(p, names, n);
      NamesOfSnoc(p, b, names);
    }
  }

  /** Counting one more box adds one to the count of its class name and leaves the others. */
  lemma DistributionStep(s: seq<Box>, b: Box, names: map<nat, string>)
    requires b.cls in names
    ensures var d, k := Distribution(s, names), names[b.cls];
            Distribution(s + [b], names) == d[k := (if k in d then d[k] else 0) + 1]
  {
    var t := s + [b];
    var d, k := Distribution(s, names), names[b.cls];
    var e := d[k := (if k in d then d[k] else 0) + 1];
    assert t[..|t| - 1] == s;
    NamesOfSnoc(s, b, names);
    assert Distribution(t, names).Keys == e.Keys;
    forall n | n in e.Keys ensures Distribution(t, names)[n] == e[n] {
      if n == k && k !in d {
        CountNamePositive(s, names, k);
      }
    }
  }

  /** `total_objects`, the sum of the counts, is the number of boxes: each box adds 1 to exactly one count. */
  lemma {:induction false} DistributionTotal(s: seq<Box>, names: map<nat, string>)
    requires AllNamed(s, names)
    ensures SumValues(Distribution(s, names)) == |s|
    decreases |s|
  {
    if |s| > 0 {
      var p, b := s[..|s| - 1], s[|s| - 1];
      assert s == p + [b];
      assert AllNamed(p, names) by {
        forall i | 0 <= i < |p| ensures p[i].cls in names { assert p[i] == s[i]; }
      }
      DistributionTotal(p, names);
      DistributionStep(p, b, names);
      var d, k := Distribution(p, names), names[b.cls];
      SumValuesUpdate(d, k, (if k in d then d[k] else 0) + 1);
    }
  }

  /**
   * The keys of `class_distribution` are exactly the names of the boxes' classes, and
   * each count is at least 1 and is the number of boxes whose class has that name
   * (so class indices sharing a name are merged under it).
   */
  lemma DistributionMeaning(s: seq<Box>, names: map<nat, string>)
    ensures forall n :: n in Distribution(s, names) <==>
      exists i :: 0 <= i < |s| && s[i].cls in names && names[s[i].cls] == n
    ensures forall n :: n in Distribution(s, names) ==>
      Distribution(s, names)[n] == CountName(s, names, n) >= 1
  {
    forall n | n in Distribution(s, names)
      ensures exists i :: 0 <= i < |s| && s[i].cls in names && names[s[i].cls] == n
      ensures Distribution(s, names)[n] >= 1
    {
      var b :| b in s && b.cls in names && names[b.cls] == n;
      var i :| 0 <= i < |s| && s[i] == b;
      CountNamePositive(s, names, n);
    }
  }

  // ---------------------------------------------------------------------------
  // The order of the boxes does not matter
  // ---------------------------------------------------------------------------

  /** Taking the box at index `i` out of the sequence subtracts its hit from the count. */
  lemma {:induction false} CountNameRemove(s: seq<Box>, i: nat, names: map<nat, string>, n: string)
    requires i < |s|
    ensures CountName(s, names, n) == CountName(s[..i] + s[i + 1..], names, n) + Hit(s[i], names, n)
    decreases |s|
  {
    var p := s[..|s| - 1];
    if i < |s| - 1 {
      CountNameRemove(p, i, names, n);
      var q := s[..i] + s[i + 1..];
      assert q[..|q| - 1] == p[..i] + p[i + 1..];
      assert q[|q| - 1] == s[|s| - 1];
    } else {
      assert s[..i] + s[i + 1..] == p;
    }
  }

  /** Taking out the element at index `i` takes one copy of it out of the multiset. */
  lemma MultisetRemoveAt<T>(s: seq<T>, i: nat)
    requires i < |s|
    ensures multiset(s[..i] + s[i + 1..]) == multiset(s) - multiset{s[i]}
  {
    assert s == s[..i] + [s[i]] + s[i + 1..];
  }

  /** Sequences holding the same boxes, in any order, give the same count for every name. */
  lemma {:induction false} CountNamePermutation(a: seq<Box>, b: seq<Box>, names: map<nat, string>, n: string)
    requires multiset(a) == multiset(b)
    ensures CountName(a, names, n) == CountName(b, names, n)
    decreases |a|
  {
    if |a| == 0 {
      assert |b| == |multiset(b)| == 0;
    } else {
      var k := |a| - 1;
      assert a[k] in multiset(b) by { assert a[k] in multiset(a); }
      var i :| 0 <= i < |b| && b[i] == a[k];
      MultisetRemoveAt(a, k);
      MultisetRemoveAt(b, i);
      assert a[..k] + a[k + 1..] == a[..k];
      CountNamePermutation(a[..k], b[..i] + b[i + 1..], names, n);
      CountNameRemove(b, i, names, n);
    }
  }

  /** Any permutation of the boxes gives the same `class_distribution`. */
  lemma DistributionPermutation(a: seq<Box>, b: seq<Box>, names: map<nat, string>)
    requires multiset(a) == multiset(b)
    ensures Distribution(a, names) == Distribution(b, names)
  {
    assert forall x :: x in a <==> x in multiset(a);
    assert forall x :: x in b <==> x in multiset(b);
    assert NamesOf(a, names) == NamesOf(b, names);
    forall n | n in NamesOf(a, names) ensures CountName(a, names, n) == CountName(b, names, n) {
      CountNamePermutation(a, b, names, n);
    }
  }

  /**
   * Any permutation of the boxes raises for an unknown class exactly when the
   * original does, and otherwise gives the same total and the same distribution.
   */
  lemma StatsPermutation(a: seq<Box>, b: seq<Box>, names: map<nat, string>)
    requires multiset(a) == multiset(b)
    ensures StatsOf(a, names).Success? <==> StatsOf(b, names).Success?
    ensures StatsOf(a, names).Success? ==>
      StatsOf(a, names).value.totalObjects == StatsOf(b, names).value.totalObjects &&
      StatsOf(a, names).value.classDistribution == StatsOf(b, names).value.classDistribution
  {
    assert |a| == |multiset(a)| == |multiset(b)| == |b|;
    forall x | x in a ensures x in b { assert x in multiset(a); }
    forall x | x in b ensures x in a { assert x in multiset(b); }
    if !AllNamed(a, names) {
      var i :| 0 <= i < |a| && a[i].cls !in names;
      assert a[i] in b;
    }
    if !AllNamed(b, names) {
      var i :| 0 <= i < |b| && b[i].cls !in names;
      assert b[i] in a;
    }
    DistributionPermutation(a, b, names);
  }

  // ---------------------------------------------------------------------------
  // The mean confidence
  // ---------------------------------------------------------------------------

  /** The sum of n confidences in [lo, hi] lies in [n * lo, n * hi]. */
  lemma {:induction false} SumConfWithin(s: seq<Box>, lo: real, hi: real)
    requires forall i :: 0 <= i < |s| ==> lo <= s[i].conf <= hi
    ensures lo * (|s| as real) <= SumConf(s) <= hi * (|s| as real)
    decreases |s|
  {
    if |s| > 0 {
      var p := s[..|s| - 1];
      assert forall i :: 0 <= i < |p| ==> p[i] == s[i];
      SumConfWithin(p, lo, hi);
      assert lo * (|s| as real) == lo * (|p| as real) + lo;
      assert hi * (|s| as real) == hi * (|p| as real) + hi;
    }
  }

  /** The mean of confidences that all lie in [lo, hi] lies in [lo, hi]. */
  lemma MeanWithin(s: seq<Box>, lo: real, hi: real)
    requires |s| > 0
    requires forall i :: 0 <= i < |s| ==> lo <= s[i].conf <= hi
    ensures lo <= MeanConfidence(s) <= hi
  {
    SumConfWithin(s, lo, hi);
    var n := |s| as real;
    var m := MeanConfidence(s);
    assert m - lo == (SumConf(s) - lo * n) / n;
    assert hi - m == (hi * n - SumConf(s)) / n;
  }

  // ---------------------------------------------------------------------------
  // The computation
  // ---------------------------------------------------------------------------

  /** `sum(counts.values())`: adds the values of the map up, key by key. */
  method SumCounts(counts: map<string, nat>) returns (total: nat)
    ensures total == SumValues(counts)
  {
    total := 0;
    var keys := counts.Keys;
    while keys != {}
      invariant keys <= counts.Keys
      invariant total + SumOver(counts, keys) == SumValues(counts)
      decreases keys
    {
      var k :| k in keys;
      SumOverRemove(counts, keys, k);
      total := total + counts[k];
      keys := keys - {k};
    }
  }

  /**
   * `extract_stats`: walks the boxes once, counting each class name and adding up the
   * confidences; raises at the first box whose class has no name; then takes the total as
   * the sum of the counts and the mean as the confidence total over the number of boxes.
   */
  method ExtractStats(boxes: seq<Box>, names: map<nat, string>) returns (r: Result<FrameStats, StatsError>)
    ensures r == StatsOf(boxes, names)
    ensures r.Failure? <==> !AllNamed(boxes, names)
    ensures r.Success? ==> r.value.totalObjects == |boxes| && r.value.fps == 0
    ensures boxes == [] ==> r == Success(FrameStats(0, map[], 0.0, 0))
  {
    var counts: map<string, nat> := map[];
    var totalConf := 0.0;
    for i := 0 to |boxes|
      invariant AllNamed(boxes[..i], names)
      invariant counts == Distribution(boxes[..i], names)
      invariant totalConf == SumConf(boxes[..i])
    {
      var box := boxes[i];
      if box.cls !in names {
        FirstUnnamedAt(boxes, names, i);
        return Failure(UnknownClass(box.cls));
      }
      var name := names[box.cls];
      DistributionStep(boxes[..i], box, names);
      assert boxes[..i + 1] == boxes[..i] + [box];
      counts := counts[name := (if name in counts then counts[name] else 0) + 1];
      totalConf := totalConf + box.conf;
    }
    assert boxes[..|boxes|] == boxes;
    var total := SumCounts(counts);
    DistributionTotal(boxes, names);
    var avgConf := if |boxes| > 0 then totalConf / (|boxes| as real) else 0.0;
    r := Success(FrameStats(total, counts, avgConf, 0));
  }

  // ---------------------------------------------------------------------------
  // Two frames, worked out
  // ---------------------------------------------------------------------------

  /** Three boxes, two of class 0 and one of class 1: three objects, counted per name. */
  lemma ThreeBoxFrame()
    ensures StatsOf([Box(0, 0.9), Box(0, 0.6), Box(1, 0.6)], map[0 := "leaf-folder", 1 := "stem-borer"])
         == Success(FrameStats(3, map["leaf-folder" := 2, "stem-borer" := 1], 0.7, 0))
  {
    var boxes := [Box(0, 0.9), Box(0, 0.6), Box(1, 0.6)];
    var names := map[0 := "leaf-folder", 1 := "stem-borer"];
    assert boxes[..2] == [Box(0, 0.9), Box(0, 0.6)] && boxes[..2][..1] == [Box(0, 0.9)];
    assert NamesOf(boxes, names) == {"leaf-folder", "stem-borer"} by {
      assert boxes[0] in boxes && boxes[2] in boxes;
    }
    var one, two := [Box(0, 0.9)], [Box(0, 0.9), Box(0, 0.6)];
    assert one[..0] == [];
    assert CountName(one, names, "leaf-folder") == 1 && CountName(one, names, "stem-borer") == 0;
    assert CountName(two, names, "leaf-folder") == 2 && CountName(two, names, "stem-borer") == 0;
    assert CountName(boxes, names, "leaf-folder") == 2;
    assert CountName(boxes, names, "stem-borer") == 1;
    assert SumConf(one) == 0.9 && SumConf(two) == 1.5;
    assert Distribution(boxes, names) == map["leaf-folder" := 2, "stem-borer" := 1];
    assert SumConf(boxes) == 2.1;
    assert AllNamed(boxes, names);
  }

  /** Two class indices with the same name are merged into one entry. */
  lemma SharedNameMerged()
    ensures StatsOf([Box(3, 0.5), Box(7, 0.5)], map[3 := "rice-bug", 7 := "rice-bug"])
         == Success(FrameStats(2, map["rice-bug" := 2], 0.5, 0))
  {
    var boxes := [Box(3, 0.5), Box(7, 0.5)];
    var names := map[3 := "rice-bug", 7 := "rice-bug"];
    assert boxes[..1] == [Box(3, 0.5)] && boxes[..1][..0] == [];
    assert NamesOf(boxes, names) == {"rice-bug"} by {
      assert boxes[0] in boxes;
    }
    assert CountName(boxes, names, "rice-bug") == 2;
    assert Distribution(boxes, names) == map["rice-bug" := 2];
    assert SumConf(boxes) == 1.0;
    assert AllNamed(boxes, names);
  }
}
