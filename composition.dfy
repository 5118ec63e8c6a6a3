/** The portfolio composition of the simulator: the assets held per ticker
    with their class, type, weight and dollar value, the callbacks that add
    and delete assets, the allocation loop that turns the widget inputs into
    weights and values, and the normalisation of weights that exceed
    100%. */
module Composition {
  import Stats

  // ---------------------------------------------------------------------
  // Asset classes

  datatype AssetClass = Equity | FixedIncome | Commodities | Crypto

  /** The keys of ASSET_CLASSES, in their order. */
  const AssetClasses: seq<AssetClass> := [Equity, FixedIncome, Commodities, Crypto]

  function ClassName(c: AssetClass): string
  {
    match c
    case Equity => "Equity"
    case FixedIncome => "Fixed Income"
    case Commodities => "Commodities"
    case Crypto => "Crypto"
  }

  /** The position of a class in AssetClasses. */
  function ClassIndex(c: AssetClass): (k: nat)
    ensures k < |AssetClasses| && AssetClasses[k] == c
  {
    match c
    case Equity => 0
    case FixedIncome => 1
    case Commodities => 2
    case Crypto => 3
  }

  /** Each asset class is listed once. */
  lemma ClassesDistinct(i: nat, j: nat)
    requires i < j < |AssetClasses|
    ensures AssetClasses[i] != AssetClasses[j]
    ensures ClassName(AssetClasses[i]) != ClassName(AssetClasses[j])
  {
  }

  // ---------------------------------------------------------------------
  // Tickers

  function UpperChar(c: char): char
  {
    if 'a' <= c <= 'z' then (c as int - 32) as char else c
  }

  /** str.upper() on ASCII letters. */
  function Upper(s: string): (r: string)
    ensures |r| == |s|
  {
    seq(|s|, i requires 0 <= i < |s| => UpperChar(s[i]))
  }

  /** Upper-casing twice is upper-casing once, so every ticker the
      portfolio holds is already upper case. */
  lemma UpperIdempotent(s: string)
    ensures Upper(Upper(s)) == Upper(s)
    ensures Upper(s) == "" <==> s == ""
  {
    assert forall i :: 0 <= i < |s| ==> UpperChar(UpperChar(s[i])) == UpperChar(s[i]);
  }

  /** The set of the elements of s. */
  function Elems(s: seq<string>): set<string>
  {
    if |s| == 0 then {} else Elems(s[..|s| - 1]) + {s[|s| - 1]}
  }

  lemma {:induction false} ElemsMembers(s: seq<string>)
    ensures forall x :: x in Elems(s) <==> x in s
  {
    if |s| > 0 {
      ElemsMembers(s[..|s| - 1]);
      assert s == s[..|s| - 1] + [s[|s| - 1]];
    }
  }

  predicate Distinct(s: seq<string>)
  {
    forall i, j :: 0 <= i < j < |s| ==> s[i] != s[j]
  }

  /** The keys of a holding map are exactly the tickers listed, each once. */
  predicate Keyed(ts: seq<string>, m: map<string, Asset>)
  {
    Distinct(ts) && m.Keys == Elems(ts)
  }

  /** s with t removed, the order of the rest kept. */
  function Without(s: seq<string>, t: string): (r: seq<string>)
    ensures Elems(r) == Elems(s) - {t}
    ensures Distinct(s) ==> Distinct(r)
  {
    if |s| == 0 then []
    else
      var init := s[..|s| - 1];
      var x := s[|s| - 1];
      var rest := Without(init, t);
      assert (rest + [x])[..|rest + [x]| - 1] == rest;
      assert Distinct(s) ==> x !in rest by {
        if Distinct(s) {
          forall i | 0 <= i < |init| ensures init[i] != x {
            assert init[i] == s[i];
          }
          ElemsMembers(init);
          ElemsMembers(rest);
        }
      }
      if x == t then rest else rest + [x]
  }

  // ---------------------------------------------------------------------
  // Assets and their totals

  datatype Asset = Asset(assetClass: AssetClass, assetType: string, weight: real, value: real)

  /** The field a total is taken of. */
  datatype Field = Weight | Value

  function Get(a: Asset, f: Field): real
  {
    match f
    case Weight => a.weight
    case Value => a.value
  }

  predicate Covers(ts: seq<string>, m: map<string, Asset>)
  {
    forall i :: 0 <= i < |ts| ==> ts[i] in m
  }

  /** The sum of field f over the assets of ts. */
  function Total(ts: seq<string>, m: map<string, Asset>, f: Field): real
  {
    if |ts| == 0 then 0.0
    else
      var t := ts[|ts| - 1];
      Total(ts[..|ts| - 1], m, f) + (if t in m then Get(m[t], f) else 0.0)
  }

  /** The sum of field f over the assets of ts in class c: class_weight and
      class_value. */
  function ClassTotal(ts: seq<string>, m: map<string, Asset>, c: AssetClass, f: Field): real
  {
    if |ts| == 0 then 0.0
    else
      var t := ts[|ts| - 1];
      ClassTotal(ts[..|ts| - 1], m, c, f) +
        (if t in m && m[t].assetClass == c then Get(m[t], f) else 0.0)
  }

  /** The class totals of the classes cs, added up. */
  function ClassesTotal(cs: seq<AssetClass>, ts: seq<string>, m: map<string, Asset>, f: Field): real
  {
    if |cs| == 0 then 0.0
    else ClassesTotal(cs[..|cs| - 1], ts, m, f) + ClassTotal(ts, m, cs[|cs| - 1], f)
  }

  /** The class totals of the classes cs, one per class and in the order of
      cs, as the allocation panel lists them. */
  function ClassTotals(cs: seq<AssetClass>, ts: seq<string>, m: map<string, Asset>, f: Field)
    : (r: seq<real>)
    ensures |r| == |cs|
    ensures forall k :: 0 <= k < |cs| ==> r[k] == ClassTotal(ts, m, cs[k], f)
  {
    if |cs| == 0 then []
    else ClassTotals(cs[..|cs| - 1], ts, m, f) + [ClassTotal(ts, m, cs[|cs| - 1], f)]
  }

  lemma ClassesTotalOfAll(ts: seq<string>, m: map<string, Asset>, f: Field)
    ensures ClassesTotal(AssetClasses, ts, m, f) ==
      ClassTotal(ts, m, Equity, f) + ClassTotal(ts, m, FixedIncome, f) +
      ClassTotal(ts, m, Commodities, f) + ClassTotal(ts, m, Crypto, f)
  {
    var cs := AssetClasses;
    assert cs[..3] == [Equity, FixedIncome, Commodities];
    assert cs[..3][..2] == [Equity, FixedIncome];
    assert cs[..3][..2][..1] == [Equity];
    assert cs[..3][..2][..1][..0] == [];
    assert ClassesTotal([Equity], ts, m, f) == ClassTotal(ts, m, Equity, f);
    assert ClassesTotal([Equity, FixedIncome], ts, m, f) ==
      ClassTotal(ts, m, Equity, f) + ClassTotal(ts, m, FixedIncome, f);
    assert ClassesTotal([Equity, FixedIncome, Commodities], ts, m, f) ==
      ClassTotal(ts, m, Equity, f) + ClassTotal(ts, m, FixedIncome, f) + ClassTotal(ts, m, Commodities, f);
  }

  /** Every asset has one of the listed classes, so the class totals add up
      to the portfolio total. */
  lemma {:induction false} ClassTotalsAddUp(ts: seq<string>, m: map<string, Asset>, f: Field)
    ensures ClassesTotal(AssetClasses, ts, m, f) == Total(ts, m, f)
  {
    ClassesTotalOfAll(ts, m, f);
    if |ts| > 0 {
      var init := ts[..|ts| - 1];
      ClassTotalsAddUp(init, m, f);
      ClassesTotalOfAll(init, m, f);
    }
  }

  lemma ClassTotalStep(ts: seq<string>, m: map<string, Asset>, c: AssetClass, f: Field, j: nat)
    requires j < |ts|
    ensures ClassTotal(ts[..j + 1], m, c, f) ==
      ClassTotal(ts[..j], m, c, f) +
        (if ts[j] in m && m[ts[j]].assetClass == c then Get(m[ts[j]], f) else 0.0)
  {
    assert ts[..j + 1][..j] == ts[..j];
  }

  /** A class total depends only on the assets of that class. */
  lemma {:induction false} ClassTotalAgree(ts: seq<string>, m1: map<string, Asset>,
                                           m2: map<string, Asset>, c: AssetClass, f: Field)
    requires m1.Keys == m2.Keys
    requires forall t :: t in m1 ==> m1[t].assetClass == m2[t].assetClass
    requires forall t :: t in m1 && m1[t].assetClass == c ==> m1[t] == m2[t]
    ensures ClassTotal(ts, m1, c, f) == ClassTotal(ts, m2, c, f)
  {
    if |ts| > 0 {
      ClassTotalAgree(ts[..|ts| - 1], m1, m2, c, f);
    }
  }

  // ---------------------------------------------------------------------
  // Allocation

  datatype Allocation = Weighted | Absolute

  /** What the widget of a mode accepts: a slider over [0, 100] percent, or
      a dollar input over [0, total value]. */
  predicate InRange(mode: Allocation, x: real, totalValue: real)
  {
    match mode
    case Weighted => 0.0 <= x <= 100.0
    case Absolute => 0.0 <= x <= totalValue
  }

  /** The asset after its widget read x: in "% Weighted" mode the weight is
      x / 100 and the value follows from it; in "$ Absolute" mode the value
      is x and the weight is its share of the total, 0 for a zero total. */
  function Reallocated(a: Asset, mode: Allocation, x: real, totalValue: real): Asset
  {
    match mode
    case Weighted =>
      var w := x / 100.0;
      Asset(a.assetClass, a.assetType, w, w * totalValue)
    case Absolute =>
      Asset(a.assetClass, a.assetType, if totalValue != 0.0 then x / totalValue else 0.0, x)
  }

  lemma DivUnit(x: real, y: real)
    requires 0.0 <= x <= y && y > 0.0
    ensures 0.0 <= x / y <= 1.0
  {
  }

  /** A widget value in range gives a weight in [0, 1], a non-negative
      value, and a value that is the weight's share of the total; the class
      and type stay. */
  lemma ReallocatedSound(a: Asset, mode: Allocation, x: real, totalValue: real)
    requires totalValue >= 0.0 && InRange(mode, x, totalValue)
    ensures 0.0 <= Reallocated(a, mode, x, totalValue).weight <= 1.0
    ensures Reallocated(a, mode, x, totalValue).value >= 0.0
    ensures Reallocated(a, mode, x, totalValue).value ==
      Reallocated(a, mode, x, totalValue).weight * totalValue
    ensures Reallocated(a, mode, x, totalValue).assetClass == a.assetClass
    ensures Reallocated(a, mode, x, totalValue).assetType == a.assetType
  {
    match mode
    case Weighted =>
      Stats.MulNonneg(x / 100.0, totalValue);
    case Absolute =>
      if totalValue != 0.0 {
        DivUnit(x, totalValue);
        assert x / totalValue * totalValue == x;
      }
  }

  function ReallocatedAll(m: map<string, Asset>, mode: Allocation, inputs: map<string, real>,
                          totalValue: real): (r: map<string, Asset>)
    requires forall t :: t in m ==> t in inputs
    ensures r.Keys == m.Keys
  {
    map t | t in m :: Reallocated(m[t], mode, inputs[t], totalValue)
  }

  /** Every value is its weight's share of the total value. */
  predicate Proportional(m: map<string, Asset>, totalValue: real)
  {
    forall t :: t in m ==> m[t].value == m[t].weight * totalValue
  }

  /** Reallocating every asset keeps weights and values in range and makes
      each value its weight's share of the total. */
  lemma ReallocatedAllSound(m: map<string, Asset>, mode: Allocation, inputs: map<string, real>,
                            totalValue: real)
    requires forall t :: t in m ==> t in inputs && InRange(mode, inputs[t], totalValue)
    requires totalValue >= 0.0
    ensures InRanges(ReallocatedAll(m, mode, inputs, totalValue))
    ensures Proportional(ReallocatedAll(m, mode, inputs, totalValue), totalValue)
  {
    forall t | t in m
      ensures 0.0 <= ReallocatedAll(m, mode, inputs, totalValue)[t].weight <= 1.0
      ensures ReallocatedAll(m, mode, inputs, totalValue)[t].value >= 0.0
      ensures ReallocatedAll(m, mode, inputs, totalValue)[t].value ==
        ReallocatedAll(m, mode, inputs, totalValue)[t].weight * totalValue
    {
      ReallocatedSound(m[t], mode, inputs[t], totalValue);
    }
  }

  /** The assets after the allocation loop's pass over class c. */
  function ReallocatedClass(m: map<string, Asset>, c: AssetClass, mode: Allocation,
                            inputs: map<string, real>, totalValue: real): (r: map<string, Asset>)
    requires forall t :: t in m ==> t in inputs
    ensures r.Keys == m.Keys
  {
    map t | t in m :: if m[t].assetClass == c then Reallocated(m[t], mode, inputs[t], totalValue) else m[t]
  }

  /** A pass over one class keeps every class and every weight and value
      in range, and touches the assets of that class only. */
  lemma ReallocatedClassSound(m: map<string, Asset>, c: AssetClass, mode: Allocation,
                              inputs: map<string, real>, totalValue: real)
    requires forall t :: t in m ==> t in inputs && InRange(mode, inputs[t], totalValue)
    requires InRanges(m) && totalValue >= 0.0
    ensures InRanges(ReallocatedClass(m, c, mode, inputs, totalValue))
    ensures forall t :: t in m ==>
      ReallocatedClass(m, c, mode, inputs, totalValue)[t].assetClass == m[t].assetClass
    ensures forall t :: t in m && m[t].assetClass != c ==>
      ReallocatedClass(m, c, mode, inputs, totalValue)[t] == m[t]
  {
    forall t | t in m
      ensures ReallocatedClass(m, c, mode, inputs, totalValue)[t].assetClass == m[t].assetClass
      ensures 0.0 <= ReallocatedClass(m, c, mode, inputs, totalValue)[t].weight <= 1.0
      ensures ReallocatedClass(m, c, mode, inputs, totalValue)[t].value >= 0.0
    {
      ReallocatedSound(m[t], mode, inputs[t], totalValue);
    }
  }

  /** The assets after the inner loop has visited the tickers ts for class
      c: each visited asset of class c takes its widget's value. */
  function Pass(ts: seq<string>, m: map<string, Asset>, c: AssetClass, mode: Allocation,
                inputs: map<string, real>, totalValue: real): (r: map<string, Asset>)
    requires forall t :: t in m ==> t in inputs
    ensures r.Keys == m.Keys
  {
    if |ts| == 0 then m
    else
      var prev := Pass(ts[..|ts| - 1], m, c, mode, inputs, totalValue);
      var t := ts[|ts| - 1];
      if t in prev && prev[t].assetClass == c then prev[t := Reallocated(prev[t], mode, inputs[t], totalValue)]
      else prev
  }

  /** Visiting tickers ts for class c reallocates exactly the visited assets
      of class c; visiting one twice changes nothing more. */
  lemma {:induction false} PassValue(ts: seq<string>, m: map<string, Asset>, c: AssetClass,
                                     mode: Allocation, inputs: map<string, real>, totalValue: real)
    requires forall t :: t in m ==> t in inputs
    ensures forall u :: u in m ==>
      Pass(ts, m, c, mode, inputs, totalValue)[u] ==
        if u in ts then ReallocatedClass(m, c, mode, inputs, totalValue)[u] else m[u]
  {
    if |ts| > 0 {
      var init := ts[..|ts| - 1];
      PassValue(init, m, c, mode, inputs, totalValue);
      forall u | u in m
        ensures Pass(ts, m, c, mode, inputs, totalValue)[u] ==
          if u in ts then ReallocatedClass(m, c, mode, inputs, totalValue)[u] else m[u]
      {
        assert ts == init + [ts[|ts| - 1]];
      }
    }
  }

  /** One step of the inner loop, on ticker ts[j]. */
  lemma PassStep(ts: seq<string>, m: map<string, Asset>, c: AssetClass, mode: Allocation,
                 inputs: map<string, real>, totalValue: real, j: nat)
    requires (forall t :: t in m ==> t in inputs) && j < |ts| && ts[j] in m
    ensures
      var prev := Pass(ts[..j], m, c, mode, inputs, totalValue);
      var rc := ReallocatedClass(m, c, mode, inputs, totalValue);
      var t := ts[j];
      t in prev && t in inputs &&
      Pass(ts[..j + 1], m, c, mode, inputs, totalValue) ==
        (if prev[t].assetClass == c then prev[t := Reallocated(prev[t], mode, inputs[t], totalValue)]
         else prev) &&
      (prev[t].assetClass == c ==> Reallocated(prev[t], mode, inputs[t], totalValue) == rc[t]) &&
      ClassTotal(ts[..j + 1], rc, c, Weight) ==
        ClassTotal(ts[..j], rc, c, Weight) + (if prev[t].assetClass == c then rc[t].weight else 0.0) &&
      ClassTotal(ts[..j + 1], rc, c, Value) ==
        ClassTotal(ts[..j], rc, c, Value) + (if prev[t].assetClass == c then rc[t].value else 0.0)
  {
    var rc := ReallocatedClass(m, c, mode, inputs, totalValue);
    ClassTotalStep(ts, rc, c, Weight, j);
    ClassTotalStep(ts, rc, c, Value, j);
    PassValue(ts[..j], m, c, mode, inputs, totalValue);
    assert ts[..j + 1][..j] == ts[..j];
  }

  /** Once every held ticker is visited, the pass has reallocated the whole
      class. */
  lemma PassComplete(ts: seq<string>, m: map<string, Asset>, c: AssetClass, mode: Allocation,
                     inputs: map<string, real>, totalValue: real)
    requires Keyed(ts, m) && forall t :: t in m ==> t in inputs
    ensures Pass(ts, m, c, mode, inputs, totalValue) == ReallocatedClass(m, c, mode, inputs, totalValue)
  {
    ElemsMembers(ts);
    PassValue(ts, m, c, mode, inputs, totalValue);
  }

  /** The assets after the outer loop has visited the classes cs. */
  function Stages(cs: seq<AssetClass>, m: map<string, Asset>, mode: Allocation,
                  inputs: map<string, real>, totalValue: real): (r: map<string, Asset>)
    requires forall t :: t in m ==> t in inputs
    ensures r.Keys == m.Keys
  {
    if |cs| == 0 then m
    else ReallocatedClass(Stages(cs[..|cs| - 1], m, mode, inputs, totalValue), cs[|cs| - 1],
                          mode, inputs, totalValue)
  }

  /** After visiting the classes cs, exactly the assets of those classes
      are reallocated. */
  lemma {:induction false} StagesValue(cs: seq<AssetClass>, m: map<string, Asset>, mode: Allocation,
                                       inputs: map<string, real>, totalValue: real)
    requires forall t :: t in m ==> t in inputs
    ensures forall u :: u in m ==>
      Stages(cs, m, mode, inputs, totalValue)[u] ==
        if m[u].assetClass in cs then ReallocatedAll(m, mode, inputs, totalValue)[u] else m[u]
  {
    if |cs| > 0 {
      var init := cs[..|cs| - 1];
      StagesValue(init, m, mode, inputs, totalValue);
      forall u | u in m
        ensures Stages(cs, m, mode, inputs, totalValue)[u] ==
          if m[u].assetClass in cs then ReallocatedAll(m, mode, inputs, totalValue)[u] else m[u]
      {
        assert cs == init + [cs[|cs| - 1]];
      }
    }
  }

  /** Once every class is visited, every asset is reallocated. */
  lemma StagesComplete(m: map<string, Asset>, mode: Allocation, inputs: map<string, real>,
                       totalValue: real)
    requires forall t :: t in m ==> t in inputs
    ensures Stages(AssetClasses, m, mode, inputs, totalValue) == ReallocatedAll(m, mode, inputs, totalValue)
  {
    StagesValue(AssetClasses, m, mode, inputs, totalValue);
    forall u | u in m
      ensures m[u].assetClass in AssetClasses
    {
      var k := ClassIndex(m[u].assetClass);
    }
  }

  /** Reallocation keeps every asset's class. */
  lemma ReallocatedAllClasses(m: map<string, Asset>, mode: Allocation, inputs: map<string, real>,
                              totalValue: real)
    requires forall t :: t in m ==> t in inputs
    ensures forall t :: t in m ==>
      ReallocatedAll(m, mode, inputs, totalValue)[t].assetClass == m[t].assetClass
  {
  }

  /** The outer loop's running sums and lists grow by class AssetClasses[ci]. */
  lemma ClassesStep(ts: seq<string>, m: map<string, Asset>, r: map<string, Asset>, ci: nat)
    requires ci < |AssetClasses|
    ensures
      var c := AssetClasses[ci];
      ClassesTotal(AssetClasses[..ci + 1], ts, r, Weight) ==
        ClassesTotal(AssetClasses[..ci], ts, r, Weight) + ClassTotal(ts, r, c, Weight) &&
      ClassesTotal(AssetClasses[..ci + 1], ts, r, Value) ==
        ClassesTotal(AssetClasses[..ci], ts, r, Value) + ClassTotal(ts, r, c, Value) &&
      ClassTotals(AssetClasses[..ci + 1], ts, m, Weight) ==
        ClassTotals(AssetClasses[..ci], ts, m, Weight) + [ClassTotal(ts, m, c, Weight)] &&
      ClassTotals(AssetClasses[..ci + 1], ts, m, Value) ==
        ClassTotals(AssetClasses[..ci], ts, m, Value) + [ClassTotal(ts, m, c, Value)]
  {
    assert AssetClasses[..ci + 1][..ci] == AssetClasses[..ci];
  }

  /** When class AssetClasses[ci] comes up, its assets are still as they
      were: the earlier passes touched other classes only. */
  lemma StageUntouched(ts: seq<string>, m: map<string, Asset>, mode: Allocation,
                       inputs: map<string, real>, totalValue: real, ci: nat)
    requires (forall t :: t in m ==> t in inputs) && ci < |AssetClasses|
    ensures
      var s := Stages(AssetClasses[..ci], m, mode, inputs, totalValue);
      var c := AssetClasses[ci];
      ClassTotal(ts, s, c, Weight) == ClassTotal(ts, m, c, Weight) &&
      ClassTotal(ts, s, c, Value) == ClassTotal(ts, m, c, Value)
  {
    var s := Stages(AssetClasses[..ci], m, mode, inputs, totalValue);
    var c := AssetClasses[ci];
    assert c !in AssetClasses[..ci];
    ReallocatedAllClasses(m, mode, inputs, totalValue);
    StagesValue(AssetClasses[..ci], m, mode, inputs, totalValue);
    ClassTotalAgree(ts, s, m, c, Weight);
    ClassTotalAgree(ts, s, m, c, Value);
  }

  /** One more stage reallocates one more class. */
  lemma StagesSnoc(cs: seq<AssetClass>, m: map<string, Asset>, mode: Allocation,
                   inputs: map<string, real>, totalValue: real, i: nat)
    requires (forall t :: t in m ==> t in inputs) && i < |cs|
    ensures Stages(cs[..i + 1], m, mode, inputs, totalValue) ==
      ReallocatedClass(Stages(cs[..i], m, mode, inputs, totalValue), cs[i], mode, inputs, totalValue)
  {
    assert cs[..i + 1][..i] == cs[..i];
  }

  /** After the pass over class AssetClasses[ci], that class's assets are
      as in the full reallocation. */
  lemma StageDone(ts: seq<string>, m: map<string, Asset>, mode: Allocation,
                  inputs: map<string, real>, totalValue: real, ci: nat)
    requires (forall t :: t in m ==> t in inputs) && ci < |AssetClasses|
    ensures
      var s := Stages(AssetClasses[..ci], m, mode, inputs, totalValue);
      var c := AssetClasses[ci];
      var r := ReallocatedAll(m, mode, inputs, totalValue);
      Stages(AssetClasses[..ci + 1], m, mode, inputs, totalValue) ==
        ReallocatedClass(s, c, mode, inputs, totalValue) &&
      ClassTotal(ts, ReallocatedClass(s, c, mode, inputs, totalValue), c, Weight) ==
        ClassTotal(ts, r, c, Weight) &&
      ClassTotal(ts, ReallocatedClass(s, c, mode, inputs, totalValue), c, Value) ==
        ClassTotal(ts, r, c, Value)
  {
    var s := Stages(AssetClasses[..ci], m, mode, inputs, totalValue);
    var c := AssetClasses[ci];
    var r := ReallocatedAll(m, mode, inputs, totalValue);
    var next := ReallocatedClass(s, c, mode, inputs, totalValue);
    StagesSnoc(AssetClasses, m, mode, inputs, totalValue, ci);
    ReallocatedAllClasses(m, mode, inputs, totalValue);
    StagesValue(AssetClasses[..ci + 1], m, mode, inputs, totalValue);
    forall t | t in next
      ensures next[t].assetClass == r[t].assetClass
      ensures next[t].assetClass == c ==> next[t] == r[t]
    {
      assert c in AssetClasses[..ci + 1];
    }
    ClassTotalAgree(ts, next, r, c, Weight);
    ClassTotalAgree(ts, next, r, c, Value);
  }

  /** An asset divided through by the total weight w, its value following
      the new weight. */
  function Rescaled(a: Asset, w: real, totalValue: real): Asset
    requires w != 0.0
  {
    var weight := a.weight / w;
    Asset(a.assetClass, a.assetType, weight, weight * totalValue)
  }

  function RescaledAll(m: map<string, Asset>, w: real, totalValue: real): (r: map<string, Asset>)
    requires w != 0.0
    ensures r.Keys == m.Keys
  {
    map t | t in m :: Rescaled(m[t], w, totalValue)
  }

  /** The assets after the normalisation loop has visited the tickers ts. */
  function RescaledSome(ts: seq<string>, m: map<string, Asset>, w: real, totalValue: real)
    : (r: map<string, Asset>)
    requires w != 0.0
    ensures r.Keys == m.Keys
  {
    if |ts| == 0 then m
    else
      var prev := RescaledSome(ts[..|ts| - 1], m, w, totalValue);
      var t := ts[|ts| - 1];
      if t in m then prev[t := Rescaled(m[t], w, totalValue)] else prev
  }

  lemma {:induction false} RescaledSomeValue(ts: seq<string>, m: map<string, Asset>, w: real,
                                             totalValue: real)
    requires w != 0.0
    ensures forall u :: u in m ==>
      RescaledSome(ts, m, w, totalValue)[u] == if u in ts then Rescaled(m[u], w, totalValue) else m[u]
  {
    if |ts| > 0 {
      var init := ts[..|ts| - 1];
      RescaledSomeValue(init, m, w, totalValue);
      assert ts == init + [ts[|ts| - 1]];
    }
  }

  /** One step of the normalisation loop: the ticker ts[j] is visited for
      the first time. */
  lemma RescaledSomeStep(ts: seq<string>, m: map<string, Asset>, w: real, totalValue: real, j: nat)
    requires Keyed(ts, m) && w != 0.0 && j < |ts|
    ensures ts[j] in m
    ensures RescaledSome(ts[..j], m, w, totalValue)[ts[j]] == m[ts[j]]
    ensures RescaledSome(ts[..j + 1], m, w, totalValue) ==
      RescaledSome(ts[..j], m, w, totalValue)[ts[j] := Rescaled(m[ts[j]], w, totalValue)]
  {
    HoldingsCovers(ts, m);
    assert ts[..j + 1][..j] == ts[..j];
    assert ts[j] !in ts[..j];
    RescaledSomeValue(ts[..j], m, w, totalValue);
  }

  lemma RescaledSomeComplete(ts: seq<string>, m: map<string, Asset>, w: real, totalValue: real)
    requires Keyed(ts, m) && w != 0.0
    ensures RescaledSome(ts, m, w, totalValue) == RescaledAll(m, w, totalValue)
  {
    ElemsMembers(ts);
    RescaledSomeValue(ts, m, w, totalValue);
  }

  /** After normalisation every value is again its weight's share. */
  lemma RescaledProportional(m: map<string, Asset>, w: real, totalValue: real)
    requires w != 0.0
    ensures Proportional(RescaledAll(m, w, totalValue), totalValue)
  {
  }

  /** Dividing weights in [0, 1] by w > 1 keeps them in [0, 1]. */
  lemma RescaledInRanges(m: map<string, Asset>, w: real, totalValue: real)
    requires InRanges(m) && w > 1.0 && totalValue >= 0.0
    ensures InRanges(RescaledAll(m, w, totalValue))
  {
    forall t | t in m
      ensures 0.0 <= RescaledAll(m, w, totalValue)[t].weight <= 1.0
      ensures RescaledAll(m, w, totalValue)[t].value >= 0.0
    {
      DivUnit(m[t].weight, w);
      Stats.MulNonneg(m[t].weight / w, totalValue);
    }
  }

  /** Dividing every weight by w divides the total weight by w. */
  lemma {:induction false} RescaledTotal(ts: seq<string>, m: map<string, Asset>, w: real,
                                         totalValue: real)
    requires w != 0.0
    ensures Total(ts, RescaledAll(m, w, totalValue), Weight) == Total(ts, m, Weight) / w
  {
    var r := RescaledAll(m, w, totalValue);
    if |ts| > 0 {
      var init := ts[..|ts| - 1];
      RescaledTotal(init, m, w, totalValue);
      var t := ts[|ts| - 1];
      if t in m {
        assert r[t].weight == m[t].weight / w;
        DivAdd(Total(init, m, Weight), m[t].weight, w);
      }
    }
  }

  lemma DivAdd(a: real, b: real, w: real)
    requires w != 0.0
    ensures a / w + b / w == (a + b) / w
  {
  }

  /** Normalising by a total weight over 1 makes the weights add up to 1. */
  lemma RescaledSumsToOne(ts: seq<string>, m: map<string, Asset>, w: real, totalValue: real)
    requires w > 1.0 && w == Total(ts, m, Weight)
    ensures Total(ts, RescaledAll(m, w, totalValue), Weight) == 1.0
  {
    RescaledTotal(ts, m, w, totalValue);
  }

  // ---------------------------------------------------------------------
  // The portfolio

  /** A ticker as add_asset stores it: non-empty, with no lower-case
      letter. */
  predicate IsTicker(t: string)
  {
    t != "" && forall i :: 0 <= i < |t| ==> !('a' <= t[i] <= 'z')
  }

  /** Every non-empty upper-cased string is a ticker. */
  lemma UpperIsTicker(s: string)
    requires s != ""
    ensures IsTicker(Upper(s))
  {
  }

  /** The tickers list every held asset once, each non-empty and upper case. */
  predicate Holdings(ts: seq<string>, m: map<string, Asset>)
  {
    Keyed(ts, m) && forall t :: t in m ==> IsTicker(t)
  }

  /** The tickers of a holding are exactly the keys. */
  lemma HoldingsCovers(ts: seq<string>, m: map<string, Asset>)
    requires m.Keys == Elems(ts)
    ensures Covers(ts, m)
  {
    ElemsMembers(ts);
  }

  /** Every weight lies in [0, 1] and every value is non-negative. */
  predicate InRanges(m: map<string, Asset>)
  {
    forall t :: t in m ==> 0.0 <= m[t].weight <= 1.0 && m[t].value >= 0.0
  }

  lemma HoldingsSameKeys(ts: seq<string>, m0: map<string, Asset>, m1: map<string, Asset>)
    requires Holdings(ts, m0) && m1.Keys == m0.Keys
    ensures Holdings(ts, m1)
  {
  }

  // ---------------------------------------------------------------------
  // The loops of the composition panel, on the portfolio's contents

  /** The inner allocation loop for class c: the tickers in insertion order,
      each asset of class c taking the value its widget reads, and the
      class's new weights and values added up. */
  method AllocateClassPass(ts: seq<string>, m: map<string, Asset>, c: AssetClass, mode: Allocation,
                           inputs: map<string, real>, totalValue: real)
    returns (held: map<string, Asset>, w: real, v: real)
    requires Keyed(ts, m) && forall t :: t in m ==> t in inputs
    ensures held == ReallocatedClass(m, c, mode, inputs, totalValue)
    ensures w == ClassTotal(ts, held, c, Weight)
    ensures v == ClassTotal(ts, held, c, Value)
  {
    ghost var rc := ReallocatedClass(m, c, mode, inputs, totalValue);
    HoldingsCovers(ts, m);
    held := m;
    w := 0.0;
    v := 0.0;
    var j := 0;
    while j < |ts|
      invariant 0 <= j <= |ts|
      invariant held == Pass(ts[..j], m, c, mode, inputs, totalValue)
      invariant w == ClassTotal(ts[..j], rc, c, Weight)
      invariant v == ClassTotal(ts[..j], rc, c, Value)
    {
      var t := ts[j];
      PassStep(ts, m, c, mode, inputs, totalValue, j);
      if held[t].assetClass == c {
        var a := Reallocated(held[t], mode, inputs[t], totalValue);
        held := held[t := a];
        w := w + a.weight;
        v := v + a.value;
      }
      j := j + 1;
    }
    assert ts[..|ts|] == ts;
    PassComplete(ts, m, c, mode, inputs, totalValue);
  }

  /** The outer allocation loop: class by class in the order of
      AssetClasses, each class total taken when its class comes up (so from
      the assets as they were, since a class's assets change only in its own
      pass), then the class's assets reallocated and its new weights and
      values added to the running totals. */
  method AllocatePass(ts: seq<string>, m: map<string, Asset>, mode: Allocation,
                      inputs: map<string, real>, totalValue: real)
    returns (held: map<string, Asset>, totalWeight: real, totalVal: real,
             classWeights: seq<real>, classValues: seq<real>)
    requires Keyed(ts, m) && forall t :: t in m ==> t in inputs
    ensures held == ReallocatedAll(m, mode, inputs, totalValue)
    ensures totalWeight == Total(ts, held, Weight)
    ensures totalVal == Total(ts, held, Value)
    ensures classWeights == ClassTotals(AssetClasses, ts, m, Weight)
    ensures classValues == ClassTotals(AssetClasses, ts, m, Value)
  {
    ghost var r := ReallocatedAll(m, mode, inputs, totalValue);
    held := m;
    totalWeight := 0.0;
    totalVal := 0.0;
    classWeights := [];
    classValues := [];
    var ci := 0;
    while ci < |AssetClasses|
      invariant 0 <= ci <= |AssetClasses|
      invariant held == Stages(AssetClasses[..ci], m, mode, inputs, totalValue)
      invariant totalWeight == ClassesTotal(AssetClasses[..ci], ts, r, Weight)
      invariant totalVal == ClassesTotal(AssetClasses[..ci], ts, r, Value)
      invariant classWeights == ClassTotals(AssetClasses[..ci], ts, m, Weight)
      invariant classValues == ClassTotals(AssetClasses[..ci], ts, m, Value)
    {
      var c := AssetClasses[ci];
      ClassesStep(ts, m, r, ci);
      StageUntouched(ts, m, mode, inputs, totalValue, ci);
      StageDone(ts, m, mode, inputs, totalValue, ci);
      classWeights := classWeights + [ClassTotal(ts, held, c, Weight)];
      classValues := classValues + [ClassTotal(ts, held, c, Value)];
      assert Keyed(ts, held);
      var w, v;
      held, w, v := AllocateClassPass(ts, held, c, mode, inputs, totalValue);
      totalWeight := totalWeight + w;
      totalVal := totalVal + v;
      ci := ci + 1;
    }
    assert AssetClasses[..|AssetClasses|] == AssetClasses;
    StagesComplete(m, mode, inputs, totalValue);
    ClassTotalsAddUp(ts, r, Weight);
    ClassTotalsAddUp(ts, r, Value);
  }

  /** The normalisation loop: every asset's weight divided by w > 1, its
      value following the new weight. */
  method RescalePass(ts: seq<string>, m: map<string, Asset>, w: real, totalValue: real)
    returns (held: map<string, Asset>)
    requires Keyed(ts, m) && w > 1.0
    ensures held == RescaledAll(m, w, totalValue)
  {
    ghost var r := RescaledAll(m, w, totalValue);
    HoldingsCovers(ts, m);
    held := m;
    var j := 0;
    while j < |ts|
      invariant 0 <= j <= |ts|
      invariant held == RescaledSome(ts[..j], m, w, totalValue)
    {
      var t := ts[j];
      RescaledSomeStep(ts, m, w, totalValue, j);
      held := held[t := Rescaled(held[t], w, totalValue)];
      j := j + 1;
    }
    assert ts[..|ts|] == ts;
    RescaledSomeComplete(ts, m, w, totalValue);
  }

  /** The outcome of add_asset, as the message it shows. */
  datatype AddOutcome = Added(ticker: string) | AlreadyPresent(ticker: string) | NoTicker

  class Portfolio {
    /** The tickers held, in the order they were added (the dictionary's
        iteration order). */
    var tickers: seq<string>
    var assets: map<string, Asset>
    var totalValue: real

    /** Tickers are distinct, non-empty and upper case; the weights lie in
        [0, 1], the values and the total value are non-negative. */
    predicate Valid()
      reads this
    {
      Holdings(tickers, assets) && InRanges(assets) && totalValue >= 0.0
    }

    /** An empty portfolio of $100,000. */
    constructor ()
      ensures Valid()
      ensures tickers == [] && assets == map[] && totalValue == 100000.0
    {
      tickers := [];
      assets := map[];
      totalValue := 100000.0;
    }

    /** Every held asset is listed among the tickers, and every listed
        ticker is held. */
    lemma CoversTickers()
      requires Valid()
      ensures forall t :: t in assets ==> t in tickers
      ensures Covers(tickers, assets)
    {
      ElemsMembers(tickers);
      HoldingsCovers(tickers, assets);
    }

    /** The total value input, which accepts no negative amount. */
    method SetTotalValue(v: real)
      requires Valid() && v >= 0.0
      modifies this
      ensures Valid()
      ensures totalValue == v && tickers == old(tickers) && assets == old(assets)
    {
      totalValue := v;
    }

    /** add_asset: the ticker is upper-cased; a new, non-empty ticker is
        added with weight and value 0, anything else changes nothing. */
    method AddAsset(assetClass: AssetClass, assetType: string, raw: string)
      returns (outcome: AddOutcome)
      requires Valid()
      modifies this
      ensures Valid()
      ensures outcome ==
        if Upper(raw) == "" then NoTicker
        else if Upper(raw) in old(assets) then AlreadyPresent(Upper(raw))
        else Added(Upper(raw))
      ensures outcome.Added? ==>
        assets == old(assets)[Upper(raw) := Asset(assetClass, assetType, 0.0, 0.0)] &&
        tickers == old(tickers) + [Upper(raw)]
      ensures !outcome.Added? ==> assets == old(assets) && tickers == old(tickers)
      ensures totalValue == old(totalValue)
    {
      var t := Upper(raw);
      UpperIdempotent(raw);
      if raw != "" {
        UpperIsTicker(raw);
      }
      if t != "" && t !in assets {
        assets := assets[t := Asset(assetClass, assetType, 0.0, 0.0)];
        tickers := tickers + [t];
        outcome := Added(t);
        assert forall i :: 0 <= i < |tickers| - 1 ==> tickers[i] == old(tickers)[i];
        assert tickers[..|tickers| - 1] == old(tickers);
        HoldingsCovers(old(tickers), old(assets));
      } else if t in assets {
        outcome := AlreadyPresent(t);
      } else {
        outcome := NoTicker;
      }
    }

    /** delete_asset: removes the ticker if it is held, leaving every other
        asset and the order of the rest as they were. */
    method DeleteAsset(t: string) returns (removed: bool)
      requires Valid()
      modifies this
      ensures Valid()
      ensures removed == (t in old(assets))
      ensures assets == old(assets) - {t}
      ensures removed ==> tickers == Without(old(tickers), t)
      ensures !removed ==> tickers == old(tickers)
      ensures totalValue == old(totalValue)
    {
      removed := t in assets;
      if removed {
        assets := assets - {t};
        tickers := Without(tickers, t);
      }
    }

    /** The allocation loop over the held assets (see AllocatePass). */
    method Allocate(mode: Allocation, inputs: map<string, real>)
      returns (totalWeight: real, totalVal: real, classWeights: seq<real>, classValues: seq<real>)
      requires Valid()
      requires forall t :: t in assets ==> t in inputs && InRange(mode, inputs[t], totalValue)
      modifies this
      ensures Valid()
      ensures tickers == old(tickers) && totalValue == old(totalValue)
      ensures assets == ReallocatedAll(old(assets), mode, inputs, totalValue)
      ensures totalWeight == Total(tickers, assets, Weight)
      ensures totalVal == Total(tickers, assets, Value)
      ensures Proportional(assets, totalValue)
      ensures |classWeights| == |AssetClasses| == |classValues|
      ensures forall k :: 0 <= k < |AssetClasses| ==>
        classWeights[k] == ClassTotal(tickers, old(assets), AssetClasses[k], Weight) &&
        classValues[k] == ClassTotal(tickers, old(assets), AssetClasses[k], Value)
    {
      ReallocatedAllSound(assets, mode, inputs, totalValue);
      HoldingsSameKeys(tickers, assets, ReallocatedAll(assets, mode, inputs, totalValue));
      assets, totalWeight, totalVal, classWeights, classValues :=
        AllocatePass(tickers, assets, mode, inputs, totalValue);
    }

    /** Normalisation: when the total weight exceeds 1, every asset's
        weight is divided by it and its value follows the new weight. */
    method NormalizeIfOver(totalWeight: real)
      requires Valid()
      modifies this
      ensures Valid()
      ensures tickers == old(tickers) && totalValue == old(totalValue)
      ensures totalWeight > 1.0 ==> assets == RescaledAll(old(assets), totalWeight, totalValue)
      ensures totalWeight <= 1.0 ==> assets == old(assets)
    {
      if totalWeight > 1.0 {
        RescaledInRanges(assets, totalWeight, totalValue);
        HoldingsSameKeys(tickers, assets, RescaledAll(assets, totalWeight, totalValue));
        assets := RescalePass(tickers, assets, totalWeight, totalValue);
      }
    }

    /** The composition panel after a rerun: the allocation loop, then the
        normalisation with the total weight it found. Afterwards the weights
        add up to at most 1 and every value is its weight's share of the
        total value. */
    method AllocationPanel(mode: Allocation, inputs: map<string, real>)
      returns (totalWeight: real, totalVal: real)
      requires Valid()
      requires forall t :: t in assets ==> t in inputs && InRange(mode, inputs[t], totalValue)
      modifies this
      ensures Valid()
      ensures tickers == old(tickers) && totalValue == old(totalValue)
      ensures totalWeight == Total(tickers, ReallocatedAll(old(assets), mode, inputs, totalValue), Weight)
      ensures assets ==
        var r := ReallocatedAll(old(assets), mode, inputs, totalValue);
        if totalWeight > 1.0 then RescaledAll(r, totalWeight, totalValue) else r
      ensures Total(tickers, assets, Weight) <= 1.0
      ensures totalWeight > 1.0 ==> Total(tickers, assets, Weight) == 1.0
      ensures Proportional(assets, totalValue)
    {
      var cw, cv;
      totalWeight, totalVal, cw, cv := Allocate(mode, inputs);
      ghost var r := assets;
      NormalizeIfOver(totalWeight);
      if totalWeight > 1.0 {
        RescaledSumsToOne(tickers, r, totalWeight, totalValue);
        RescaledProportional(r, totalWeight, totalValue);
      }
    }
  }
}
