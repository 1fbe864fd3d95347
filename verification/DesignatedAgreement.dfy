/** When the constant of an initialiser list and the memory its stores leave are equal. */
module DesignatedAgreement {
  import opened Arith
  import opened Options
  import opened BitInt
  import opened Designated
  import opened DesignatedTheorem
  import opened DesignatedRuns

  /** The constant's scalars in memory order. */
  function Constant(t: Type, items: seq<Item>): Option<seq<Bits>>
    requires Sound(t)
  {
    var v := Build(t, items);
    if v == None then None else Some(Flatten(v.value))
  }

  /** The builder can widen every value to the unit it goes to. */
  ghost predicate AllWide(t: Type, items: seq<Item>)
    requires Sound(t)
  {
    forall i :: 0 <= i < |items| && items[i].chain != [] ==> Wide(Target(t, items[i].chain))
  }

  lemma AllWideInit(t: Type, items: seq<Item>)
    requires Sound(t) && items != []
    ensures var init, last := items[..|items| - 1], items[|items| - 1];
      AllWide(t, items) <==> AllWide(t, init) && (last.chain != [] ==> Wide(Target(t, last.chain)))
  {
    var init := items[..|items| - 1];
    assert forall i :: 0 <= i < |init| ==> init[i] == items[i];
  }

  function MergeAt(cells: seq<Bits>, w: Spotted, it: Item): (r: seq<Bits>)
    requires Arrived(w, cells)
    ensures Alike(r, cells)
  {
    cells[w.at := Merged(cells[w.at], w, it)]
  }

  /** There is a constant exactly if every value can be widened. */
  lemma {:induction false} ConstantExists(t: Type, items: seq<Item>)
    requires Sound(t) && Checked(t, items)
    ensures Constant(t, items).Some? <==> AllWide(t, items)
    ensures Constant(t, items).Some? ==> Alike(Constant(t, items).value, Blank(t))
  {
    if items != [] {
      var init, last := items[..|items| - 1], items[|items| - 1];
      AllWideInit(t, items);
      ConstantExists(t, init);
      if last.chain != [] && Build(t, init).Some? {
        PlaceIsUpdate(t, Build(t, init).value, last.chain, last);
      }
    }
  }

  lemma ConstantStep(t: Type, items: seq<Item>)
    requires Sound(t) && Checked(t, items) && AllWide(t, items)
    ensures Constant(t, items).Some? && Alike(Constant(t, items).value, Blank(t))
    ensures items == [] ==> Constant(t, items).value == Blank(t)
    ensures items != [] ==>
      var init, last := items[..|items| - 1], items[|items| - 1];
      && AllWide(t, init) && Constant(t, init).Some?
      && if last.chain == [] then Constant(t, items) == Constant(t, init)
         else (
           && Arrived(Target(t, last.chain), Constant(t, init).value)
           && Constant(t, items).value == MergeAt(Constant(t, init).value, Target(t, last.chain), last))
  {
    ConstantExists(t, items);
    if items != [] {
      var init, last := items[..|items| - 1], items[|items| - 1];
      AllWideInit(t, items);
      ConstantExists(t, init);
      if last.chain != [] {
        PlaceIsUpdate(t, Build(t, init).value, last.chain, last);
      }
    }
  }

  lemma AccumulateReads(acc: Bits, o: nat, width: nat, value: Bits, r: nat, n: nat)
    requires o + width <= |acc| && |value| <= |acc| && r + n <= |acc|
    ensures var after := ConstantUnits.Accumulate(acc, o, width, value).value;
      && after[o..o + width] == Or(acc[o..o + width], Fit(value, width))
      && (o + width <= r || r + n <= o ==> after[r..r + n] == acc[r..r + n])
  {
    var after := ConstantUnits.Accumulate(acc, o, width, value).value;
    ConstantUnits.AccumulateBits(acc, o, width, value);
    hide ConstantUnits.Accumulate, Fit;
    var mine := after[o..o + width];
    assert forall k :: 0 <= k < width ==> mine[k] == after[o + k];
  }

  lemma ReadMerged(cells: seq<Bits>, v: Spotted, w: Spotted, it: Item)
    requires Arrived(v, cells) && Arrived(w, cells) && Wide(w) && Alike(MergeAt(cells, w, it), cells)
    ensures v == w && v.bits == None ==> Read(MergeAt(cells, w, it), v) == Shown(v, it)
    ensures v == w && v.bits.Some? ==> Read(MergeAt(cells, w, it), v) == Or(Read(cells, v), Shown(v, it))
    ensures Disjoint(v, w) ==> Read(MergeAt(cells, w, it), v) == Read(cells, v)
  {
    hide ConstantUnits.Accumulate, Cast, Fit, Or;
    if v.at == w.at && w.bits.Some? && v.bits.Some? {
      var (s, declared) := w.bits.value;
      var r := v.bits.value.0;
      AccumulateReads(cells[w.at], s.offset, s.width, Cast(it, declared), r.offset, r.width);
    }
  }

  /** All values written to a path, OR-ed together. */
  function MergeAll(items: seq<Item>, p: seq<Designator>, w: Spotted): (r: Bits)
    requires w.bits.Some?
    ensures |r| == Width(w)
  {
    if items == [] then Zeros(Width(w))
    else
      var before, last := MergeAll(items[..|items| - 1], p, w), items[|items| - 1];
      if last.chain == p then Or(before, Shown(w, last)) else before
  }

  /** A digit of the merged values is set when it is set in one of them. */
  lemma {:induction false} MergedDigit(items: seq<Item>, p: seq<Designator>, w: Spotted, k: nat)
    requires w.bits.Some? && k < Width(w)
    ensures MergeAll(items, p, w)[k] <==> exists i :: 0 <= i < |items| && items[i].chain == p && Shown(w, items[i])[k]
  {
    if items != [] {
      var n := |items| - 1;
      MergedDigit(items[..n], p, w, k);
      assert forall i :: 0 <= i < n ==> items[..n][i] == items[i];
    }
  }

  lemma {:induction false} ConstantShows(t: Type, items: seq<Item>, p: seq<Designator>)
    requires Sound(t) && Checked(t, items) && AllWide(t, items) && p != [] && Reaches(t, p)
    ensures Constant(t, items).Some?
    ensures var w, cells := Target(t, p), Constant(t, items).value;
      && Arrived(w, cells)
      && Read(cells, w) ==
           if w.bits.Some? then MergeAll(items, p, w)
           else match Last(items, p) { case None => Zeros(Width(w)) case Some(it) => Shown(w, it) }
  {
    var w := Target(t, p);
    ConstantStep(t, items);
    ArrivedAlike(t, Constant(t, items).value, p);
    if items == [] {
      BlankIsZero(t);
    } else {
      var init, last := items[..|items| - 1], items[|items| - 1];
      ConstantShows(t, init, p);
      if last.chain != [] {
        if last.chain != p { ChainsApart(t, p, last.chain); }
        ReadMerged(Constant(t, init).value, w, Target(t, last.chain), last);
      }
    }
  }

  /** In the constant a scalar holds the number of the last element for it, modulo its width;
      a digit of a bit-field is set when it is set in one of the values for it. */
  lemma ConstantHolds(t: Type, items: seq<Item>, p: seq<Designator>)
    requires Sound(t) && Checked(t, items) && AllWide(t, items) && p != [] && Reaches(t, p)
    ensures Constant(t, items).Some?
    ensures var w, cells := Target(t, p), Constant(t, items).value;
      && Arrived(w, cells)
      && Read(cells, w) ==
           (if w.bits.Some? then MergeAll(items, p, w)
            else match Last(items, p) { case None => Zeros(Width(w)) case Some(it) => Shown(w, it) })
      && (w.bits.None? ==> ToNat(Read(cells, w)) == LastNumber(items, p) % Pow2(Digits(w)))
      && (w.bits.Some? ==>
            forall k :: 0 <= k < Width(w) ==>
              (Read(cells, w)[k] <==>
                 exists i :: 0 <= i < |items| && items[i].chain == p && Shown(w, items[i])[k]))
  {
    ConstantShows(t, items, p);
    var w := Target(t, p);
    if w.bits.None? {
      LastShown(items, p, w, Read(Constant(t, items).value, w));
    } else {
      forall k | 0 <= k < Width(w)
        ensures MergeAll(items, p, w)[k] <==>
          exists i :: 0 <= i < |items| && items[i].chain == p && Shown(w, items[i])[k]
      {
        MergedDigit(items, p, w, k);
      }
    }
  }

  // ---- bits nobody names ----

  ghost predicate Covers(w: Spotted, c: int, b: int) {
    w.at == c && match w.bits { case None => true case Some((s, _)) => s.offset <= b < s.offset + s.width }
  }

  ghost predicate Named(t: Type, items: seq<Item>, c: int, b: int)
    requires Sound(t)
  {
    exists i :: 0 <= i < |items| && items[i].chain != [] && Covers(Target(t, items[i].chain), c, b)
  }

  lemma {:induction false} UnnamedZero(t: Type, items: seq<Item>, c: nat, b: nat)
    requires Sound(t) && Checked(t, items) && AllWide(t, items) && !Named(t, items, c, b)
    requires c < |Blank(t)| && b < |Blank(t)[c]|
    ensures Constant(t, items).Some? && Alike(Constant(t, items).value, Blank(t))
    ensures !Constant(t, items).value[c][b] && !Run(t, Blank(t), items)[c][b]
  {
    ConstantStep(t, items);
    if items == [] {
      BlankIsZero(t);
      assert Blank(t)[c] == Zeros(|Blank(t)[c]|);
    } else {
      var init, last := items[..|items| - 1], items[|items| - 1];
      assert forall i :: 0 <= i < |init| ==> init[i] == items[i];
      assert !Named(t, init, c, b);
      UnnamedZero(t, init, c, b);
      if last.chain != [] {
        var w := Target(t, last.chain);
        assert !Covers(w, c, b);
        ArrivedAlike(t, Run(t, Blank(t), init), last.chain);
        ConstantStep(t, init);
        ArrivedAlike(t, Constant(t, init).value, last.chain);
        OutsideKept(Run(t, Blank(t), init), w, last, c, b);
        OutsideKept(Constant(t, init).value, w, last, c, b);
      }
    }
  }

  lemma OutsideKept(cells: seq<Bits>, w: Spotted, it: Item, c: nat, b: nat)
    requires Arrived(w, cells) && Wide(w) && c < |cells| && b < |cells[c]| && !Covers(w, c, b)
    requires Alike(StoreAt(cells, w, it), cells) && Alike(MergeAt(cells, w, it), cells)
    ensures StoreAt(cells, w, it)[c][b] == cells[c][b] && MergeAt(cells, w, it)[c][b] == cells[c][b]
  {
    if w.at == c {
      var (s, declared) := w.bits.value;
      BitField.StoreSplices(cells[c], s.offset, s.width, Cast(it, declared));
      hide Fit;
      assert [StoreAt(cells, w, it)[c][b]] == StoreAt(cells, w, it)[c][b..b + 1];
      SpliceReads(cells[c], s.offset, Fit(Cast(it, declared), s.width), b, 1);
      AccumulateReads(cells[c], s.offset, s.width, Cast(it, declared), b, 1);
      assert [MergeAt(cells, w, it)[c][b]] == MergeAt(cells, w, it)[c][b..b + 1];
      assert [cells[c][b]] == cells[c][b..b + 1];
    }
  }

  // ---- the condition ----

  ghost predicate Within(a: Bits, b: Bits) {
    |a| == |b| && forall k :: 0 <= k < |a| && a[k] ==> b[k]
  }

  /** No bit-field is given a bit that its last value clears. */
  ghost predicate NothingCleared(t: Type, items: seq<Item>)
    requires Sound(t)
  {
    forall i :: 0 <= i < |items| && items[i].chain != [] ==> NotCleared(items, i, Target(t, items[i].chain))
  }

  ghost predicate NotCleared(items: seq<Item>, i: nat, w: Spotted)
    requires i < |items|
  {
    w.bits.Some? ==>
      match Last(items, items[i].chain)
      case Some(last) => Within(Shown(w, items[i]), Shown(w, last))
      case None => false
  }

  lemma {:induction false} LastFound(items: seq<Item>, i: nat)
    requires i < |items|
    ensures Last(items, items[i].chain).Some?
  {
    if i < |items| - 1 {
      assert items[..|items| - 1][i] == items[i];
      LastFound(items[..|items| - 1], i);
    }
  }

  lemma {:induction false} MergeIncludes(items: seq<Item>, i: nat, w: Spotted)
    requires i < |items| && w.bits.Some?
    ensures Within(Shown(w, items[i]), MergeAll(items, items[i].chain, w))
  {
    var init := items[..|items| - 1];
    if i < |items| - 1 {
      assert init[i] == items[i];
      MergeIncludes(init, i, w);
    }
  }

  lemma {:induction false} MergeWithin(items: seq<Item>, p: seq<Designator>, w: Spotted, top: Bits)
    requires w.bits.Some? && |top| == Width(w)
    requires forall i :: 0 <= i < |items| && items[i].chain == p ==> Within(Shown(w, items[i]), top)
    ensures Within(MergeAll(items, p, w), top)
  {
    if items != [] {
      var init := items[..|items| - 1];
      assert forall i :: 0 <= i < |init| ==> init[i] == items[i];
      MergeWithin(init, p, w, top);
    }
  }

  lemma {:induction false} LastIsItem(items: seq<Item>, p: seq<Designator>) returns (i: nat)
    requires Last(items, p).Some?
    ensures i < |items| && items[i] == Last(items, p).value && items[i].chain == p
  {
    var n := |items| - 1;
    if items[n].chain == p { i := n; } else { i := LastIsItem(items[..n], p); }
  }

  lemma WithinBoth(a: Bits, b: Bits)
    requires Within(a, b) && Within(b, a)
    ensures a == b
  {
  }

  /** On the last value of a bit-field nothing is cleared exactly when OR-ing gave that value. */
  lemma MergedIsLast(items: seq<Item>, i: nat, w: Spotted)
    requires i < |items| && w.bits.Some?
    ensures Last(items, items[i].chain).Some?
    ensures (forall j :: 0 <= j < |items| && items[j].chain == items[i].chain ==> NotCleared(items, j, w))
        <==> MergeAll(items, items[i].chain, w) == Shown(w, Last(items, items[i].chain).value)
  {
    var p := items[i].chain;
    LastFound(items, i);
    var last := Last(items, p).value;
    if forall j :: 0 <= j < |items| && items[j].chain == p ==> NotCleared(items, j, w) {
      assert forall j :: 0 <= j < |items| && items[j].chain == p ==>
        NotCleared(items, j, w) && Within(Shown(w, items[j]), Shown(w, last));
      MergeWithin(items, p, w, Shown(w, last));
      var l := LastIsItem(items, p);
      MergeIncludes(items, l, w);
      WithinBoth(MergeAll(items, p, w), Shown(w, last));
    }
    if MergeAll(items, p, w) == Shown(w, last) {
      forall j | 0 <= j < |items| && items[j].chain == p ensures NotCleared(items, j, w) {
        MergeIncludes(items, j, w);
      }
    }
  }

  /** There is a constant and it is the memory exactly when every value fits the unit it
      goes to and no bit-field is given a bit that its last value clears; scalars may be
      overwritten freely. */
  lemma ConstantIsMemory(t: Type, items: seq<Item>)
    requires Sound(t) && Checked(t, items)
    ensures Constant(t, items) == Some(Run(t, Blank(t), items)) <==> AllWide(t, items) && NothingCleared(t, items)
  {
    ConstantExists(t, items);
    if AllWide(t, items) {
      if NothingCleared(t, items) { EqualIfNothingCleared(t, items); }
      if Constant(t, items).value == Run(t, Blank(t), items) {
        forall i | 0 <= i < |items| && items[i].chain != [] ensures NotCleared(items, i, Target(t, items[i].chain)) {
          var w := Target(t, items[i].chain);
          if w.bits.Some? {
            PathsAgree(t, items, i);
            MergedIsLast(items, i, w);
          }
        }
      }
    }
  }

  lemma PathsAgree(t: Type, items: seq<Item>, i: nat)
    requires Sound(t) && Checked(t, items) && AllWide(t, items) && i < |items| && items[i].chain != []
    ensures Constant(t, items).Some?
    ensures var w, p := Target(t, items[i].chain), items[i].chain;
      && Arrived(w, Constant(t, items).value) && Arrived(w, Run(t, Blank(t), items)) && Last(items, p).Some?
      && (Read(Constant(t, items).value, w) == Read(Run(t, Blank(t), items), w)
          <==> (w.bits.Some? ==> MergeAll(items, p, w) == Shown(w, Last(items, p).value)))
  {
    LastFound(items, i);
    ConstantHolds(t, items, items[i].chain);
    MemoryHoldsLast(t, items, items[i].chain);
  }

  lemma EqualIfNothingCleared(t: Type, items: seq<Item>)
    requires Sound(t) && Checked(t, items) && AllWide(t, items) && NothingCleared(t, items)
    ensures Constant(t, items) == Some(Run(t, Blank(t), items))
  {
    ConstantStep(t, items);
    var a, m := Constant(t, items).value, Run(t, Blank(t), items);
    forall c | 0 <= c < |a| ensures a[c] == m[c] {
      forall b | 0 <= b < |a[c]| ensures a[c][b] == m[c][b] {
        if Named(t, items, c, b) {
          var i :| 0 <= i < |items| && items[i].chain != [] && Covers(Target(t, items[i].chain), c, b);
          NamedAgrees(t, items, i, c, b);
        } else {
          UnnamedZero(t, items, c, b);
        }
      }
    }
    assert a == m;
  }

  lemma NamedAgrees(t: Type, items: seq<Item>, i: nat, c: nat, b: nat)
    requires Sound(t) && Checked(t, items) && AllWide(t, items) && NothingCleared(t, items) && i < |items|
      && items[i].chain != []
    requires Covers(Target(t, items[i].chain), c, b)
    requires Constant(t, items).Some? && Alike(Constant(t, items).value, Blank(t)) && c < |Blank(t)|
      && b < |Blank(t)[c]|
    ensures Constant(t, items).value[c][b] == Run(t, Blank(t), items)[c][b]
  {
    var a, m, w := Constant(t, items).value, Run(t, Blank(t), items), Target(t, items[i].chain);
    assert NotCleared(items, i, w);
    PathsAgree(t, items, i);
    hide Covers, Read, Arrived, Shown, Constant, Run, Target, Reaches;
    if w.bits.Some? {
      assert forall j :: 0 <= j < |items| && items[j].chain == items[i].chain ==> NotCleared(items, j, w);
      MergedIsLast(items, i, w);
    }
    SameReadSameBit(a, m, w, c, b);
  }

  lemma SameReadSameBit(a: seq<Bits>, m: seq<Bits>, w: Spotted, c: nat, b: nat)
    requires Arrived(w, a) && Arrived(w, m) && Read(a, w) == Read(m, w) && Covers(w, c, b)
    requires c < |a| && c < |m| && b < |a[c]| && b < |m[c]|
    ensures a[c][b] == m[c][b]
  {
    if w.bits.Some? {
      var s := w.bits.value.0;
      assert a[c][b] == Read(a, w)[b - s.offset] && m[c][b] == Read(m, w)[b - s.offset];
    }
  }

  // ---- an input on which they differ ----

  /** struct { int32 a : 3; } */
  function OneField(): Type {
    Record(false, [Slot("", Scalar(32))], [BitMember("a", 32)], map["a" := Spot(0, 0, 3, 32)])
  }

  lemma OneFieldSound()
    ensures Sound(OneField()) && Reaches(OneField(), [Field("a")])
    ensures Target(OneField(), [Field("a")]) == Spotted(0, OneField(), Some((Spot(0, 0, 3, 32), 32)))
  {
    var t := OneField();
    forall n ensures Own(t, n) == if n == "a" then InUnit(Spot(0, 0, 3, 32), 32) else Absent {
      assert t.named[1..] == [];
    }
    WalkOne(Spotted(0, t, None), [Field("a")]);
  }

  /** { .a = 1, .a = 2 } leaves 2 in memory but is not 2 as a constant. */
  lemma DesignatedTwice(one: Bits, two: Bits)
    requires |one| == |two| == 32 && one[..2] == [true, false] && two[..2] == [false, true]
    ensures var t, p := OneField(), [Field("a")]; var items := [Item(p, one, true), Item(p, two, true)];
      && Sound(t) && Checked(t, items) && AllWide(t, items)
      && Constant(t, items) != Some(Run(t, Blank(t), items))
  {
    var t, p := OneField(), [Field("a")];
    var items := [Item(p, one, true), Item(p, two, true)];
    OneFieldSound();
    hide Sound, Reaches, Target, OneField;
    assert Last(items, p) == Some(items[1]);
    var w := Target(t, p);
    assert Shown(w, items[0])[0] == one[0] == one[..2][0] && Shown(w, items[1])[0] == two[0] == two[..2][0];
    assert !Within(Shown(w, items[0]), Shown(w, items[1]));
    assert !NotCleared(items, 0, w);
    ConstantIsMemory(t, items);
  }
}
