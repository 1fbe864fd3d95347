/** The stores a designated initialiser compiles to, run on memory. */
module DesignatedStores {
  import opened Options
  import opened BitInt
  import opened Designated
  import opened DesignatedTheorem
  import opened DesignatedRuns
  import opened DesignatedAgreement

  /** Follow a chain from a pointer, one designator at a time. */
  method Arrive(dest: nat, t: Type, chain: seq<Designator>) returns (w: Spotted)
    requires Sound(t) && Reaches(t, chain)
    ensures w == Shift(Target(t, chain), dest)
  {
    w := Spotted(dest, t, None);
    for c := 0 to |chain|
      invariant Sound(w.ty) && Walk(w, chain[c..]) == Walk(Spotted(dest, t, None), chain)
    {
      w := Step(w, chain[c]);
    }
    WalkShift(Spotted(0, t, None), dest, chain);
  }

  ghost function Object(cells: seq<Bits>, dest: nat, t: Type): seq<Bits>
    requires dest + Cells(t) <= |cells|
  {
    cells[dest..dest + Cells(t)]
  }

  /** All of memory after one element's store. */
  ghost function Updated(cells: seq<Bits>, dest: nat, t: Type, it: Item): seq<Bits>
    requires Sound(t) && dest + Cells(t) <= |cells|
  {
    if it.chain == [] || !Arrived(Target(t, it.chain), Object(cells, dest, t)) then cells
    else
      var at := dest + Target(t, it.chain).at;
      cells[at := Stored(cells[at], Target(t, it.chain), it)]
  }

  lemma ObjectStore(cells: seq<Bits>, dest: nat, t: Type, it: Item)
    requires Sound(t) && dest + Cells(t) <= |cells| && it.chain != []
      && Arrived(Target(t, it.chain), Object(cells, dest, t))
    ensures var after := Updated(cells, dest, t, it);
      && |after| == |cells| && Object(after, dest, t) == StoreAt(Object(cells, dest, t), Target(t, it.chain), it)
      && after[..dest] == cells[..dest] && after[dest + Cells(t)..] == cells[dest + Cells(t)..]
  {
    var w := Target(t, it.chain);
    var at := dest + w.at;
    assert Object(cells, dest, t)[w.at] == cells[at];
    hide Target, Cells, Sound, Stored;
    SetInWindow(cells, dest, Cells(t), w.at, Stored(cells[at], w, it));
  }

  lemma SetInWindow(cells: seq<Bits>, dest: nat, len: nat, at: nat, b: Bits)
    requires dest + len <= |cells| && at < len
    ensures var after := cells[dest + at := b];
      && after[dest..dest + len] == cells[dest..dest + len][at := b]
      && after[..dest] == cells[..dest] && after[dest + len..] == cells[dest + len..]
  {
  }

  /** Store one value where its chain leads. */
  method EmitOne(mem: array<Bits>, dest: nat, t: Type, it: Item)
    requires Sound(t) && Reaches(t, it.chain) && dest + Cells(t) <= mem.Length
    requires it.chain != [] && Arrived(Target(t, it.chain), Object(mem[..], dest, t))
    modifies mem
    ensures mem[..] == Updated(old(mem[..]), dest, t, it)
  {
    var w := Arrive(dest, t, it.chain);
    UpdatedIs(mem[..], dest, t, it, w);
    hide *;
    if w.bits.Some? {
      var (s, declared) := w.bits.value;
      mem[w.at] := BitField.Store(mem[w.at], s.offset, s.width, Cast(it, declared));
    } else {
      mem[w.at] := Cast(it, w.ty.width);
    }
  }

  lemma UpdatedIs(cells: seq<Bits>, dest: nat, t: Type, it: Item, w: Spotted)
    requires Sound(t) && Reaches(t, it.chain) && dest + Cells(t) <= |cells| && w == Shift(Target(t, it.chain), dest)
    requires it.chain != [] && Arrived(Target(t, it.chain), Object(cells, dest, t))
    ensures 0 <= w.at < |cells| && Object(cells, dest, t)[Target(t, it.chain).at] == cells[w.at]
    ensures match w.bits
      case None => w.ty.Scalar? && Updated(cells, dest, t, it) == cells[w.at := Cast(it, w.ty.width)]
      case Some((s, declared)) =>
        && s.offset + s.width <= |cells[w.at]|
        && Updated(cells, dest, t, it)
           == cells[w.at := BitField.Store(cells[w.at], s.offset, s.width, Cast(it, declared))]
  {
    hide Reaches, Sound, Cast, BitField.Store, Target;
  }

  /** The object holds what the run of `items` leaves, and the rest is as it was. */
  ghost predicate Emitted(was: seq<Bits>, cells: seq<Bits>, dest: nat, t: Type, items: seq<Item>)
    requires Sound(t) && Checked(t, items) && dest + Cells(t) <= |was| && Alike(Object(was, dest, t), Blank(t))
  {
    && |cells| == |was|
    && Object(cells, dest, t) == Run(t, Object(was, dest, t), items)
    && cells[..dest] == was[..dest] && cells[dest + Cells(t)..] == was[dest + Cells(t)..]
  }

  /** Emit the list into the object at `dest`. */
  method EmitDesignated(mem: array<Bits>, dest: nat, t: Type, items: seq<Item>)
    requires Sound(t) && Checked(t, items) && dest + Cells(t) <= mem.Length
    requires Alike(Object(mem[..], dest, t), Blank(t))
    modifies mem
    ensures Emitted(old(mem[..]), mem[..], dest, t, items)
  {
    ghost var was := mem[..];
    hide *;
    EmittedFirst(was, dest, t, items);
    for i := 0 to |items|
      invariant Checked(t, items[..i]) && Emitted(was, mem[..], dest, t, items[..i])
    {
      EmittedNext(was, mem[..], dest, t, items, i);
      if items[i].chain != [] {
        EmitOne(mem, dest, t, items[i]);
      }
    }
    assert items[..|items|] == items;
  }

  /** Emitted into zeroed memory, the list leaves the constant built for it exactly when
      every value fits the unit it goes to and no bit-field is given a bit that its last
      value clears. */
  lemma EmittedIsConstant(was: seq<Bits>, cells: seq<Bits>, dest: nat, t: Type, items: seq<Item>)
    requires Sound(t) && Checked(t, items) && dest + Cells(t) <= |was| && Object(was, dest, t) == Blank(t)
    requires Emitted(was, cells, dest, t, items)
    ensures Constant(t, items) == Some(Object(cells, dest, t)) <==> AllWide(t, items) && NothingCleared(t, items)
  {
    ConstantIsMemory(t, items);
  }

  lemma EmittedFirst(was: seq<Bits>, dest: nat, t: Type, items: seq<Item>)
    requires Sound(t) && Checked(t, items) && dest + Cells(t) <= |was| && Alike(Object(was, dest, t), Blank(t))
    ensures Checked(t, items[..0]) && Emitted(was, was, dest, t, items[..0])
  {
  }

  lemma EmittedNext(was: seq<Bits>, cells: seq<Bits>, dest: nat, t: Type, items: seq<Item>, i: nat)
    requires Sound(t) && Checked(t, items) && dest + Cells(t) <= |was| && Alike(Object(was, dest, t), Blank(t))
    requires i < |items| && Checked(t, items[..i]) && Emitted(was, cells, dest, t, items[..i])
    ensures |cells| == |was| && Checked(t, items[..i + 1])
    ensures Emitted(was, Updated(cells, dest, t, items[i]), dest, t, items[..i + 1])
    ensures items[i].chain == [] ==> Updated(cells, dest, t, items[i]) == cells
    ensures items[i].chain != [] ==>
      Reaches(t, items[i].chain) && Arrived(Target(t, items[i].chain), Object(cells, dest, t))
  {
    CheckedPrefix(t, items, i);
    hide Alike, Checked, Sound, Reaches, Target, Blank, Cells, Stored, Arrived;
    RunStep(t, Object(was, dest, t), items, i);
    hide Run, StoreAt, Object;
    if items[i].chain != [] { ObjectStore(cells, dest, t, items[i]); }
  }

  lemma CheckedPrefix(t: Type, items: seq<Item>, i: nat)
    requires Checked(t, items) && i < |items|
    ensures Checked(t, items[..i + 1]) && (items[i].chain == [] || Reaches(t, items[i].chain))
  {
  }

  lemma RunStep(t: Type, was: seq<Bits>, items: seq<Item>, i: nat)
    requires Sound(t) && Checked(t, items) && i < |items| && Alike(was, Blank(t))
    ensures var before, after := Run(t, was, items[..i]), Run(t, was, items[..i + 1]);
      if items[i].chain == [] then after == before
      else Arrived(Target(t, items[i].chain), before) && after == StoreAt(before, Target(t, items[i].chain), items[i])
  {
    assert items[..i + 1][..i] == items[..i];
    if items[i].chain != [] { ArrivedAlike(t, Run(t, was, items[..i]), items[i].chain); }
  }
}
