/** Field-aware copy and release of aggregates that hold owning strings. */
module StringAggregates {
  import opened Options
  import opened StringHeap

  /** A struct or class lists its own fields until its layout is materialised; from then on
      the list is what lies in memory, the base object first and padding included. */
  datatype Ty =
    | Scalar
    | Str
    | Struct(base: Option<Ty>, fields: Tys, materialised: bool)
    | Class(base: Option<Ty>, fields: Tys, materialised: bool)
    | Array(elem: Ty, size: nat)
    | Optional(elem: Ty)
    | Result(success: Ty, error: Ty)

  datatype Tys = Nil | Cons(head: Ty, tail: Tys)

  /** The memory of a value. Structs, classes and arrays are item lists, one item a slot. */
  datatype Val =
    | Num(n: int)
    | StrV(h: Header)
    | Items(vs: Vals)
    | Opt(valid: bool, v: Val)
    | Res(ok: bool, v: Val, e: Val)

  datatype Vals = None_ | More(head: Val, tail: Vals)

  function Repeat(t: Ty, n: nat): Tys {
    if n == 0 then Nil else Cons(t, Repeat(t, n - 1))
  }

  predicate Listed(t: Ty) {
    t.Struct? || t.Class? || t.Array?
  }

  /** The slots in memory: a base object comes first. */
  function Slots(t: Ty): Tys {
    match t
    case Struct(base, fields, m) => if base.Some? && !m then Cons(base.value, fields) else fields
    case Class(base, fields, m) => if base.Some? && !m then Cons(base.value, fields) else fields
    case Array(elem, size) => Repeat(elem, size)
    case _ => Nil
  }

  predicate Typed(v: Val, t: Ty)
    decreases v
  {
    match v
    case Num(_) => t.Scalar?
    case StrV(_) => t.Str?
    case Items(vs) => Listed(t) && TypedAll(vs, Slots(t))
    case Opt(_, x) => t.Optional? && Typed(x, t.elem)
    case Res(_, x, e) => t.Result? && Typed(x, t.success) && Typed(e, t.error)
  }

  predicate TypedAll(vs: Vals, ts: Tys)
    decreases vs
  {
    match vs
    case None_ => ts.Nil?
    case More(v, rest) => ts.Cons? && Typed(v, ts.head) && TypedAll(rest, ts.tail)
  }

  // ---- what the code generator looks at ----

  /** Whether the generator finds strings: in the listed fields of a struct, in those and the
      base of a class. */
  predicate HasString(t: Ty) {
    match t
    case Scalar => false
    case Str => true
    case Struct(_, fields, _) => AnyString(fields)
    case Class(base, fields, _) => AnyString(fields) || (base.Some? && HasString(base.value))
    case Array(elem, _) => HasString(elem)
    case Optional(elem) => HasString(elem)
    case Result(s, e) => HasString(s) || HasString(e)
  }

  predicate AnyString(ts: Tys) {
    ts.Cons? && (HasString(ts.head) || AnyString(ts.tail))
  }

  /** Is a base found to hold strings, and walked? A base is a record, never a string. */
  predicate BaseWalked(base: Ty) {
    HasString(base) && !base.Str?
  }

  // ---- release ----

  // Instructions emitted for a slot of another kind, or past the last slot, are illegal.

  function Release(h: Heap, v: Val, t: Ty): (Heap, Val)
    decreases v, 2
  {
    match t
    case Scalar => (h, v)
    case Str => if v.StrV? then (var (g, r) := Destroy(h, v.h); (g, StrV(r))) else (Fail(h), v)
    case _ => if HasString(t) then ReleaseAggregate(h, v, t) else (h, v)
  }

  function ReleaseAggregate(h: Heap, v: Val, t: Ty): (Heap, Val)
    decreases v, 1
  {
    match t
    case Scalar => (h, v)
    case Str => (h, v)
    case Struct(_, fields, _) => ReleaseSlots(h, v, fields)
    case Class(base, fields, _) =>
      if base.Some? then ReleaseDerived(h, v, base.value, fields) else ReleaseSlots(h, v, fields)
    case Array(elem, size) => ReleaseSlots(h, v, Repeat(elem, size))
    case Optional(elem) =>
      if !v.Opt? then (Fail(h), v)
      else if v.valid then (var (g, r) := Release(h, v.v, elem); (g, Opt(false, r)))
      else (h, Opt(false, v.v))
    case Result(s, e) =>
      if !v.Res? then (Fail(h), v)
      else if v.ok then (var (g, r) := Release(h, v.v, s); (g, Res(false, r, v.e)))
      else (var (g, r) := Release(h, v.e, e); (g, Res(false, v.v, r)))
  }

  function ReleaseSlots(h: Heap, v: Val, ts: Tys): (Heap, Val)
    decreases v, 0
  {
    if !v.Items? then (Fail(h), v)
    else
      var (g, rs) := ReleaseItems(h, v.vs, ts);
      (g, Items(rs))
  }

  function ReleaseBase(h: Heap, v: Val, base: Ty): (Heap, Val)
    decreases v, 2
  {
    if HasString(base) then ReleaseAggregate(h, v, base) else (h, v)
  }

  /** The first slot of a class with a base is released as the base, if strings are found
      there, and the fields from the second slot on. */
  function ReleaseDerived(h: Heap, v: Val, base: Ty, fields: Tys): (Heap, Val)
    decreases v, 0
  {
    if !v.Items? || v.vs.None_? then (Fail(h), v)
    else
      var (g, b) := ReleaseBase(h, v.vs.head, base);
      var (g1, rs) := ReleaseItems(g, v.vs.tail, fields);
      (g1, Items(More(b, rs)))
  }

  function ReleaseItems(h: Heap, vs: Vals, ts: Tys): (Heap, Vals)
    decreases vs, 0
  {
    if ts.Nil? then (h, vs)
    else if vs.None_? then (Fail(h), vs)
    else
      var (g, r) := Release(h, vs.head, ts.head);
      var (g1, rs) := ReleaseItems(g, vs.tail, ts.tail);
      (g1, More(r, rs))
  }

  // ---- copy and assignment ----

  /** One value: a string through the copy or assign helper, an aggregate in which strings are
      found slot by slot, anything else by a plain store. */
  function CopyValue(h: Heap, dst: Val, src: Val, t: Ty, assign: bool, c: Choice): (Heap, Val)
    decreases src, 2
  {
    match t
    case Scalar => (h, src)
    case Str =>
      if !src.StrV? || !dst.StrV? then (Fail(h), dst)
      else
        var (g, r) := if assign then Assign(h, dst.h, src.h, c) else Copy(h, ViewOf(src.h), c);
        (g, StrV(r))
    case _ => if HasString(t) then CopyAggregate(h, dst, src, t, assign, c) else (h, src)
  }

  function CopyAggregate(h: Heap, dst: Val, src: Val, t: Ty, assign: bool, c: Choice): (Heap, Val)
    decreases src, 1
  {
    match t
    case Scalar => (h, dst)
    case Str => (h, dst)
    case Struct(_, fields, _) => CopySlots(h, dst, src, fields, assign, c)
    case Class(base, fields, _) =>
      if base.Some? then CopyDerived(h, dst, src, base.value, fields, assign, c)
      else CopySlots(h, dst, src, fields, assign, c)
    case Array(elem, size) => CopySlots(h, dst, src, Repeat(elem, size), assign, c)
    case Optional(elem) =>
      if !dst.Opt? || !src.Opt? then (Fail(h), dst)
      else if src.valid then (var (g, r) := CopyValue(h, dst.v, src.v, elem, assign, c); (g, Opt(true, r)))
      else if dst.valid then (var (g, r) := Release(h, dst.v, elem); (g, Opt(false, r)))
      else (h, Opt(false, dst.v))
    case Result(s, e) =>
      if !dst.Res? || !src.Res? then (Fail(h), dst)
      else if src.ok then
        var (g, r) := CopyValue(h, dst.v, src.v, s, assign, c);
        if dst.ok then (g, Res(true, r, dst.e))
        else (var (g1, r1) := Release(g, dst.e, e); (g1, Res(true, r, r1)))
      else
        var (g, r) := CopyValue(h, dst.e, src.e, e, assign, c);
        if dst.ok then (var (g1, r1) := Release(g, dst.v, s); (g1, Res(false, r1, r)))
        else (g, Res(false, dst.v, r))
  }

  function CopySlots(h: Heap, dst: Val, src: Val, ts: Tys, assign: bool, c: Choice): (Heap, Val)
    decreases src, 0
  {
    if !dst.Items? || !src.Items? then (Fail(h), dst)
    else
      var (g, rs) := CopyItems(h, dst.vs, src.vs, ts, assign, c);
      (g, Items(rs))
  }

  /** A base in which no strings are found is not touched. */
  function CopyBase(h: Heap, dst: Val, src: Val, base: Ty, assign: bool, c: Choice): (Heap, Val)
    decreases src, 2
  {
    if HasString(base) then CopyAggregate(h, dst, src, base, assign, c) else (h, dst)
  }

  function CopyDerived(h: Heap, dst: Val, src: Val, base: Ty, fields: Tys, assign: bool, c: Choice): (Heap, Val)
    decreases src, 0
  {
    if !dst.Items? || !src.Items? || dst.vs.None_? || src.vs.None_? then (Fail(h), dst)
    else
      var (g, b) := CopyBase(h, dst.vs.head, src.vs.head, base, assign, c);
      var (g1, rs) := CopyItems(g, dst.vs.tail, src.vs.tail, fields, assign, c);
      (g1, Items(More(b, rs)))
  }

  /** Slots beyond the last type stay as they are. */
  function CopyItems(h: Heap, dsts: Vals, srcs: Vals, ts: Tys, assign: bool, c: Choice): (Heap, Vals)
    decreases srcs, 0
  {
    if ts.Nil? then (h, dsts)
    else if srcs.None_? || dsts.None_? then (Fail(h), dsts)
    else
      var (g, r) := CopyValue(h, dsts.head, srcs.head, ts.head, assign, c);
      var (g1, rs) := CopyItems(g, dsts.tail, srcs.tail, ts.tail, assign, c);
      (g1, More(r, rs))
  }

  // ---- what values hold ----

  function Ptrs(v: Val): set<nat> {
    match v
    case Num(_) => {}
    case StrV(h) => if h.ptr.Some? then {h.ptr.value} else {}
    case Items(vs) => AllPtrs(vs)
    case Opt(_, x) => Ptrs(x)
    case Res(_, x, e) => Ptrs(x) + Ptrs(e)
  }

  function AllPtrs(vs: Vals): set<nat> {
    match vs
    case None_ => {}
    case More(v, rest) => Ptrs(v) + AllPtrs(rest)
  }

  /** Every string slot is the null string. */
  predicate Nulls(v: Val) {
    match v
    case Num(_) => true
    case StrV(h) => h == NULL
    case Items(vs) => AllNulls(vs)
    case Opt(_, x) => Nulls(x)
    case Res(_, x, e) => Nulls(x) && Nulls(e)
  }

  predicate AllNulls(vs: Vals) {
    vs.More? ==> Nulls(vs.head) && AllNulls(vs.tail)
  }

  /** Every string slot owns a block of its own, and inactive slots hold null strings. */
  ghost predicate Good(h: Heap, v: Val) {
    match v
    case Num(_) => true
    case StrV(s) => Owns(h, s)
    case Items(vs) => AllGood(h, vs)
    case Opt(valid, x) => Good(h, x) && (!valid ==> Nulls(x))
    case Res(ok, x, e) => Good(h, x) && Good(h, e) && (if ok then Nulls(e) else Nulls(x))
  }

  ghost predicate AllGood(h: Heap, vs: Vals) {
    vs.More? ==> Good(h, vs.head) && AllGood(h, vs.tail) && Ptrs(vs.head) !! AllPtrs(vs.tail)
  }

  /** What can be read from a value: the text of strings, numbers, and only the active part
      of optionals and results. */
  datatype Content =
    | CNum(n: int)
    | CText(text: seq<Byte>)
    | CItems(items: seq<Content>)
    | CNone
    | CSome(c: Content)
    | COk(c: Content)
    | CErr(c: Content)

  ghost function Seen(h: Heap, v: Val): Content
    requires Good(h, v)
  {
    match v
    case Num(n) => CNum(n)
    case StrV(s) => CText(Text(h, s))
    case Items(vs) => CItems(AllSeen(h, vs))
    case Opt(valid, x) => if valid then CSome(Seen(h, x)) else CNone
    case Res(ok, x, e) => if ok then COk(Seen(h, x)) else CErr(Seen(h, e))
  }

  ghost function AllSeen(h: Heap, vs: Vals): seq<Content>
    requires AllGood(h, vs)
  {
    if vs.None_? then [] else [Seen(h, vs.head)] + AllSeen(h, vs.tail)
  }

  // ---- when the walk fits the memory ----

  /** What the generator walks over the slots for. */
  datatype Walk = Copying | Releasing

  /** Do values of the type hold what the walk must not miss? A release must reach all
      strings, a copy everything that can be seen. */
  predicate Holds(t: Ty, w: Walk) {
    match t
    case Scalar => w.Copying?
    case Str => true
    case Struct(base, fields, m) => (base.Some? && !m && Holds(base.value, w)) || AnyHolds(fields, w)
    case Class(base, fields, m) => (base.Some? && !m && Holds(base.value, w)) || AnyHolds(fields, w)
    case Array(elem, size) => size > 0 && Holds(elem, w)
    case Optional(elem) => w.Copying? || Holds(elem, w)
    case Result(s, e) => w.Copying? || Holds(s, w) || Holds(e, w)
  }

  predicate AnyHolds(ts: Tys, w: Walk) {
    ts.Cons? && (Holds(ts.head, w) || AnyHolds(ts.tail, w))
  }

  /** A walk at type t fits a slot of type u: what is left alone or stored plainly holds no
      strings, every slot walked fits the type it is walked with, and a slot left out holds
      nothing the walk must not miss. */
  predicate Fits(t: Ty, u: Ty, w: Walk)
    decreases t, 0
  {
    if !HasString(t) then !Holds(u, Releasing)
    else match t
      case Scalar => true
      case Str => u.Str?
      case Optional(e) => u.Optional? && Fits(e, u.elem, w)
      case Result(s, e) => u.Result? && Fits(s, u.success, w) && Fits(e, u.error, w)
      case Array(elem, n) => Listed(u) && FitsEach(elem, n, Slots(u), w)
      case Struct(_, fields, _) => Listed(u) && FitsAll(fields, Slots(u), w)
      case Class(base, fields, _) =>
        Listed(u) &&
        if base.None? then FitsAll(fields, Slots(u), w)
        else
          && Slots(u).Cons?
          && (if BaseWalked(base.value) then Fits(base.value, Slots(u).head, w) else !Holds(Slots(u).head, w))
          && FitsAll(fields, Slots(u).tail, w)
  }

  predicate FitsEach(t: Ty, n: nat, us: Tys, w: Walk)
    decreases t, 1 + n
  {
    if n == 0 then !AnyHolds(us, w) else us.Cons? && Fits(t, us.head, w) && FitsEach(t, n - 1, us.tail, w)
  }

  predicate FitsAll(ts: Tys, us: Tys, w: Walk)
    decreases ts, 0
  {
    if ts.Nil? then !AnyHolds(us, w) else us.Cons? && Fits(ts.head, us.head, w) && FitsAll(ts.tail, us.tail, w)
  }
}
