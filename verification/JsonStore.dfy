/** Objects and arrays written in place: `setJsonPathValue` walks references and
    assigns properties. Objects and arrays are cells of a store; a property holds a
    reference to a cell, or a value that has no cell of its own: a scalar, or an
    array that is only passed around. */
module JsonStore {
  import opened JsonPath
  import opened SessionCookie

  datatype Property = Leaf(j: Json) | Ref(addr: nat)

  datatype Cell = Object(props: map<string, Property>) | Array(elems: seq<Property>, props: map<string, Property>)

  type Cells = seq<Cell>

  // ----- the properties of a value and of a cell

  datatype Key = Name(s: string) | At(i: nat)

  predicate HasKey(j: Json, key: Key) {
    match key
    case Name(s) => (j.Obj? && s in j.fields) || (j.Arr? && s in j.named)
    case At(i) => j.Arr? && i < |j.elems|
  }

  function Kid(j: Json, key: Key): (r: Json)
    requires HasKey(j, key)
    ensures r < j
  {
    match key
    case Name(s) => if j.Obj? then j.fields[s] else j.named[s]
    case At(i) => j.elems[i]
  }

  predicate HasProp(c: Cell, key: Key) {
    match key
    case Name(s) => s in c.props
    case At(i) => c.Array? && i < |c.elems|
  }

  function Prop(c: Cell, key: Key): Property
    requires HasProp(c, key)
  {
    match key
    case Name(s) => c.props[s]
    case At(i) => c.elems[i]
  }

  function KeyFor(isArray: bool, part: string): Key {
    if isArray && Index(part).Some? then At(Index(part).value) else Name(part)
  }

  function SetProp(c: Cell, key: Key, p: Property): Cell
    requires key.At? ==> c.Array?
  {
    match key
    case Name(s) => c.(props := c.props[s := p])
    case At(i) =>
      c.(elems := if i < |c.elems| then c.elems[i := p]
                  else c.elems + seq(i - |c.elems|, (k: nat) => Leaf(Null)) + [p])
  }

  ghost predicate SameShape(c: Cell, j: Json) {
    && (c.Object? <==> j.Obj?) && (c.Array? <==> j.Arr?)
    && forall key :: HasProp(c, key) <==> HasKey(j, key)
  }

  lemma ChildIsKid(j: Json, part: string)
    requires !IsLength(j, part)
    ensures Child(j, part) == if HasKey(j, KeyFor(j.Arr?, part)) then Kid(j, KeyFor(j.Arr?, part)) else Null
  {
  }

  /** An assignment to a cell keeps pace with the assignment to its value. */
  lemma SetBoth(c: Cell, j: Json, part: string, p: Property, v: Json)
    requires SameShape(c, j) && !IsLength(j, part)
    ensures var key := KeyFor(j.Arr?, part);
            var d, k := SetProp(c, key, p), SetChild(j, part, v);
            && SameShape(d, k) && HasKey(k, key) && Prop(d, key) == p && Kid(k, key) == v
            && (forall x :: HasKey(j, x) && x != key ==> HasKey(k, x) && Prop(d, x) == Prop(c, x) && Kid(k, x) == Kid(j, x))
            && (forall x :: HasKey(k, x) && !HasKey(j, x) && x != key ==> Prop(d, x) == Leaf(Null) && Kid(k, x) == Null)
  {
    var key := KeyFor(j.Arr?, part);
    var d, k := SetProp(c, key, p), SetChild(j, part, v);
    if j.Arr? {
      assert SameLength(c, j) by { ShapeHasLength(c, j); }
    }
    forall x ensures HasProp(d, x) <==> HasKey(k, x) {
      assert HasProp(c, x) <==> HasKey(j, x);
    }
  }

  predicate SameLength(c: Cell, j: Json) { c.Array? && j.Arr? && |c.elems| == |j.elems| }

  lemma ShapeHasLength(c: Cell, j: Json)
    requires SameShape(c, j) && j.Arr?
    ensures SameLength(c, j)
  {
    assert HasProp(c, At(|j.elems|)) <==> HasKey(j, At(|j.elems|));
    assert HasProp(c, At(|c.elems|)) <==> HasKey(j, At(|c.elems|));
  }

  // ----- values in the store

  /** Cell `x` belongs to the value `j` that the property holds. */
  ghost predicate InFoot(cells: Cells, p: Property, j: Json, x: nat)
    decreases j
  {
    p.Ref? && p.addr < |cells| &&
    (x == p.addr ||
     exists key :: HasKey(j, key) && HasProp(cells[p.addr], key) && InFoot(cells, Prop(cells[p.addr], key), Kid(j, key), x))
  }

  /** The property holds the value `j`, and no two properties in it share a cell. */
  ghost predicate Tree(cells: Cells, p: Property, j: Json)
    decreases j
  {
    match p
    case Leaf(x) => x == j && !j.Obj?
    case Ref(a) =>
      && a < |cells| && SameShape(cells[a], j)
      && (forall key :: HasKey(j, key) ==>
                          && Tree(cells, Prop(cells[a], key), Kid(j, key))
                          && !InFoot(cells, Prop(cells[a], key), Kid(j, key), a))
      && forall k, l, x: nat :: HasKey(j, k) && HasKey(j, l) && k != l && InFoot(cells, Prop(cells[a], k), Kid(j, k), x) ==>
                             !InFoot(cells, Prop(cells[a], l), Kid(j, l), x)
  }

  ghost predicate Apart(cells: Cells, p: Property, j: Json, q: Property, v: Json) {
    forall x: nat :: InFoot(cells, p, j, x) ==> !InFoot(cells, q, v, x)
  }

  lemma {:induction false} FootBounded(cells: Cells, p: Property, j: Json, x: nat)
    requires InFoot(cells, p, j, x)
    ensures x < |cells|
    decreases j
  {
    if x != p.addr {
      var key :| HasKey(j, key) && HasProp(cells[p.addr], key) && InFoot(cells, Prop(cells[p.addr], key), Kid(j, key), x);
      FootBounded(cells, Prop(cells[p.addr], key), Kid(j, key), x);
    }
  }

  ghost predicate Unchanged(cells: Cells, after: Cells, p: Property, j: Json) {
    |cells| <= |after| && forall x: nat :: x < |cells| && InFoot(cells, p, j, x) ==> after[x] == cells[x]
  }

  /** A value depends on nothing but its own cells. */
  lemma {:induction false} Frame(cells: Cells, after: Cells, p: Property, j: Json)
    requires Tree(cells, p, j) && Unchanged(cells, after, p, j)
    ensures Tree(after, p, j) && forall x: nat :: InFoot(after, p, j, x) <==> InFoot(cells, p, j, x)
    decreases j
  {
    if p.Ref? {
      var a := p.addr;
      assert InFoot(cells, p, j, a) && after[a] == cells[a];
      forall key | HasKey(j, key)
        ensures Tree(after, Prop(cells[a], key), Kid(j, key))
        ensures forall x: nat :: InFoot(after, Prop(cells[a], key), Kid(j, key), x) <==> InFoot(cells, Prop(cells[a], key), Kid(j, key), x)
      {
        KidUnchanged(cells, after, a, j, key);
        Frame(cells, after, Prop(cells[a], key), Kid(j, key));
      }
    }
  }

  lemma KidUnchanged(cells: Cells, after: Cells, a: nat, j: Json, key: Key)
    requires a < |cells| && HasKey(j, key) && HasProp(cells[a], key) && Unchanged(cells, after, Ref(a), j)
    ensures Unchanged(cells, after, Prop(cells[a], key), Kid(j, key))
  {
    forall x: nat | x < |cells| && InFoot(cells, Prop(cells[a], key), Kid(j, key), x) ensures after[x] == cells[x] {
      assert InFoot(cells, Ref(a), j, x);
    }
  }

  // ----- the assignment loop

  ghost predicate Addressed(cells: Cells) {
    forall a, key :: 0 <= a < |cells| && HasProp(cells[a], key) && Prop(cells[a], key).Ref? ==>
                       Prop(cells[a], key).addr < |cells|
  }

  predicate Points(cells: Cells, p: Property) { p.Ref? ==> p.addr < |cells| }

  lemma SetAddressed(cells: Cells, a: nat, key: Key, p: Property)
    requires Addressed(cells) && a < |cells| && Points(cells, p) && (key.At? ==> cells[a].Array?)
    ensures Addressed(cells[a := SetProp(cells[a], key, p)])
  {
    var c, d := cells[a], SetProp(cells[a], key, p);
    forall k | HasProp(d, k) && Prop(d, k).Ref? ensures Prop(d, k) == p || (HasProp(c, k) && Prop(c, k) == Prop(d, k)) {
    }
  }

  function WithChild(cells: Cells, a: nat, key: Key): (r: Cells)
    requires Addressed(cells) && a < |cells| && (key.At? ==> cells[a].Array?)
    ensures Addressed(r) && |r| == |cells| + 1
  {
    var more := cells + [Object(map[])];
    SetAddressed(more, a, key, Ref(|cells|));
    more[a := SetProp(more[a], key, Ref(|cells|))]
  }

  /** What the loop does to the cells from `a` on. */
  function Put(cells: Cells, a: nat, parts: seq<string>, p: Property): (r: Cells)
    requires Addressed(cells) && a < |cells| && parts != [] && Points(cells, p)
    ensures Addressed(r) && |r| >= |cells|
    decreases |parts|
  {
    var key := KeyFor(cells[a].Array?, parts[0]);
    if |parts| == 1 then
      SetAddressed(cells, a, key, p);
      cells[a := SetProp(cells[a], key, p)]
    else if HasProp(cells[a], key) && Prop(cells[a], key).Ref? then Put(cells, Prop(cells[a], key).addr, parts[1..], p)
    else Put(WithChild(cells, a, key), |cells|, parts[1..], p)
  }

  /** No object or array that the walk has to enter is one without a cell of its own. */
  ghost predicate Walks(cells: Cells, a: nat, j: Json, parts: seq<string>)
    requires Tree(cells, Ref(a), j)
    decreases |parts|
  {
    |parts| <= 1 ||
    var key := KeyFor(j.Arr?, parts[0]);
    HasKey(j, key) && (Kid(j, key).Obj? || Kid(j, key).Arr?) ==>
      Prop(cells[a], key).Ref? && Walks(cells, Prop(cells[a], key).addr, Kid(j, key), parts[1..])
  }

  /** The result of a write that replaces one property of a cell and leaves the rest. */
  ghost predicate Wrote(cells: Cells, after: Cells, a: nat, j: Json, p: Property, v: Json, k: Json) {
    && |cells| <= |after| && Tree(after, Ref(a), k)
    && (forall x: nat :: x < |cells| && !InFoot(cells, Ref(a), j, x) ==> after[x] == cells[x])
    && forall x: nat :: InFoot(after, Ref(a), k, x) ==>
                     InFoot(cells, Ref(a), j, x) || InFoot(cells, p, v, x) || |cells| <= x
  }

  lemma KidInFoot(cells: Cells, a: nat, j: Json, key: Key, x: nat)
    requires a < |cells| && HasKey(j, key) && HasProp(cells[a], key) && InFoot(cells, Prop(cells[a], key), Kid(j, key), x)
    ensures InFoot(cells, Ref(a), j, x)
  {
  }

  /** Cell `y` belongs to a property of the cell other than `key`. */
  ghost predicate InSibling(cells: Cells, a: nat, j: Json, key: Key, y: nat)
    requires a < |cells| && SameShape(cells[a], j)
  {
    exists x :: HasKey(j, x) && x != key && InFoot(cells, Prop(cells[a], x), Kid(j, x), y)
  }

  lemma SiblingInFoot(cells: Cells, a: nat, j: Json, key: Key, y: nat)
    requires Tree(cells, Ref(a), j) && InSibling(cells, a, j, key, y)
    ensures InFoot(cells, Ref(a), j, y) && y != a && y < |cells|
    ensures HasKey(j, key) ==> !InFoot(cells, Prop(cells[a], key), Kid(j, key), y)
  {
    var x :| HasKey(j, x) && x != key && InFoot(cells, Prop(cells[a], x), Kid(j, x), y);
    KidInFoot(cells, a, j, x, y);
    FootBounded(cells, Prop(cells[a], x), Kid(j, x), y);
  }

  /** A property other than the one that is written: as it was, or a hole. */
  ghost predicate Carried(cells: Cells, after: Cells, a: nat, j: Json, k: Json, x: Key)
    requires a < |cells| <= |after| && SameShape(cells[a], j) && SameShape(after[a], k) && HasKey(k, x)
  {
    if HasKey(j, x) then
      Prop(after[a], x) == Prop(cells[a], x) && Kid(k, x) == Kid(j, x) && Unchanged(cells, after, Prop(cells[a], x), Kid(j, x))
    else Prop(after[a], x) == Leaf(Null) && Kid(k, x) == Null
  }

  lemma CarriedTree(cells: Cells, after: Cells, a: nat, j: Json, k: Json, x: Key)
    requires a < |cells| <= |after| && Tree(cells, Ref(a), j) && SameShape(after[a], k) && HasKey(k, x)
    requires Carried(cells, after, a, j, k, x)
    ensures Tree(after, Prop(after[a], x), Kid(k, x))
    ensures forall y: nat :: InFoot(after, Prop(after[a], x), Kid(k, x), y) <==>
                             HasKey(j, x) && InFoot(cells, Prop(cells[a], x), Kid(j, x), y)
  {
    if HasKey(j, x) {
      Frame(cells, after, Prop(cells[a], x), Kid(j, x));
    }
  }

  /** A cell whose other properties are carried over holds the new value. */
  lemma Assembled(cells: Cells, after: Cells, a: nat, j: Json, k: Json, key: Key)
    requires a < |cells| <= |after| && Tree(cells, Ref(a), j) && SameShape(after[a], k) && HasKey(k, key)
    requires forall x :: HasKey(k, x) && x != key ==> Carried(cells, after, a, j, k, x)
    requires Tree(after, Prop(after[a], key), Kid(k, key))
    requires forall y: nat :: InFoot(after, Prop(after[a], key), Kid(k, key), y) ==> y != a && !InSibling(cells, a, j, key, y)
    ensures Tree(after, Ref(a), k)
    ensures forall y: nat :: InFoot(after, Ref(a), k, y) ==>
                               y == a || InFoot(after, Prop(after[a], key), Kid(k, key), y) || InSibling(cells, a, j, key, y)
  {
    forall x | HasKey(k, x) && x != key
      ensures Tree(after, Prop(after[a], x), Kid(k, x))
      ensures forall y: nat :: InFoot(after, Prop(after[a], x), Kid(k, x), y) <==>
                               HasKey(j, x) && InFoot(cells, Prop(cells[a], x), Kid(j, x), y)
    {
      CarriedTree(cells, after, a, j, k, x);
    }
    forall x, y: nat | HasKey(k, x) && x != key && InFoot(after, Prop(after[a], x), Kid(k, x), y)
      ensures InSibling(cells, a, j, key, y) && y != a
    {
      assert HasKey(j, x);
    }
  }

  /** The last assignment of the walk. */
  lemma SetWrites(cells: Cells, a: nat, j: Json, part: string, p: Property, v: Json)
    requires a < |cells| && Tree(cells, Ref(a), j) && Tree(cells, p, v) && Apart(cells, Ref(a), j, p, v)
    requires !IsLength(j, part)
    ensures var after := cells[a := SetProp(cells[a], KeyFor(j.Arr?, part), p)];
            Wrote(cells, after, a, j, p, v, SetChild(j, part, v))
  {
    var key, k := KeyFor(j.Arr?, part), SetChild(j, part, v);
    var after := cells[a := SetProp(cells[a], key, p)];
    SetBoth(cells[a], j, part, p, v);
    assert InFoot(cells, Ref(a), j, a) && !InFoot(cells, p, v, a);
    Frame(cells, after, p, v);
    forall y: nat | InSibling(cells, a, j, key, y) ensures InFoot(cells, Ref(a), j, y) && y != a {
      SiblingInFoot(cells, a, j, key, y);
    }
    Assembled(cells, after, a, j, k, key);
  }

  /** A write inside one property. */
  lemma BelowWrites(cells: Cells, after: Cells, a: nat, j: Json, part: string, p: Property, v: Json, w: Json)
    requires Tree(cells, Ref(a), j) && Apart(cells, Ref(a), j, p, v) && !IsLength(j, part)
    requires var key := KeyFor(j.Arr?, part);
             && HasKey(j, key) && Prop(cells[a], key).Ref?
             && Wrote(cells, after, Prop(cells[a], key).addr, Kid(j, key), p, v, w)
    ensures Wrote(cells, after, a, j, p, v, SetChild(j, part, w))
  {
    var key, k := KeyFor(j.Arr?, part), SetChild(j, part, w);
    var b := Prop(cells[a], key);
    SetBoth(cells[a], j, part, b, w);
    assert after[a] == cells[a] == SetProp(cells[a], key, b);
    assert InFoot(cells, Ref(a), j, a) && !InFoot(cells, p, v, a);
    forall y: nat | InSibling(cells, a, j, key, y)
      ensures InFoot(cells, Ref(a), j, y) && y != a && y < |cells| && !InFoot(cells, b, Kid(j, key), y) && !InFoot(cells, p, v, y)
    {
      SiblingInFoot(cells, a, j, key, y);
    }
    forall y: nat | InFoot(cells, b, Kid(j, key), y) ensures InFoot(cells, Ref(a), j, y) && y != a {
      KidInFoot(cells, a, j, key, y);
    }
    Assembled(cells, after, a, j, k, key);
  }

  /** The loop writes what `Write` describes, and touches no cell outside the value it
      starts from. */
  lemma {:induction false} PutWrites(cells: Cells, a: nat, j: Json, parts: seq<string>, p: Property, v: Json)
    requires Addressed(cells) && parts != [] && Points(cells, p)
    requires Tree(cells, Ref(a), j) && Tree(cells, p, v) && Apart(cells, Ref(a), j, p, v)
    requires LengthFree(j, parts) && Walks(cells, a, j, parts)
    ensures Wrote(cells, Put(cells, a, parts, p), a, j, p, v, Write(j, parts, v))
    decreases |parts|, 1
  {
    var key, rest := KeyFor(j.Arr?, parts[0]), parts[1..];
    ChildIsKid(j, parts[0]);
    if |parts| == 1 {
      assert rest == [];
      SetWrites(cells, a, j, parts[0], p, v);
    } else if HasKey(j, key) && Prop(cells[a], key).Ref? {
      var b := Prop(cells[a], key).addr;
      forall x: nat | InFoot(cells, Ref(b), Kid(j, key), x) ensures !InFoot(cells, p, v, x) { KidInFoot(cells, a, j, key, x); }
      PutWrites(cells, b, Kid(j, key), rest, p, v);
      BelowWrites(cells, Put(cells, a, parts, p), a, j, parts[0], p, v, Write(Kid(j, key), rest, v));
    } else {
      PutInFresh(cells, a, j, parts, p, v);
    }
  }

  /** The walk enters an object it has just made. */
  lemma {:induction false} PutInFresh(cells: Cells, a: nat, j: Json, parts: seq<string>, p: Property, v: Json)
    requires Addressed(cells) && |parts| > 1 && Points(cells, p)
    requires Tree(cells, Ref(a), j) && Tree(cells, p, v) && Apart(cells, Ref(a), j, p, v)
    requires LengthFree(j, parts) && Walks(cells, a, j, parts)
    requires var key := KeyFor(j.Arr?, parts[0]); HasKey(j, key) ==> Prop(cells[a], key).Leaf?
    ensures Wrote(cells, Put(cells, a, parts, p), a, j, p, v, Write(j, parts, v))
    decreases |parts|, 0
  {
    var key, rest, n := KeyFor(j.Arr?, parts[0]), parts[1..], |cells|;
    var empty, r := Obj(map[]), WithChild(cells, a, key);
    ChildIsKid(j, parts[0]);
    FreshChild(cells, a, j, parts[0]);
    FreshApart(cells, r, a, j, SetChild(j, parts[0], empty), p, v);
    EmptyIsLengthFree(rest);
    PutWrites(r, n, empty, rest, p, v);
    SetChildReads(j, parts[0], empty, parts[0]);
    var after := Put(r, n, rest, p);
    var k := SetChild(j, parts[0], empty);
    BelowWrites(r, after, a, k, parts[0], p, v, Write(empty, rest, v));
    SetChildTwice(j, parts[0], empty, Write(empty, rest, v));
    WriteOnNothing(Child(j, parts[0]), rest, v);
    assert SetChild(k, parts[0], Write(empty, rest, v)) == Write(j, parts, v);
    WroteTwice(cells, r, after, a, j, k, p, v, Write(j, parts, v));
  }

  /** A new object has a cell that belongs to nothing else. */
  lemma FreshChild(cells: Cells, a: nat, j: Json, part: string)
    requires Addressed(cells) && Tree(cells, Ref(a), j) && !IsLength(j, part)
    ensures var key, n, empty := KeyFor(j.Arr?, part), |cells|, Obj(map[]);
            var r, k := WithChild(cells, a, key), SetChild(j, part, empty);
            && Wrote(cells, r, a, j, Ref(n), empty, k) && Tree(r, Ref(n), empty)
            && HasKey(k, key) && Kid(k, key) == empty && HasProp(r[a], key) && Prop(r[a], key) == Ref(n)
            && KeyFor(k.Arr?, part) == key
  {
    var key, n, empty := KeyFor(j.Arr?, part), |cells|, Obj(map[]);
    var more := cells + [Object(map[])];
    Frame(cells, more, Ref(a), j);
    assert Tree(more, Ref(n), empty);
    forall x: nat | InFoot(more, Ref(a), j, x) ensures !InFoot(more, Ref(n), empty, x) { FootBounded(cells, Ref(a), j, x); }
    SetWrites(more, a, j, part, Ref(n), empty);
    SetBoth(more[a], j, part, Ref(n), empty);
    assert InFoot(cells, Ref(a), j, a);
  }

  /** The value to be written is not concerned. */
  lemma FreshApart(cells: Cells, r: Cells, a: nat, j: Json, k: Json, p: Property, v: Json)
    requires Tree(cells, Ref(a), j) && Tree(cells, p, v) && Apart(cells, Ref(a), j, p, v)
    requires Wrote(cells, r, a, j, Ref(|cells|), Obj(map[]), k) && |r| == |cells| + 1
    ensures Tree(r, p, v) && Apart(r, Ref(|cells|), Obj(map[]), p, v) && Apart(r, Ref(a), k, p, v)
    ensures forall x: nat :: InFoot(r, p, v, x) <==> InFoot(cells, p, v, x)
  {
    forall x: nat | InFoot(cells, p, v, x) ensures x < |cells| && !InFoot(cells, Ref(a), j, x) { FootBounded(cells, p, v, x); }
    Frame(cells, r, p, v);
    assert forall x: nat :: !InFoot(cells, Ref(|cells|), Obj(map[]), x);
  }

  lemma WroteTwice(cells: Cells, r: Cells, after: Cells, a: nat, j: Json, k: Json, p: Property, v: Json, w: Json)
    requires Wrote(cells, r, a, j, Ref(|cells|), Obj(map[]), k) && |r| == |cells| + 1
    requires Wrote(r, after, a, k, p, v, w)
    requires forall x: nat :: InFoot(r, p, v, x) <==> InFoot(cells, p, v, x)
    ensures Wrote(cells, after, a, j, p, v, w)
  {
    assert forall x: nat :: !InFoot(cells, Ref(|cells|), Obj(map[]), x);
  }

  lemma EmptyIsLengthFree(parts: seq<string>)
    ensures LengthFree(Obj(map[]), parts)
  {
    if parts != [] { ScalarsAreArrayFree(Null, parts[1..]); }
  }

  /** A missing value and a scalar are replaced by an empty object before the write. */
  lemma WriteOnNothing(j: Json, parts: seq<string>, v: Json)
    requires parts != [] && !j.Obj? && !j.Arr? && LengthFree(j, parts)
    ensures LengthFree(Obj(map[]), parts) && Write(j, parts, v) == Write(Obj(map[]), parts, v)
  {
    EmptyIsLengthFree(parts);
    assert Child(j, parts[0]) == Child(Obj(map[]), parts[0]);
  }

  /** Where all values on the way are objects the walk can enter them. */
  lemma {:induction false} ArrayFreeWalks(cells: Cells, a: nat, j: Json, parts: seq<string>)
    requires Tree(cells, Ref(a), j) && ArrayFree(j, parts)
    ensures Walks(cells, a, j, parts)
    decreases |parts|
  {
    if |parts| > 1 {
      var key := KeyFor(j.Arr?, parts[0]);
      if HasKey(j, key) && Kid(j, key).Obj? {
        assert Tree(cells, Prop(cells[a], key), Kid(j, key));
        ArrayFreeWalks(cells, Prop(cells[a], key).addr, Kid(j, key), parts[1..]);
      }
    }
  }

  class JsObject {
    var cells: Cells
    ghost var contents: Json

    ghost predicate Valid()
      reads this
    {
      Addressed(cells) && Tree(cells, Ref(0), contents)
    }

    constructor ()
      ensures Valid() && contents == Obj(map[])
    {
      cells, contents := [Object(map[])], Obj(map[]);
    }

    /** The value is whatever the property holds, as long as no part of it belongs to
        this object already. */
    method SetJsonPathValue(path: string, p: Property, ghost v: Json)
      requires Valid() && Points(cells, p) && Tree(cells, p, v) && Apart(cells, Ref(0), contents, p, v)
      requires LengthFree(contents, Parts(path)) && Walks(cells, 0, contents, Parts(path))
      modifies this
      ensures Valid() && contents == Set(old(contents), path, v)
      ensures |old(cells)| <= |cells|
      ensures forall x: nat :: x < |old(cells)| && !InFoot(old(cells), Ref(0), old(contents), x) ==> cells[x] == old(cells)[x]
    {
      var parts := Parts(path);
      if parts != [] {
        PutWrites(cells, 0, contents, parts, p, v);
        Assign(parts, p);
        contents := Write(contents, parts, v);
      }
    }

    /** The loop: walks to the last container, making objects on the way, and assigns. */
    method Assign(parts: seq<string>, p: Property)
      requires Addressed(cells) && cells != [] && parts != [] && Points(cells, p)
      modifies this`cells
      ensures cells == Put(old(cells), 0, parts, p)
    {
      var current: nat, i: nat := 0, 0;
      while i < |parts| - 1
        invariant 0 <= i < |parts|
        invariant Addressed(cells) && current < |cells| && Points(cells, p)
        invariant Put(cells, current, parts[i..], p) == Put(old(cells), 0, parts, p)
      {
        assert parts[i..][1..] == parts[i + 1..];
        var key := KeyFor(cells[current].Array?, parts[i]);
        if HasProp(cells[current], key) && Prop(cells[current], key).Ref? {
          current := Prop(cells[current], key).addr;
        } else {
          var next := |cells|;
          cells := WithChild(cells, current, key);
          current := next;
        }
        i := i + 1;
      }
      assert parts[i..] == [parts[i]];
      cells := cells[current := SetProp(cells[current], KeyFor(cells[current].Array?, parts[i]), p)];
    }
  }

  /** The payload rebuilt from the cookie, property by property. */
  method RebuildPayload(sub: Json, roles: seq<Json>, subPath: string, rolesPath: string) returns (payload: JsObject)
    requires Scalar(sub) && !(ROLES < Parts(subPath)) && !(ROLES < Parts(rolesPath))
    ensures fresh(payload) && payload.Valid()
    ensures payload.contents == ReconstructSessionPayload(sub, roles, subPath, rolesPath)
  {
    StandardPaths();
    StandardIsWritten(sub, roles);
    StandardIsArrayFree(sub, roles, Parts(subPath));
    WithSubIsArrayFree(sub, roles, subPath, Parts(rolesPath));
    payload := new JsObject();
    ArrayFreeWalks(payload.cells, 0, payload.contents, SUB);
    payload.SetJsonPathValue(SUB_PATH, Leaf(sub), sub);
    ArrayFreeWalks(payload.cells, 0, payload.contents, ROLES);
    payload.SetJsonPathValue(ROLES_PATH, Leaf(List(roles)), List(roles));
    if subPath != SUB_PATH {
      ArrayFreeWalks(payload.cells, 0, payload.contents, Parts(subPath));
      payload.SetJsonPathValue(subPath, Leaf(sub), sub);
    }
    if rolesPath != ROLES_PATH {
      ArrayFreeWalks(payload.cells, 0, payload.contents, Parts(rolesPath));
      payload.SetJsonPathValue(rolesPath, Leaf(List(roles)), List(roles));
    }
  }
}
