/** Reading and writing dotted paths of JSON values. */
module JsonPath {
  import opened Pods
  import opened Text

  datatype Json =
    | Null                     // also stands for a missing value
    | Bool(b: bool)
    | Num(n: int)
    | Str(s: string)
    | Arr(elems: seq<Json>, named: map<string, Json>)   // an array may carry named properties too
    | Obj(fields: map<string, Json>)
    | Shared                   // in place of an array that several properties refer to

  /** The keys of a path: `$.a.b` and `a.b` alike give `["a", "b"]`. */
  function Parts(path: string): seq<string> {
    var cleaned := if path == [] || path[0] != '$' then path
                   else if |path| > 1 && path[1] == '.' then path[2..]
                   else path[1..];
    if cleaned == [] then [] else Split(cleaned, '.')
  }

  /** With or without `$` and a dot in front, a path is the keys joined by dots. */
  lemma PartsMeaning(keys: seq<string>)
    requires keys != [] && forall key :: key in keys ==> '.' !in key
    requires Join(keys, '.') != ""
    ensures Parts("$." + Join(keys, '.')) == keys
    ensures Join(keys, '.')[0] != '$' ==> Parts(Join(keys, '.')) == keys
    ensures Join(keys, '.')[0] != '.' ==> Parts("$" + Join(keys, '.')) == keys
    ensures Parts("") == Parts("$") == Parts("$.") == []
  {
    var path := Join(keys, '.');
    JoinSplits(keys, '.');
    assert ("$." + path)[2..] == path && ("$" + path)[1..] == path;
  }

  function Digits(s: string): Option<nat> {
    if s == [] then None
    else if '0' <= s[|s| - 1] <= '9' then
      var digit := (s[|s| - 1] as int) - ('0' as int);
      if |s| == 1 then Some(digit)
      else match Digits(s[..|s| - 1])
        case Some(n) => if n == 0 then None else Some(10 * n + digit)
        case None => None
    else None
  }

  /** The array index a property name stands for, if it stands for one. */
  function Index(part: string): Option<nat> {
    match Digits(part)
    case Some(i) => if i < 0xFFFF_FFFF then Some(i) else None
    case None => None
  }

  /** The way a number is written. */
  function Decimal(n: nat): string {
    var digit := ((n % 10) + ('0' as int)) as char;
    if n < 10 then [digit] else Decimal(n / 10) + [digit]
  }

  lemma {:induction false} DigitsMeaning(s: string, n: nat)
    ensures Digits(s) == Some(n) <==> s == Decimal(n)
  {
    if s != [] {
      var front, last := s[..|s| - 1], s[|s| - 1];
      assert s == front + [last];
      if n >= 10 {
        DigitsMeaning(front, n / 10);
        assert |Decimal(n)| == |Decimal(n / 10)| + 1;
        if s == Decimal(n) { assert front == Decimal(n / 10); }
        if Digits(s) == Some(n) { assert |s| > 1; }
      } else if |s| > 1 {
        DigitsMeaning(front, 0);
      }
    }
  }

  /** An array is indexed by the numbers below 2^32 - 1, as they are written. */
  lemma IndexMeaning(elems: seq<Json>, named: map<string, Json>, part: string)
    ensures (forall i: nat :: Index(part) == Some(i) <==> i < 0xFFFF_FFFF && part == Decimal(i))
    ensures forall i: nat :: i < |elems| && i < 0xFFFF_FFFF ==> Child(Arr(elems, named), Decimal(i)) == elems[i]
  {
    forall i: nat ensures Index(part) == Some(i) <==> i < 0xFFFF_FFFF && part == Decimal(i) {
      DigitsMeaning(part, i);
    }
    forall i: nat | i < |elems| && i < 0xFFFF_FFFF ensures Child(Arr(elems, named), Decimal(i)) == elems[i] {
      DigitsMeaning(Decimal(i), i);
      NotLength(i);
    }
  }

  lemma NotLength(i: nat)
    ensures Decimal(i) != "length"
  {
    var s := Decimal(i);
    assert '0' <= s[|s| - 1] <= '9';
  }

  /** A property of an array: an element, the length, or a named property. */
  function Element(elems: seq<Json>, named: map<string, Json>, part: string): Json {
    if part == "length" then Num(|elems|)
    else match Index(part)
      case Some(i) => if i < |elems| then elems[i] else Null
      case None => if part in named then named[part] else Null
  }

  function Child(j: Json, part: string): Json {
    match j
    case Obj(fields) => if part in fields then fields[part] else Null
    case Arr(elems, named) => Element(elems, named, part)
    case _ => Null
  }

  function Read(j: Json, parts: seq<string>): Json
    decreases |parts|
  {
    if parts == [] then j else Read(Child(j, parts[0]), parts[1..])
  }

  method Walk(j: Json, parts: seq<string>) returns (r: Json)
    ensures r == Read(j, parts)
  {
    r := j;
    var i := 0;
    while i < |parts|
      invariant 0 <= i <= |parts|
      invariant Read(r, parts[i..]) == Read(j, parts)
    {
      if !r.Obj? && !r.Arr? {
        NothingBelow(r, parts[i..]);
        return Null;
      }
      r := Child(r, parts[i]);
      assert parts[i..][1..] == parts[i + 1..];
      i := i + 1;
    }
  }

  lemma {:induction false} NothingBelow(j: Json, parts: seq<string>)
    requires !j.Obj? && !j.Arr? && parts != []
    ensures Read(j, parts) == Null
    decreases |parts|
  {
    if |parts| > 1 {
      NothingBelow(Null, parts[1..]);
    }
  }

  /** `extractJsonPathValue`: the default replaces null, undefined and what
      lies below a value that is not an object. */
  function Extract(j: Json, path: string, default: Json): Json {
    if Parts(path) == [] then default
    else
      var r := Read(j, Parts(path));
      if r.Null? then default else r
  }

  predicate IsLength(j: Json, part: string) { j.Arr? && part == "length" }

  /** A value as it comes out of a JSON text: arrays have elements and nothing else. */
  predicate Plain(j: Json) {
    match j
    case Arr(elems, named) => named == map[] && forall e :: e in elems ==> Plain(e)
    case Obj(fields) => forall k :: k in fields ==> Plain(fields[k])
    case Shared => false
    case _ => true
  }

  lemma {:induction false} ReadPlain(j: Json, parts: seq<string>)
    requires Plain(j)
    ensures Plain(Read(j, parts))
    decreases |parts|
  {
    if parts != [] {
      ReadPlain(Child(j, parts[0]), parts[1..]);
    }
  }

  /** The path does not name the length of an array, which is no place to keep a value. */
  predicate LengthFree(j: Json, parts: seq<string>)
    decreases |parts|
  {
    parts == [] || (!IsLength(j, parts[0]) && LengthFree(Child(j, parts[0]), parts[1..]))
  }

  /** No value on the way down is an array, so every write lands in an object. */
  predicate ArrayFree(j: Json, parts: seq<string>): (r: bool)
    ensures r ==> LengthFree(j, parts)
    decreases |parts|
  {
    assert |parts| == 1 ==> parts[1..] == [];
    !j.Arr? && (|parts| <= 1 || ArrayFree(Child(j, parts[0]), parts[1..]))
  }

  /** One assignment. An array grows, with holes, to hold a new element; what can
      hold no property is replaced by an object. */
  function SetChild(j: Json, part: string, v: Json): Json
    requires !IsLength(j, part)
  {
    match j
    case Obj(fields) => Obj(fields[part := v])
    case Arr(elems, named) =>
      (match Index(part)
       case Some(i) =>
         Arr(if i < |elems| then elems[i := v] else elems + seq(i - |elems|, (k: nat) => Null) + [v], named)
       case None => Arr(elems, named[part := v]))
    case _ => Obj(map[part := v])
  }

  /** The value with `v` at the path: objects and arrays on the way are kept, anything else is replaced. */
  function Write(j: Json, parts: seq<string>, v: Json): Json
    requires LengthFree(j, parts)
    decreases |parts|
  {
    if parts == [] then v else SetChild(j, parts[0], Write(Child(j, parts[0]), parts[1..], v))
  }

  predicate Comparable(p: seq<string>, q: seq<string>) { p <= q || q <= p }

  // ----- lens laws

  lemma {:induction false} DigitsInjective(a: string, b: string)
    requires Digits(a).Some? && Digits(a) == Digits(b)
    ensures a == b
  {
    if |a| > 1 && |b| > 1 {
      DigitsInjective(a[..|a| - 1], b[..|b| - 1]);
    }
    assert a == a[..|a| - 1] + [a[|a| - 1]] && b == b[..|b| - 1] + [b[|b| - 1]];
  }

  /** An assignment is read back, and no other property changes, save that an array may get longer. */
  lemma SetChildReads(j: Json, part: string, v: Json, other: string)
    requires !IsLength(j, part)
    ensures Child(SetChild(j, part, v), part) == v
    ensures other != part && !IsLength(j, other) ==> Child(SetChild(j, part, v), other) == Child(j, other)
  {
    if j.Arr? && Index(part).Some? && Index(part) == Index(other) {
      DigitsInjective(part, other);
    }
  }

  lemma SetChildTwice(j: Json, part: string, v: Json, w: Json)
    requires !IsLength(j, part)
    ensures SetChild(SetChild(j, part, v), part, w) == SetChild(j, part, w)
  {
    if j.Arr? && Index(part).Some? {
      assert SetChild(SetChild(j, part, v), part, w).elems == SetChild(j, part, w).elems;
    }
  }

  /** A path is read through a write to a prefix of it: what it finds is inside the written value. */
  lemma {:induction false} ReadBelow(j: Json, parts: seq<string>, v: Json, q: seq<string>)
    requires LengthFree(j, parts) && parts <= q
    ensures Read(Write(j, parts, v), q) == Read(v, q[|parts|..])
    decreases |parts|
  {
    if parts == [] {
      assert q[0..] == q;
    } else {
      SetChildReads(j, parts[0], Write(Child(j, parts[0]), parts[1..], v), parts[0]);
      ReadBelow(Child(j, parts[0]), parts[1..], v, q[1..]);
      assert q[1..][|parts| - 1..] == q[|parts|..];
    }
  }

  lemma ReadWritten(j: Json, parts: seq<string>, v: Json)
    requires LengthFree(j, parts)
    ensures Read(Write(j, parts, v), parts) == v
  {
    ReadBelow(j, parts, v, parts);
  }

  lemma {:induction false} WriteKeepsArrayFree(j: Json, parts: seq<string>, v: Json, q: seq<string>)
    requires ArrayFree(j, parts) && ArrayFree(j, q)
    requires v.Arr? ==> !(parts < q)
    requires v.Obj? ==> !(parts < q)
    requires parts != []
    ensures ArrayFree(Write(j, parts, v), q)
    decreases |parts|
  {
    if |q| > 1 {
      if q[0] == parts[0] {
        assert parts[1..] < q[1..] ==> parts < q;
        if |parts| > 1 {
          WriteKeepsArrayFree(Child(j, parts[0]), parts[1..], v, q[1..]);
        } else {
          assert parts < q;
          ScalarsAreArrayFree(v, q[1..]);
        }
      } else if j.Obj? {
      } else {
        ScalarsAreArrayFree(Null, q[1..]);
      }
    }
  }

  lemma {:induction false} ScalarsAreArrayFree(j: Json, parts: seq<string>)
    requires !j.Obj? && !j.Arr?
    ensures ArrayFree(j, parts)
    decreases |parts|
  {
    if |parts| > 1 {
      ScalarsAreArrayFree(Null, parts[1..]);
    }
  }

  lemma {:induction false} WriteTwice(j: Json, parts: seq<string>, v: Json, w: Json)
    requires LengthFree(j, parts) && parts != []
    ensures LengthFree(Write(j, parts, v), parts)
    ensures Write(Write(j, parts, v), parts, w) == Write(j, parts, w)
    decreases |parts|
  {
    var child := Child(j, parts[0]);
    var inner := Write(child, parts[1..], v);
    SetChildReads(j, parts[0], inner, parts[0]);
    if |parts| > 1 {
      WriteTwice(child, parts[1..], v, w);
    }
    SetChildTwice(j, parts[0], inner, Write(child, parts[1..], w));
  }

  /** `q` does not read the length of an array that the write at `parts` may lengthen. */
  predicate Unmeasured(j: Json, parts: seq<string>, q: seq<string>)
    decreases |parts|
  {
    parts == [] || q == [] ||
    if parts[0] == q[0] then Unmeasured(Child(j, parts[0]), parts[1..], q[1..]) else !IsLength(j, q[0])
  }

  lemma {:induction false} ReadElsewhere(j: Json, parts: seq<string>, v: Json, q: seq<string>)
    requires LengthFree(j, parts) && !Comparable(parts, q) && Unmeasured(j, parts, q)
    ensures Read(Write(j, parts, v), q) == Read(j, q)
    decreases |parts|
  {
    var inner := Write(Child(j, parts[0]), parts[1..], v);
    SetChildReads(j, parts[0], inner, q[0]);
    if q[0] == parts[0] {
      assert parts[1..] <= q[1..] ==> parts <= q;
      assert q[1..] <= parts[1..] ==> q <= parts;
      ReadElsewhere(Child(j, parts[0]), parts[1..], v, q[1..]);
    }
  }

  /** Where all values on the way are objects there is no length to read. */
  lemma {:induction false} ArrayFreeUnmeasured(j: Json, parts: seq<string>, q: seq<string>)
    requires ArrayFree(j, parts) && !Comparable(parts, q)
    ensures Unmeasured(j, parts, q)
    decreases |parts|
  {
    if parts[0] == q[0] && |parts| > 1 {
      assert parts[1..] <= q[1..] ==> parts <= q;
      assert q[1..] <= parts[1..] ==> q <= parts;
      ArrayFreeUnmeasured(Child(j, parts[0]), parts[1..], q[1..]);
    }
  }

  /** Reading what is there and writing it back changes nothing. */
  lemma {:induction false} WriteRead(j: Json, parts: seq<string>)
    requires LengthFree(j, parts) && !Read(j, parts).Null?
    ensures Write(j, parts, Read(j, parts)) == j
    decreases |parts|
  {
    if parts != [] {
      if !j.Obj? && !j.Arr? {
        NothingBelow(j, parts);
      } else {
        var child := Child(j, parts[0]);
        if child.Null? && |parts| > 1 { NothingBelow(Null, parts[1..]); }
        assert |parts| == 1 ==> parts[1..] == [];
        WriteRead(child, parts[1..]);
        assert SetChild(j, parts[0], child) == j;
      }
    }
  }

  /** The lens laws on nested objects and arrays: what was written is read back, the
      last write counts, and every path that is no prefix or extension of the
      written one reads as before. */
  lemma PathsAreLenses(obj: Json, path: string, v: Json, w: Json, other: string, default: Json)
    requires Parts(path) != [] && LengthFree(obj, Parts(path)) && !v.Null?
    ensures Extract(Write(obj, Parts(path), v), path, default) == v
    ensures LengthFree(Write(obj, Parts(path), v), Parts(path))
    ensures Write(Write(obj, Parts(path), v), Parts(path), w) == Write(obj, Parts(path), w)
    ensures !Comparable(Parts(path), Parts(other)) && Unmeasured(obj, Parts(path), Parts(other)) ==>
              Extract(Write(obj, Parts(path), v), other, default) == Extract(obj, other, default)
  {
    ReadWritten(obj, Parts(path), v);
    WriteTwice(obj, Parts(path), v, w);
    if !Comparable(Parts(path), Parts(other)) && Unmeasured(obj, Parts(path), Parts(other)) {
      ReadElsewhere(obj, Parts(path), v, Parts(other));
    }
  }
}
