/** Conversions between typed data and `cci_value`. */
module Converter {
  import opened Values

  datatype Width = W8 | W16 | W32 | W64

  /** The convertible types. `Integer` covers the builtin integers and the
      narrower ones delegated to them; `Number` is `double`. */
  datatype Ty =
    | Boolean
    | Integer(signed: bool, width: Width)
    | Number
    | Text
    | Chars(size: nat)
    | Array(element: Ty, size: nat)
    | Vector(element: Ty)

  datatype Data =
    | DBool(b: bool)
    | DInt(i: int)
    | DReal(r: real)
    | DText(s: string)
    | DChars(chars: seq<char>)
    | DSeq(items: seq<Data>)

  const NUL: char := '\0'

  /** How many values an integer of this width has. */
  function Span(w: Width): int {
    match w
    case W8 => 0x100
    case W16 => 0x1_0000
    case W32 => 0x1_0000_0000
    case W64 => 0x1_0000_0000_0000_0000
  }

  /** The types C++ allows: no vectors of arrays. */
  predicate WellFormed(ty: Ty) {
    match ty
    case Chars(n) => n > 0
    case Array(t, n) => n > 0 && WellFormed(t)
    case Vector(t) => WellFormed(t) && !t.Array? && !t.Chars?
    case _ => true
  }

  predicate Fits(signed: bool, w: Width, i: int) {
    if signed then -Span(w) <= 2 * i < Span(w) else 0 <= i < Span(w)
  }

  predicate HasType(d: Data, ty: Ty) {
    match ty
    case Boolean => d.DBool?
    case Integer(signed, w) => d.DInt? && Fits(signed, w, d.i)
    case Number => d.DReal?
    case Text => d.DText?
    case Chars(n) => d.DChars? && |d.chars| == n
    case Array(t, n) => d.DSeq? && |d.items| == n && forall i :: 0 <= i < n ==> HasType(d.items[i], t)
    case Vector(t) => d.DSeq? && forall i :: 0 <= i < |d.items| ==> HasType(d.items[i], t)
  }

  // -------------------------------------------------------------- packing

  /** The text of a character buffer: up to the first NUL. */
  function CString(s: seq<char>): (t: string)
    ensures |t| <= |s| && t == s[..|t|] && NUL !in t
    ensures |t| < |s| ==> s[|t|] == NUL
  {
    if |s| == 0 || s[0] == NUL then "" else [s[0]] + CString(s[1..])
  }

  function Packed(ty: Ty, d: Data): Value
    requires HasType(d, ty)
    decreases ty
  {
    match ty
    case Boolean => Bool(d.b)
    case Integer(_, _) => Int(d.i)
    case Number => Real(d.r)
    case Text => Str(d.s)
    case Chars(_) => Str(CString(d.chars))
    case Array(t, n) => List(seq(n, i requires 0 <= i < n => Packed(t, d.items[i])))
    case Vector(t) => List(seq(|d.items|, i requires 0 <= i < |d.items| => Packed(t, d.items[i])))
  }

  // ------------------------------------------------------------ unpacking

  /** The builtin type that the integer is delegated to. */
  function Base(w: Width): Width {
    if w == W64 then W64 else W32
  }

  /** Which values convert. Every number converts to a `double`; `null` converts
      to an empty character buffer; an array takes a shorter list. */
  predicate Accepts(ty: Ty, v: Value)
    requires WellFormed(ty)
  {
    match ty
    case Boolean => v.Bool?
    case Integer(signed, w) => v.Int? && Fits(signed, Base(w), v.i)
    case Number => v.Real? || (v.Int? && (Fits(true, W64, v.i) || Fits(false, W64, v.i)))
    case Text => v.Str?
    case Chars(n) => v.Null? || (v.Str? && |v.s| <= n - 1)
    case Array(t, n) => v.List? && |v.items| <= n && forall i :: 0 <= i < |v.items| ==> Accepts(t, v.items[i])
    case Vector(t) => v.List? && forall i :: 0 <= i < |v.items| ==> Accepts(t, v.items[i])
  }

  /** The cast to a narrower type. */
  function Wrap(signed: bool, w: Width, i: int): (r: int)
    ensures Fits(signed, w, r)
    ensures Fits(signed, w, i) ==> r == i
  {
    var m := i % Span(w);
    ModOfSmall(i, Span(w));
    if signed && 2 * m >= Span(w) then m - Span(w) else m
  }

  lemma ModOfSmall(i: int, s: int)
    requires s > 0
    ensures 0 <= i < s ==> i % s == i
    ensures -s <= i < 0 ==> i % s == i + s
  {
  }

  /** `strncpy` of all but the last place, and a NUL there. */
  function Padded(s: string, n: nat): (r: seq<char>)
    requires n > 0
    ensures |r| == n
  {
    var t := CString(s);
    var k := if |t| < n then |t| else n - 1;
    t[..k] + seq(n - k, _ => NUL)
  }

  /** How many items from the front convert, at most `n`. */
  function Good(t: Ty, items: seq<Value>, n: nat): (k: nat)
    requires WellFormed(t)
    ensures k <= n && k <= |items|
    ensures forall i :: 0 <= i < k ==> Accepts(t, items[i])
    ensures k < n && k < |items| ==> !Accepts(t, items[k])
    decreases |items|
  {
    if n > 0 && |items| > 0 && Accepts(t, items[0]) then 1 + Good(t, items[1..], n - 1) else 0
  }

  function Blank(ty: Ty): (d: Data)
    requires WellFormed(ty)
    ensures HasType(d, ty)
  {
    match ty
    case Boolean => DBool(false)
    case Integer(_, _) => DInt(0)
    case Number => DReal(0.0)
    case Text => DText("")
    case Chars(n) => DChars(seq(n, _ => NUL))
    case Array(t, n) => DSeq(seq(n, _ => Blank(t)))
    case Vector(_) => DSeq([])
  }

  /** What the destination holds after an attempt to unpack into it. An array
      keeps what was written before the first bad item, and whatever that item
      itself wrote; a vector is replaced as a whole or not at all. */
  function Stored(ty: Ty, dst: Data, v: Value): (d: Data)
    requires WellFormed(ty) && HasType(dst, ty)
    ensures HasType(d, ty)
    decreases ty
  {
    match ty
    case Boolean => if v.Bool? then DBool(v.b) else dst
    case Integer(signed, w) => if Accepts(ty, v) then DInt(Wrap(signed, w, v.i)) else dst
    case Number => if Accepts(ty, v) then DReal(if v.Int? then v.i as real else v.r) else dst
    case Text => if v.Str? then DText(v.s) else dst
    case Chars(n) =>
      if v.Null? then DChars(dst.chars[0 := NUL])
      else if v.Str? then DChars(Padded(v.s, n))
      else dst
    case Array(t, n) =>
      if !v.List? then dst
      else
        var k := Good(t, v.items, n);
        DSeq(seq(n, i requires 0 <= i < n =>
          if i <= k && i < |v.items| then Stored(t, dst.items[i], v.items[i]) else dst.items[i]))
    case Vector(t) =>
      if Accepts(ty, v) then
        DSeq(seq(|v.items|, i requires 0 <= i < |v.items| => Stored(t, Blank(t), v.items[i])))
      else dst
  }

  // -------------------------------------------------------------- the code

  method Pack(ty: Ty, src: Data) returns (dst: Value)
    requires HasType(src, ty)
    ensures dst == Packed(ty, src)
    decreases ty
  {
    match ty
    case Boolean => dst := Bool(src.b);
    case Integer(_, _) => dst := Int(src.i);
    case Number => dst := Real(src.r);
    case Text => dst := Str(src.s);
    case Chars(_) => dst := Str(CString(src.chars));
    case Array(t, n) =>
      var ret := [];
      for i := 0 to n
        invariant |ret| == i && forall k :: 0 <= k < i ==> ret[k] == Packed(t, src.items[k])
      {
        var v := Pack(t, src.items[i]);
        ret := ret + [v];
      }
      dst := List(ret);
    case Vector(t) =>
      var ret := [];
      for i := 0 to |src.items|
        invariant |ret| == i && forall k :: 0 <= k < i ==> ret[k] == Packed(t, src.items[k])
      {
        var v := Pack(t, src.items[i]);
        ret := ret + [v];
      }
      dst := List(ret);
  }

  /** The answer, and the destination afterwards. */
  method Unpack(ty: Ty, was: Data, src: Value) returns (ok: bool, dst: Data)
    requires WellFormed(ty) && HasType(was, ty)
    ensures ok == Accepts(ty, src) && dst == Stored(ty, was, src)
    decreases ty, 1
  {
    ok, dst := false, was;
    match ty
    case Boolean =>
      if src.Bool? {
        ok, dst := true, DBool(src.b);
      }
    case Integer(signed, w) =>
      if src.Int? && Fits(signed, Base(w), src.i) {
        ok, dst := true, DInt(Wrap(signed, w, src.i));
      }
    case Number =>
      if src.Real? {
        ok, dst := true, DReal(src.r);
      } else if src.Int? && (Fits(true, W64, src.i) || Fits(false, W64, src.i)) {
        ok, dst := true, DReal(src.i as real);
      }
    case Text =>
      if src.Str? {
        ok, dst := true, DText(src.s);
      }
    case Chars(n) =>
      if src.Null? {
        ok, dst := true, DChars(was.chars[0 := NUL]);
      } else if src.Str? {
        ok, dst := |src.s| <= n - 1, DChars(Padded(src.s, n));
      }
    case Array(t, n) =>
      ok, dst := UnpackArray(t, n, was, src);
    case Vector(t) =>
      ok, dst := UnpackVector(t, was, src);
  }

  /** Succeeds exactly on a list of at most `n` items that all convert, and then
      writes just the front of the array. Otherwise nothing behind the first bad
      item is written. */
  method UnpackArray(t: Ty, n: nat, was: Data, src: Value) returns (ok: bool, dst: Data)
    requires WellFormed(Array(t, n)) && HasType(was, Array(t, n))
    ensures ok <==> src.List? && |src.items| <= n && forall i :: 0 <= i < |src.items| ==> Accepts(t, src.items[i])
    ensures dst == Stored(Array(t, n), was, src)
    decreases t, 2
  {
    ok, dst := false, was;
    if !src.List? {
      return;
    }
    var lst := src.items;
    var arr := was.items;
    var i := 0;
    while i < n && i < |lst|
      invariant 0 <= i <= n && i <= |lst|
      invariant |arr| == n && forall k :: 0 <= k < n ==> HasType(arr[k], t)
      invariant forall k :: 0 <= k < i ==> Accepts(t, lst[k]) && arr[k] == Stored(t, was.items[k], lst[k])
      invariant forall k :: i <= k < n ==> arr[k] == was.items[k]
      decreases n - i
    {
      var got, item := Unpack(t, arr[i], lst[i]);
      arr := arr[i := item];
      if !got {
        break;
      }
      i := i + 1;
    }
    ArrayIsStored(t, n, was, lst, i, arr);
    ok, dst := i == |lst|, DSeq(arr);
  }

  lemma {:induction false} GoodIs(t: Ty, items: seq<Value>, n: nat, k: nat)
    requires WellFormed(t) && k <= n && k <= |items|
    requires forall i :: 0 <= i < k ==> Accepts(t, items[i])
    requires k < n && k < |items| ==> !Accepts(t, items[k])
    ensures Good(t, items, n) == k
  {
  }

  lemma ArrayIsStored(t: Ty, n: nat, was: Data, items: seq<Value>, k: nat, arr: seq<Data>)
    requires WellFormed(Array(t, n)) && HasType(was, Array(t, n)) && |arr| == n
    requires k <= n && k <= |items|
    requires forall i :: 0 <= i < k ==> Accepts(t, items[i]) && arr[i] == Stored(t, was.items[i], items[i])
    requires k < n && k < |items| ==> !Accepts(t, items[k]) && arr[k] == Stored(t, was.items[k], items[k])
    requires k < n && k == |items| ==> arr[k] == was.items[k]
    requires forall i :: k < i < n ==> arr[i] == was.items[i]
    ensures DSeq(arr) == Stored(Array(t, n), was, List(items))
  {
    GoodIs(t, items, n, k);
    assert arr == Stored(Array(t, n), was, List(items)).items;
  }

  /** Succeeds exactly on a list whose items all convert; otherwise the vector
      stays as it was. */
  method UnpackVector(t: Ty, was: Data, src: Value) returns (ok: bool, dst: Data)
    requires WellFormed(Vector(t)) && HasType(was, Vector(t))
    ensures ok <==> src.List? && forall i :: 0 <= i < |src.items| ==> Accepts(t, src.items[i])
    ensures !ok ==> dst == was
    ensures dst == Stored(Vector(t), was, src)
    decreases t, 2
  {
    ok, dst := false, was;
    if !src.List? {
      return;
    }
    var lst := src.items;
    var ret: seq<Data> := [];
    var cur := Blank(t);
    var i := 0;
    while i < |lst|
      invariant 0 <= i <= |lst| && |ret| == i && HasType(cur, t)
      invariant forall k :: 0 <= k < i ==> Accepts(t, lst[k]) && ret[k] == Stored(t, Blank(t), lst[k])
    {
      ghost var before := cur;
      var got;
      got, cur := Unpack(t, cur, lst[i]);
      if !got {
        break;
      }
      WholeIsReplaced(t, before, Blank(t), lst[i]);
      ret := ret + [cur];
      i := i + 1;
    }
    if i == |lst| {
      ok, dst := true, DSeq(ret);
      assert ret == Stored(Vector(t), was, src).items;
    }
  }

  /** What a vector can hold keeps nothing of its former value. */
  lemma WholeIsReplaced(t: Ty, one: Data, other: Data, v: Value)
    requires WellFormed(Vector(t)) && HasType(one, t) && HasType(other, t) && Accepts(t, v)
    ensures Stored(t, one, v) == Stored(t, other, v)
  {
  }

  // -------------------------------------------------------------- theorems

  /** Does every character buffer hold a terminated string? */
  predicate Terminated(d: Data) {
    match d
    case DChars(chars) => NUL in chars
    case DSeq(items) => forall i :: 0 <= i < |items| ==> Terminated(items[i])
    case _ => true
  }

  /** Equal, with character buffers compared as strings. */
  predicate Same(one: Data, other: Data) {
    match one
    case DChars(chars) => other.DChars? && CString(chars) == CString(other.chars)
    case DSeq(items) =>
      && other.DSeq? && |items| == |other.items|
      && forall i :: 0 <= i < |items| ==> Same(items[i], other.items[i])
    case _ => one == other
  }

  lemma {:induction false} CStringOfTerminated(s: string, rest: string)
    requires NUL !in s
    ensures CString(s + [NUL] + rest) == s
  {
    if |s| > 0 {
      CStringOfTerminated(s[1..], rest);
      assert (s + [NUL] + rest)[1..] == s[1..] + [NUL] + rest;
    }
  }

  lemma CStringOfPadded(s: string, n: nat)
    requires n > 0 && |s| < n && NUL !in s
    ensures CString(Padded(s, n)) == s
  {
    CStringOfTerminated(s, seq(n - |s| - 1, _ => NUL));
    assert Padded(s, n) == s + [NUL] + seq(n - |s| - 1, _ => NUL);
  }

  /** Whatever was packed unpacks into any destination of its type. */
  lemma {:induction false} RoundTrip(ty: Ty, d: Data, was: Data)
    requires WellFormed(ty) && HasType(d, ty) && HasType(was, ty) && Terminated(d)
    ensures Accepts(ty, Packed(ty, d))
    ensures Same(d, Stored(ty, was, Packed(ty, d)))
    decreases ty
  {
    match ty
    case Chars(n) =>
      CStringOfPadded(CString(d.chars), n);
    case Array(t, n) =>
      var v := Packed(ty, d);
      forall i | 0 <= i < n
        ensures Accepts(t, v.items[i]) && Same(d.items[i], Stored(t, was.items[i], v.items[i]))
      {
        RoundTrip(t, d.items[i], was.items[i]);
      }
      GoodIs(t, v.items, n, n);
    case Vector(t) =>
      forall i | 0 <= i < |d.items|
        ensures Accepts(t, Packed(t, d.items[i])) && Same(d.items[i], Stored(t, Blank(t), Packed(t, d.items[i])))
      {
        RoundTrip(t, d.items[i], Blank(t));
      }
    case _ =>
  }

  /** Without character buffers the data comes back as it was. */
  lemma {:induction false} SameIsEqual(ty: Ty, one: Data, other: Data)
    requires HasType(one, ty) && Same(one, other) && !HoldsChars(ty)
    ensures one == other
    decreases ty
  {
    if ty.Array? || ty.Vector? {
      forall i | 0 <= i < |one.items| ensures one.items[i] == other.items[i] {
        SameIsEqual(ty.element, one.items[i], other.items[i]);
      }
    }
  }

  predicate HoldsChars(ty: Ty) {
    ty.Chars? || ((ty.Array? || ty.Vector?) && HoldsChars(ty.element))
  }

  /** Only these types keep all of the value: no cast, no filling up. */
  predicate Lossless(ty: Ty) {
    match ty
    case Boolean => true
    case Integer(_, w) => Base(w) == w
    case Text => true
    case Vector(t) => Lossless(t)
    case _ => false
  }

  /** What unpacks into such a type packs to the same value again. */
  lemma {:induction false} RoundTripBack(ty: Ty, was: Data, v: Value)
    requires WellFormed(ty) && HasType(was, ty) && Lossless(ty) && Accepts(ty, v)
    ensures Packed(ty, Stored(ty, was, v)) == v
    decreases ty
  {
    if ty.Vector? {
      var t := ty.element;
      forall i | 0 <= i < |v.items| ensures Packed(t, Stored(t, Blank(t), v.items[i])) == v.items[i] {
        RoundTripBack(t, Blank(t), v.items[i]);
      }
      assert Packed(ty, Stored(ty, was, v)).items == v.items;
    }
  }

  /** The array after an attempt, item by item: converted up to the first bad
      item, untouched behind it and behind the end of the list. */
  lemma ArrayKeepsTheRest(t: Ty, n: nat, was: Data, v: Value, i: nat)
    requires WellFormed(Array(t, n)) && HasType(was, Array(t, n)) && v.List? && i < n
    ensures
      var item := Stored(Array(t, n), was, v).items[i];
      && (i < |v.items| && (forall k :: 0 <= k <= i ==> Accepts(t, v.items[k])) ==>
            item == Stored(t, was.items[i], v.items[i]))
      && (i >= |v.items| || (exists k :: 0 <= k < i && !Accepts(t, v.items[k])) ==> item == was.items[i])
  {
  }

  // ------------------------------------------------- one type, any kind of value

  predicate Leaf(ty: Ty) {
    ty.Boolean? || ty.Integer? || ty.Number? || ty.Text?
  }

  /** What is refused leaves such a destination as it was. */
  lemma RefusedLeavesLeaf(ty: Ty, was: Data, v: Value)
    requires WellFormed(ty) && HasType(was, ty) && Leaf(ty) && !Accepts(ty, v)
    ensures Stored(ty, was, v) == was
  {
  }

  /** A truth value, a text, a real and an integer each have one kind of value; only
      `double` takes two. */
  lemma LeavesTakeTheirKind(ty: Ty, was: Data, v: Value)
    requires WellFormed(ty) && HasType(was, ty) && Leaf(ty) && Accepts(ty, v)
    ensures match v
            case Bool(b) => ty.Boolean? && Stored(ty, was, v) == DBool(b)
            case Str(s) => ty.Text? && Stored(ty, was, v) == DText(s)
            case Real(r) => ty.Number? && Stored(ty, was, v) == DReal(r)
            case Int(i) => ty.Integer? || (ty.Number? && Stored(ty, was, v) == DReal(i as real))
            case _ => false
  {
  }

  lemma LeavesTakeAll(was: Data, b: bool, s: string, r: real)
    ensures Accepts(Boolean, Bool(b)) && Accepts(Text, Str(s)) && Accepts(Number, Real(r))
    ensures Packed(Boolean, DBool(b)) == Bool(b) && Packed(Text, DText(s)) == Str(s)
    ensures Packed(Number, DReal(r)) == Real(r)
  {
  }

  /** A `double` takes every 64-bit integer, signed or not. */
  lemma NumberTakesIntegers(i: int)
    ensures Accepts(Number, Int(i)) <==> -0x8000_0000_0000_0000 <= i < 0x1_0000_0000_0000_0000
  {
  }

  /** Of integer types the narrow ones take what the type of 32 bits takes, and cut
      off the upper bits. */
  lemma IntegerRanges(signed: bool, w: Width, was: Data, i: int)
    requires HasType(was, Integer(signed, w))
    ensures
      var limit := if w == W64 then 0x1_0000_0000_0000_0000 else 0x1_0000_0000;
      Accepts(Integer(signed, w), Int(i)) <==> if signed then -limit <= 2 * i < limit else 0 <= i < limit
    ensures Packed(Integer(signed, w), was) == Int(was.i)
    ensures Accepts(Integer(signed, w), Int(i)) ==>
      var span := match w case W8 => 0x100 case W16 => 0x1_0000 case W32 => 0x1_0000_0000
                          case W64 => 0x1_0000_0000_0000_0000;
      var d := Stored(Integer(signed, w), was, Int(i));
      && d.DInt? && d.i % span == i % span
      && (if signed then -span <= 2 * d.i < span else 0 <= d.i < span)
  {
    CutOff(i, Span(w));
  }

  lemma CutOff(i: int, span: int)
    requires span > 0
    ensures (i % span) % span == i % span && (i % span - span) % span == i % span
  {
    ModOfSmall(i % span, span);
    ModOfSmall(i % span - span, span);
  }

  /** A character buffer takes text that leaves room for the NUL, and `null` as an
      empty text. A text that is too long is refused, and its front is written all
      the same. */
  lemma CharsTakeText(n: nat, was: Data, s: string)
    requires n > 0 && HasType(was, Chars(n))
    ensures Accepts(Chars(n), Str(s)) <==> |s| < n
    ensures Accepts(Chars(n), Null) && CString(Stored(Chars(n), was, Null).chars) == ""
    ensures NUL !in s ==> CString(Stored(Chars(n), was, Str(s)).chars) == if |s| < n then s else s[..n - 1]
  {
    if NUL !in s {
      WholeText(s);
      if |s| < n {
        CStringOfPadded(s, n);
      } else {
        var front := s[..n - 1];
        CStringOfTerminated(front, "");
        assert Padded(s, n) == front + [NUL] + "";
      }
    }
  }

  lemma WholeText(s: string)
    requires NUL !in s
    ensures CString(s) == s
  {
  }

  /** Only lists go into arrays and vectors, and only `null` and texts into
      character buffers; anything else leaves them as they were. */
  lemma OthersAreRefused(ty: Ty, was: Data, v: Value)
    requires WellFormed(ty) && HasType(was, ty)
    requires ((ty.Array? || ty.Vector?) && !v.List?) || (ty.Chars? && !v.Null? && !v.Str?)
    ensures !Accepts(ty, v) && Stored(ty, was, v) == was
  {
  }
}
