/** The range that skips the elements its predicate refuses. */
module FilteredRange {

  // ------------------------------------------------------- specification

  function Filter<T>(items: seq<T>, accepts: T -> bool): seq<T> {
    if |items| == 0 then []
    else (if accepts(items[0]) then [items[0]] else []) + Filter(items[1..], accepts)
  }

  function Reversed<T>(s: seq<T>): seq<T> {
    if |s| == 0 then [] else Reversed(s[1..]) + [s[0]]
  }

  /** The first accepted position from `i` on, or the end. */
  function Next<T>(items: seq<T>, accepts: T -> bool, i: nat): (j: nat)
    requires i <= |items|
    ensures i <= j <= |items|
    ensures j < |items| ==> accepts(items[j])
    ensures forall k :: i <= k < j ==> !accepts(items[k])
    decreases |items| - i
  {
    if i == |items| || accepts(items[i]) then i else Next(items, accepts, i + 1)
  }

  /** The last accepted position up to `i`, or the beginning. */
  function Prev<T>(items: seq<T>, accepts: T -> bool, begin: nat, i: nat): (j: nat)
    requires begin <= i <= |items|
    requires i < |items| || begin == i
    ensures begin <= j <= i
    ensures j > begin ==> accepts(items[j])
    ensures forall k :: j < k <= i ==> !accepts(items[k])
  {
    if i == begin || accepts(items[i]) then i else Prev(items, accepts, begin, i - 1)
  }

  // ------------------------------------------------------------ the code

  class Range<T> {
    const accepts: T -> bool
    const container: seq<T>
    var begin: nat

    ghost predicate Valid()
      reads this
    {
      begin == Next(container, accepts, 0)
    }

    constructor (accepts: T -> bool, container: seq<T>)
      ensures Valid()
      ensures this.accepts == accepts && this.container == container
    {
      this.accepts := accepts;
      this.container := container;
      begin := 0;
      new;
      // init()
      if begin != |container| && !accepts(container[begin]) {
        var first := new Cursor(begin, this);
        first.Increment();
        begin := first.current;
      }
    }

    method Begin() returns (it: Cursor<T>)
      ensures fresh(it) && it.range == this && it.current == begin
    {
      it := new Cursor(begin, this);
    }

    /** The end carries no range, so stepping it does nothing. */
    method End() returns (it: Cursor<T>)
      ensures fresh(it) && it.range == null && it.current == |container|
    {
      it := new Cursor(|container|, null);
    }

    /** The base of `rbegin()`; the base of `rend()` is that of `begin()`. */
    method RBegin() returns (it: Cursor<T>)
      ensures fresh(it) && it.range == this && it.current == |container|
    {
      it := new Cursor(|container|, this);
    }
  }

  class Cursor<T> {
    var current: nat
    const range: Range?<T>

    constructor (current: nat, range: Range?<T>)
      ensures this.current == current && this.range == range
    {
      this.current := current;
      this.range := range;
    }

    method Increment()
      requires range != null ==> current <= |range.container|
      modifies this
      ensures range == null ==> current == old(current)
      ensures range != null ==>
                var n := |range.container|;
                current == Next(range.container, range.accepts, if old(current) < n then old(current) + 1 else n)
    {
      if range != null {
        if current != |range.container| {
          current := current + 1;
        }
        while current != |range.container| && !range.accepts(range.container[current])
          invariant current <= |range.container|
          invariant Next(range.container, range.accepts, current)
                    == var n := |range.container|;
                       Next(range.container, range.accepts, if old(current) < n then old(current) + 1 else n)
          decreases |range.container| - current
        {
          current := current + 1;
        }
      }
    }

    method Decrement()
      requires range != null ==> range.begin <= current <= |range.container|
      modifies this
      ensures range == null ==> current == old(current)
      ensures range != null ==>
                var from := if old(current) > range.begin then old(current) - 1 else range.begin;
                current == Prev(range.container, range.accepts, range.begin, from)
    {
      if range != null {
        if current != range.begin {
          current := current - 1;
        }
        while current != range.begin && !range.accepts(range.container[current])
          invariant range.begin <= current <= |range.container|
          invariant current < |range.container| || current == range.begin
          invariant Prev(range.container, range.accepts, range.begin, current)
                    == var from := if old(current) > range.begin then old(current) - 1 else range.begin;
                       Prev(range.container, range.accepts, range.begin, from)
          decreases current
        {
          current := current - 1;
        }
      }
    }
  }

  /** The loop from `begin()` to `end()`. */
  method Enumerate<T(==)>(range: Range<T>) returns (seen: seq<T>)
    requires range.Valid()
    ensures seen == Filter(range.container, range.accepts)
  {
    seen := [];
    var it := range.Begin();
    var end := range.End();
    ghost var items := range.container;
    FilterFromNext(items, range.accepts, 0);
    while it.current != end.current
      invariant fresh(it) && fresh(end) && it != end
      invariant it.range == range && end.current == |items|
      invariant it.current <= |items| && it.current == Next(items, range.accepts, it.current)
      invariant seen + Filter(items[it.current..], range.accepts) == Filter(items, range.accepts)
      decreases |items| - it.current
    {
      ghost var before := it.current;
      FilterFromNext(items, range.accepts, before + 1);
      assert items[before..][1..] == items[before + 1..];
      seen := seen + [range.container[it.current]];
      it.Increment();
    }
  }

  /** The loop from `rbegin()` to `rend()`: a reverse iterator shows the element
      before its base, so looking and stepping both decrement. */
  method EnumerateBackwards<T(==)>(range: Range<T>) returns (seen: seq<T>)
    requires range.Valid()
    ensures seen == Reversed(Filter(range.container, range.accepts))
  {
    seen := [];
    var it := range.RBegin();
    var end := range.Begin();
    ghost var items := range.container;
    assert items[..it.current] == items;
    while it.current != end.current
      invariant fresh(it) && fresh(end) && it != end
      invariant it.range == range && end.current == range.begin <= it.current <= |items|
      invariant it.current < |items| && it.current > range.begin ==> range.accepts(items[it.current])
      invariant seen + Reversed(Filter(items[..it.current], range.accepts)) == Reversed(Filter(items, range.accepts))
      decreases it.current
    {
      ghost var before := it.current;
      it.Decrement();
      LastAccepted(items, range.accepts, it.current, before);
      seen := seen + [range.container[it.current]];
    }
    NoneBefore(items, range.accepts, range.begin);
  }

  // -------------------------------------------------------------- lemmas

  lemma {:induction false} FilterConcat<T>(a: seq<T>, b: seq<T>, accepts: T -> bool)
    ensures Filter(a + b, accepts) == Filter(a, accepts) + Filter(b, accepts)
  {
    if |a| == 0 {
      assert a + b == b;
    } else {
      FilterConcat(a[1..], b, accepts);
      assert (a + b)[1..] == a[1..] + b;
    }
  }

  lemma {:induction false} FilterNone<T>(s: seq<T>, accepts: T -> bool)
    requires forall i :: 0 <= i < |s| ==> !accepts(s[i])
    ensures Filter(s, accepts) == []
  {
    if |s| > 0 { FilterNone(s[1..], accepts); }
  }

  lemma {:induction false} ReversedSnoc<T>(s: seq<T>, x: T)
    ensures Reversed(s + [x]) == [x] + Reversed(s)
  {
    if |s| > 0 {
      ReversedSnoc(s[1..], x);
      assert (s + [x])[1..] == s[1..] + [x];
    } else {
      assert s + [x] == [x];
    }
  }

  lemma FilterFromNext<T>(items: seq<T>, accepts: T -> bool, i: nat)
    requires i <= |items|
    ensures Filter(items[i..], accepts) == Filter(items[Next(items, accepts, i)..], accepts)
  {
    var j := Next(items, accepts, i);
    assert items[i..] == items[i..j] + items[j..];
    FilterConcat(items[i..j], items[j..], accepts);
    FilterNone(items[i..j], accepts);
  }

  lemma NoneBefore<T>(items: seq<T>, accepts: T -> bool, begin: nat)
    requires begin == Next(items, accepts, 0)
    ensures Filter(items[..begin], accepts) == []
  {
    FilterNone(items[..begin], accepts);
  }

  lemma LastAccepted<T>(items: seq<T>, accepts: T -> bool, j: nat, i: nat)
    requires j < i <= |items| && accepts(items[j])
    requires forall k :: j < k < i ==> !accepts(items[k])
    ensures Reversed(Filter(items[..i], accepts)) == [items[j]] + Reversed(Filter(items[..j], accepts))
  {
    var upto, skipped := items[..j], items[j + 1..i];
    assert items[..i] == (upto + [items[j]]) + skipped;
    FilterConcat(upto + [items[j]], skipped, accepts);
    FilterConcat(upto, [items[j]], accepts);
    FilterNone(skipped, accepts);
    assert Filter([items[j]], accepts) == [items[j]];
    assert Filter(items[..i], accepts) == Filter(upto, accepts) + [items[j]];
    ReversedSnoc(Filter(upto, accepts), items[j]);
  }

  /** One step forwards, as `++` takes it. */
  function Forwards<T>(items: seq<T>, accepts: T -> bool, i: nat): nat
    requires i <= |items|
  {
    Next(items, accepts, if i < |items| then i + 1 else |items|)
  }

  /** One step backwards, as `--` takes it. */
  function Backwards<T>(items: seq<T>, accepts: T -> bool, i: nat): nat
    requires Next(items, accepts, 0) <= i <= |items|
  {
    var begin := Next(items, accepts, 0);
    Prev(items, accepts, begin, if i > begin then i - 1 else begin)
  }

  /** Between accepted positions the steps undo each other: `--` undoes `++`
      everywhere but at the end, `++` undoes `--` everywhere but at the begin. */
  lemma StepsAreInverse<T>(items: seq<T>, accepts: T -> bool, i: nat)
    requires i <= |items| && (i < |items| ==> accepts(items[i]))
    ensures i < |items| <==>
            Backwards(items, accepts, Forwards(items, accepts, i)) == i && Forwards(items, accepts, i) != i
    ensures i > Next(items, accepts, 0) <==>
            Forwards(items, accepts, Backwards(items, accepts, i)) == i && Backwards(items, accepts, i) != i
  {
  }

  lemma BeginIsEndOnlyIfNothingIsAccepted<T>(items: seq<T>, accepts: T -> bool)
    ensures Next(items, accepts, 0) == |items| <==> Filter(items, accepts) == []
  {
  }

  /** The filter keeps the accepted elements, as often as they occur. */
  lemma {:induction false} FilterCounts<T>(items: seq<T>, accepts: T -> bool, x: T)
    ensures multiset(Filter(items, accepts))[x] == if accepts(x) then multiset(items)[x] else 0
  {
    if |items| > 0 {
      FilterCounts(items[1..], accepts, x);
      assert items == [items[0]] + items[1..];
      var head: seq<T> := if accepts(items[0]) then [items[0]] else [];
      assert multiset(Filter(items, accepts)) == multiset(head) + multiset(Filter(items[1..], accepts));
    }
  }

  lemma {:induction false} FilterTwice<T>(items: seq<T>, one: T -> bool, other: T -> bool, both: T -> bool)
    requires forall i :: 0 <= i < |items| ==> both(items[i]) == (one(items[i]) && other(items[i]))
    ensures Filter(Filter(items, one), other) == Filter(items, both)
  {
    if |items| > 0 {
      var rest := Filter(items[1..], one);
      FilterTwice(items[1..], one, other, both);
      if one(items[0]) {
        assert Filter(items, one) == [items[0]] + rest;
        assert ([items[0]] + rest)[1..] == rest;
      } else {
        assert [] + rest == rest;
      }
    }
  }
}

/** The presets that no parameter has taken up yet. */
module UnconsumedPresets {
  import opened Values
  import opened FilteredRange

  type Preset = (string, Value)
  type Choice = Preset -> bool

  predicate Wanted(ignored: seq<Choice>, p: Preset) {
    forall i :: 0 <= i < |ignored| ==> !ignored[i](p)
  }

  /** The unused entries in map order, without the ones an ignore predicate
      accepts. */
  method GetUnconsumedPresetValues(unused: seq<Preset>, ignored: seq<Choice>) returns (r: seq<Preset>)
    ensures r == Filter(unused, p => Wanted(ignored, p))
  {
    r := [];
    var n := 0;
    while n < |unused|
      invariant 0 <= n <= |unused|
      invariant r == Filter(unused[..n], p => Wanted(ignored, p))
    {
      var i := 0;
      while i != |ignored|
        invariant 0 <= i <= |ignored|
        invariant forall k :: 0 <= k < i ==> !ignored[k](unused[n])
      {
        if ignored[i](unused[n]) {
          break;
        }
        i := i + 1;
      }
      assert unused[..n + 1] == unused[..n] + [unused[n]];
      FilterConcat(unused[..n], [unused[n]], p => Wanted(ignored, p));
      if i == |ignored| {
        r := r + [unused[n]];
      }
      n := n + 1;
    }
    assert unused[..n] == unused;
  }

  /** Does the sequence list the map, every name once? */
  ghost predicate ListsMap(unused: map<string, Value>, entries: seq<Preset>) {
    && (forall i :: 0 <= i < |entries| ==> entries[i].0 in unused && unused[entries[i].0] == entries[i].1)
    && (forall name :: name in unused ==> (name, unused[name]) in entries)
    && (forall i, j :: 0 <= i < j < |entries| ==> entries[i].0 != entries[j].0)
  }

  /** `get_unconsumed_preset_values(pred)`, enumerated. */
  method ListUnconsumed(unused: seq<Preset>, ignored: seq<Choice>, pred: Choice) returns (r: seq<Preset>)
    ensures r == Filter(unused, p => Wanted(ignored, p) && pred(p))
  {
    var values := GetUnconsumedPresetValues(unused, ignored);
    var range := new Range(pred, values);
    r := Enumerate(range);
    FilterTwice(unused, p => Wanted(ignored, p), pred, p => Wanted(ignored, p) && pred(p));
  }

  /** An entry is listed exactly once if it is an unused preset that is wanted
      and chosen, and not at all otherwise. */
  lemma ListedOnce(unused: map<string, Value>, entries: seq<Preset>, ignored: seq<Choice>, pred: Choice, p: Preset)
    requires ListsMap(unused, entries)
    ensures multiset(Filter(entries, q => Wanted(ignored, q) && pred(q)))[p]
            == if p.0 in unused && unused[p.0] == p.1 && Wanted(ignored, p) && pred(p) then 1 else 0
  {
    FilterCounts(entries, q => Wanted(ignored, q) && pred(q), p);
    CountOnce(entries, p);
    assert p in entries <==> p.0 in unused && unused[p.0] == p.1;
  }

  lemma {:induction false} CountOnce(entries: seq<Preset>, p: Preset)
    requires forall i, j :: 0 <= i < j < |entries| ==> entries[i].0 != entries[j].0
    ensures multiset(entries)[p] == if p in entries then 1 else 0
  {
    if |entries| > 0 {
      CountOnce(entries[1..], p);
      assert entries == [entries[0]] + entries[1..];
      assert p == entries[0] ==> forall j :: 0 < j < |entries| ==> entries[j] != p;
    }
  }
}
