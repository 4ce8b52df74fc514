/** The two-way registry between parameters and their handles. */
module Handles {
  import opened Values

  /** `std::remove` followed by `erase`. */
  function Without<T(==)>(list: seq<T>, x: T): seq<T> {
    if |list| == 0 then []
    else (if list[0] == x then [] else [list[0]]) + Without(list[1..], x)
  }

  /** It removes every copy of `x` and nothing else. */
  lemma {:induction false} WithoutRemoves<T>(list: seq<T>, x: T)
    ensures multiset(Without(list, x)) == multiset(list)[x := 0]
  {
    if |list| > 0 {
      WithoutRemoves(list[1..], x);
      assert list == [list[0]] + list[1..];
    }
  }

  lemma {:induction false} WithoutKeeps<T>(list: seq<T>, x: T)
    ensures forall i :: 0 <= i < |Without(list, x)| ==> Without(list, x)[i] in list && Without(list, x)[i] != x
  {
    if |list| > 0 { WithoutKeeps(list[1..], x); }
  }

  lemma {:induction false} WithoutAbsent<T>(list: seq<T>, x: T)
    requires x !in list
    ensures Without(list, x) == list
  {
    if |list| > 0 { WithoutAbsent(list[1..], x); }
  }

  lemma {:induction false} WithoutSnoc<T>(list: seq<T>, y: T, x: T)
    ensures Without(list + [y], x) == Without(list, x) + (if y == x then [] else [y])
  {
    if |list| == 0 {
      assert list + [y] == [y];
      assert Without([y], x) == if y == x then [] else [y];
    } else {
      WithoutSnoc(list[1..], y, x);
      assert (list + [y])[1..] == list[1..] + [y];
      var head := if list[0] == x then [] else [list[0]];
      var last := if y == x then [] else [y];
      assert head + (Without(list[1..], x) + last) == (head + Without(list[1..], x)) + last;
    }
  }

  /** The part of `cci_param_untyped` that keeps the handle list. */
  class ParamNode {
    var handles: seq<ParamHandle>

    constructor ()
      ensures handles == []
    {
      handles := [];
    }

    method AddParamHandle(h: ParamHandle)
      modifies this
      ensures handles == old(handles) + [h]
    {
      handles := handles + [h];
    }

    method RemoveParamHandle(h: ParamHandle)
      modifies this
      ensures handles == Without(old(handles), h)
    {
      var kept := [];
      var i := 0;
      while i < |handles|
        invariant i <= |handles| && handles == old(handles)
        invariant kept == Without(handles[..i], h)
      {
        WithoutSnoc(handles[..i], handles[i], h);
        assert handles[..i + 1] == handles[..i] + [handles[i]];
        if handles[i] != h { kept := kept + [handles[i]]; }
        i := i + 1;
      }
      assert handles[..i] == handles;
      handles := kept;
    }
  }

  /** `cci_param_untyped_handle`: `param` is null for an invalid handle. */
  class ParamHandle {
    var param: ParamNode?
    const originator: Origin

    constructor Create(target: ParamNode?, origin: Origin)
      ensures param == target && originator == origin
    {
      param, originator := target, origin;
    }
  }

  /** Each handle is in the list of the parameter it points to, exactly once, and
      in no other list. */
  ghost predicate Linked(params: set<ParamNode>, handles: set<ParamHandle>)
    reads params, handles
  {
    && (forall h :: h in handles && h.param != null ==> h.param in params)
    && (forall p, h :: p in params && h in handles ==>
          multiset(p.handles)[h] == if h.param == p then 1 else 0)
    && (forall p, i :: p in params && 0 <= i < |p.handles| ==> p.handles[i] in handles)
  }

  ghost predicate Unlisted(params: set<ParamNode>, h: ParamHandle)
    reads params
  {
    forall p :: p in params ==> multiset(p.handles)[h] == 0
  }

  /** The first half of an assignment: leave the list of the old parameter. */
  method Leave(h: ParamHandle, ghost params: set<ParamNode>, ghost handles: set<ParamHandle>)
    requires Linked(params, handles) && h in handles
    modifies h.param
    ensures Linked(params, handles - {h}) && Unlisted(params, h)
    ensures h.param != null ==> h.param.handles == Without(old(h.param.handles), h)
  {
    if h.param != null {
      WithoutRemoves(h.param.handles, h);
      WithoutKeeps(h.param.handles, h);
      h.param.RemoveParamHandle(h);
    }
  }

  lemma SnocCounts<T>(list: seq<T>, x: T)
    ensures forall y :: y in list || y == x ==> multiset(list + [x])[y] == multiset(list)[y] + if y == x then 1 else 0
  {
  }

  /** The second half: point to the new parameter and join its list. */
  method Join(h: ParamHandle, target: ParamNode?, ghost params: set<ParamNode>, ghost handles: set<ParamHandle>)
    requires Linked(params, handles - {h}) && Unlisted(params, h)
    requires target != null ==> target in params
    modifies h, target
    ensures Linked(params, handles + {h}) && h.param == target
    ensures target == null ==> Unlisted(params, h)
    ensures target != null ==> target.handles == old(target.handles) + [h]
  {
    h.param := target;
    if h.param != null {
      h.param.AddParamHandle(h);
      SnocCounts(old(target.handles), h);
      forall p, k | p in params && k in handles + {h}
        ensures multiset(p.handles)[k] == if k.param == p then 1 else 0
      {
        if p != target {
          assert p.handles == old(p.handles);
        }
      }
    }
  }

  /** Construction from a parameter, and copy construction from a handle. */
  method NewHandle(target: ParamNode?, origin: Origin, ghost params: set<ParamNode>, ghost handles: set<ParamHandle>)
    returns (h: ParamHandle)
    requires Linked(params, handles) && (target != null ==> target in params)
    modifies target
    ensures fresh(h) && h.param == target && h.originator == origin
    ensures target != null ==> target.handles == old(target.handles) + [h]
    ensures Linked(params, handles + {h})
  {
    h := new ParamHandle.Create(null, origin);
    assert forall p :: p in params ==> h !in p.handles;
    assert handles - {h} == handles;
    Join(h, target, params, handles);
  }

  /** `invalidate`, which is also what the destructor of a handle does. */
  method Invalidate(h: ParamHandle, ghost params: set<ParamNode>, ghost handles: set<ParamHandle>)
    requires Linked(params, handles) && h in handles
    modifies h, h.param
    ensures Linked(params, handles) && Unlisted(params, h)
    ensures h.param == null
    ensures old(h.param) != null ==> old(h.param).handles == Without(old(h.param.handles), h)
  {
    Leave(h, params, handles);
    Join(h, null, params, handles);
    assert handles + {h} == handles;
  }

  /** Destruction of a handle. */
  method DestroyHandle(h: ParamHandle, ghost params: set<ParamNode>, ghost handles: set<ParamHandle>)
    requires Linked(params, handles) && h in handles
    modifies h, h.param
    ensures Linked(params, handles - {h})
    ensures forall p :: p in params ==> h !in p.handles
    ensures old(h.param) != null ==> old(h.param).handles == Without(old(h.param.handles), h)
  {
    Invalidate(h, params, handles);
  }

  /** Assignment. Self-assignment does nothing; assignment from another handle of
      the same parameter moves the handle to the end of the list. */
  method Assign(h: ParamHandle, from: ParamHandle, ghost params: set<ParamNode>, ghost handles: set<ParamHandle>)
    requires Linked(params, handles) && h in handles && from in handles
    modifies h, h.param, from.param
    ensures Linked(params, handles)
    ensures h.param == old(from.param)
    ensures from != h ==> from.param == old(from.param)
    ensures from == h && h.param != null ==> h.param.handles == old(h.param.handles)
    ensures from != h && h.param != null ==>
              h.param.handles == Without(old(from.param.handles), h) + [h]
    ensures old(h.param) != null && old(h.param) != h.param ==>
              old(h.param).handles == Without(old(h.param.handles), h)
  {
    if h == from {
      return;
    }
    if h.param != from.param && from.param != null {
      WithoutAbsent(from.param.handles, h);
    }
    Leave(h, params, handles);
    Join(h, from.param, params, handles);
    assert handles + {h} == handles;
  }

  /** `invalidate_all_param_handles`: each turn invalidates the front handle, which
      removes itself from the list. */
  method InvalidateAll(p: ParamNode, ghost params: set<ParamNode>, ghost handles: set<ParamHandle>)
    requires Linked(params, handles) && p in params
    modifies p, p.handles
    ensures Linked(params, handles)
    ensures p.handles == []
    ensures forall h :: h in handles ==> h.param == if old(h.param) == p then null else old(h.param)
  {
    ghost var start := p.handles;
    while |p.handles| != 0
      invariant Linked(params, handles)
      invariant forall h :: h in p.handles ==> h in start
      invariant forall h :: h in handles && h.param != null ==> h.param == old(h.param)
      invariant forall h :: h in handles && h.param == null ==> old(h.param) == null || old(h.param) == p
      decreases |p.handles|
    {
      var front := p.handles[0];
      FrontPoints(p, params, handles);
      Invalidate(front, params, handles);
    }
    forall h | h in handles
      ensures h.param == if old(h.param) == p then null else old(h.param)
    {
      assert multiset(p.handles)[h] == 0;
    }
  }

  lemma FrontPoints(p: ParamNode, params: set<ParamNode>, handles: set<ParamHandle>)
    requires Linked(params, handles) && p in params && |p.handles| > 0
    ensures p.handles[0] in handles && p.handles[0].param == p
    ensures Without(p.handles, p.handles[0]) == p.handles[1..]
  {
    var front := p.handles[0];
    assert front in p.handles;
    assert p.handles == [front] + p.handles[1..];
    assert multiset(p.handles)[front] == 1 + multiset(p.handles[1..])[front];
    assert front !in p.handles[1..];
    WithoutAbsent(p.handles[1..], front);
  }

  /** `destroy` and the destructor: the list is empty when the destructor checks
      it, and no handle still points to the parameter. */
  method DestroyParam(p: ParamNode, ghost params: set<ParamNode>, ghost handles: set<ParamHandle>)
    requires Linked(params, handles) && p in params
    modifies p, p.handles
    ensures Linked(params - {p}, handles)
    ensures p.handles == []
    ensures forall h :: h in handles ==> h.param == if old(h.param) == p then null else old(h.param)
  {
    InvalidateAll(p, params, handles);
    assert |p.handles| == 0;
  }
}
