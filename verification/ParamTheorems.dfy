/** Theorems about single calls: writes are all or nothing, callbacks fire once
    and in order, and the log explains every value. */
module ParamTheorems {
  import opened Values
  import opened ParamMachine
  import opened ParamRule
  import opened ParamLaws

  /** A dispatch that is not nested fires every callback once and in order; only a
      throw stops it early. In a write list all get the same payload. */
  lemma DispatchFiresInOrder(w: World, p: nat, kind: Kind, was: Value, v: Value, origin: Origin)
    requires Healthy(w) && p < |w.params| && Slot(p, kind) !in w.on
    ensures LoopAdds(w, Exec(w, Dispatch(p, kind, was, v, origin)), Slot(p, kind), 0,
                     |w.setup.decls[p].callbacks.Of(kind)|, true,
                     Event(if kind.PreWrite? then w.params[p].value else was, v, origin))
    ensures kind.PreWrite? ==> Untouched(w, Exec(w, Dispatch(p, kind, was, v, origin)).w, p)
  {
    var slot := Slot(p, kind);
    var r := Exec(w, Dispatch(p, kind, was, v, origin));
    DispatchBody(w, p, kind, was, v, origin);
    EveryCallRespects(w, Dispatch(p, kind, was, v, origin));
    var c := From(p, kind, 0, true, was, v, origin);
    if |w.setup.decls[p].callbacks.Of(kind)| > 0 {
      LoopFires(Mark(w, slot), p, kind, 0, true, was, v, origin);
      if kind.PreWrite? { LoopLeavesUntouched(Mark(w, slot), p, 0, true, was, v, origin); }
    } else {
      FromBody(Mark(w, slot), p, kind, 0, true, was, v, origin);
      assert r.w == w;
    }
  }

  /** Does every pre-write callback of `p` pass the write, in a dispatch that is
      not nested? `w'` is the state after it. */
  ghost predicate Passed(w: World, p: nat, w': World)
    requires p < |w.params|
  {
    var slot := Slot(p, PreWrite);
    && slot !in w.on
    && Votes(w.log, slot) <= Votes(w'.log, slot)
    && |Votes(w'.log, slot)| == |Votes(w.log, slot)| + |w.setup.decls[p].callbacks.preWrite|
    && AllYes(Votes(w'.log, slot)[|Votes(w.log, slot)|..])
  }

  /** Do the mutability, the lock and every pre-write callback admit this write? */
  ghost predicate Admitted(w: World, p: nat, key: Option<Key>, w': World)
    requires p < |w.params|
  {
    w.setup.decls[p].isMutable && KeyFits(w.params[p], key) && Passed(w, p, w')
  }

  /** Right after the pre-write callbacks, the old value gave way to `v`. */
  ghost predicate CommitsAfter(w: World, pre: World, p: nat, v: Value, origin: Origin, w': World)
    requires p < |w.params|
  {
    pre.log + [Committed(p, w.params[p].value, v, origin)] <= w'.log
  }

  /** The part that all writes share, presets included: it commits exactly when
      every pre-write callback passes it and none throws. Otherwise value and
      origin stay. */
  lemma StoreIsAllOrNothing(w: World, p: nat, v: Value, origin: Origin)
    requires Healthy(w) && p < |w.params|
    ensures
      var pre := Exec(w, Dispatch(p, PreWrite, v, v, origin));
      var r := Exec(w, Store(p, v, origin));
      if Passed(w, p, pre.w) && !pre.response.Raised? then
        CommitsAfter(w, pre.w, p, v, origin, r.w) && !r.response.No?
      else
        Untouched(w, r.w, p) && !r.response.Ok?
  {
    var slot := Slot(p, PreWrite);
    StoreBody(w, p, v, origin);
    if slot in w.on {
      DispatchBody(w, p, PreWrite, v, v, origin);
    } else {
      DispatchFiresInOrder(w, p, PreWrite, v, v, origin);
    }
  }

  /** A write through a handle or by the owner commits exactly when it is admitted
      and no pre-write callback throws. Otherwise value and origin stay. */
  lemma WriteIsAllOrNothing(w: World, p: nat, v: Value, key: Option<Key>, origin: Origin)
    requires Healthy(w) && p < |w.params|
    ensures
      var pre := Exec(w, Dispatch(p, PreWrite, v, v, origin));
      var r := Exec(w, SetRaw(p, v, key, origin));
      if Admitted(w, p, key, pre.w) && !pre.response.Raised? then
        CommitsAfter(w, pre.w, p, v, origin, r.w) && !r.response.No?
      else
        Untouched(w, r.w, p) && !r.response.Ok?
  {
    SetRawBody(w, p, v, key, origin);
    StoreIsAllOrNothing(w, p, v, origin);
  }

  /** A reset commits exactly when the parameter is not locked, every pre-write
      callback passes it and none throws; mutability is not asked. Otherwise value
      and origin stay. The answer tells a refused default from an accepted one,
      but not a refused preset. */
  lemma ResetIsAllOrNothing(w: World, p: nat, caught: bool)
    requires Healthy(w) && p < |w.params|
    ensures
      var d := w.setup.decls[p];
      var to := if p in w.setup.presets then w.setup.presets[p] else Preset(d.defaultValue, d.originator);
      var pre := Exec(w, Dispatch(p, PreWrite, to.value, to.value, to.origin));
      var r := Exec(w, Act(Reset(p, caught)));
      if w.params[p].lockPwd.Some? then
        r == Result(w, No)
      else if Passed(w, p, pre.w) && !pre.response.Raised? then
        CommitsAfter(w, pre.w, p, to.value, to.origin, r.w) && !r.response.No?
      else
        Untouched(w, r.w, p) && (p in w.setup.presets || !r.response.Ok?) && (p in w.setup.presets ==> !r.response.No?)
  {
    var to := ResetTo(w, p);
    if w.params[p].lockPwd.Some? {
      ActBody(w, Reset(p, caught));
    } else {
      ResetStores(w, p, caught);
      StoreIsAllOrNothing(w, p, to.value, to.origin);
    }
  }

  /** The parts of a write that commits and is not cut short. */
  lemma SuccessfulStore(w: World, p: nat, v: Value, origin: Origin)
    requires p < |w.params| && Exec(w, Store(p, v, origin)).response.Ok?
    ensures
      var pre := Exec(w, Dispatch(p, PreWrite, v, v, origin));
      var post := Exec(Commit(pre.w, p, v, origin), Dispatch(p, PostWrite, pre.w.params[p].value, v, origin));
      && pre.response.Ok? && !post.response.Raised?
      && Exec(w, Store(p, v, origin)).w.log == post.w.log
  {
    StoreBody(w, p, v, origin);
  }

  /** The firings of the post-write list during `log' - log` of a write of `v`. */
  ghost predicate FiresPost(w: World, pre: World, p: nat, v: Value, origin: Origin, w': World)
    requires p < |w.params|
  {
    var slot := Slot(p, PostWrite);
    Fires(w'.log, slot) ==
    Fires(pre.log, slot) + Row(slot, |w.setup.decls[p].callbacks.postWrite|, Event(w.params[p].value, v, origin))
  }

  /** An outermost write that succeeds, a preset or not, fires each post-write
      callback once, in order, with the old and the new value. */
  lemma StoreFiresPostCallbacks(w: World, p: nat, v: Value, origin: Origin)
    requires Healthy(w) && p < |w.params| && Slot(p, PostWrite) !in w.on
    requires Exec(w, Store(p, v, origin)).response.Ok?
    ensures FiresPost(w, Exec(w, Dispatch(p, PreWrite, v, v, origin)).w, p, v, origin, Exec(w, Store(p, v, origin)).w)
  {
    SuccessfulStore(w, p, v, origin);
    var d := Dispatch(p, PreWrite, v, v, origin);
    var pre := Exec(w, d).w;
    EveryCallRespects(w, d);
    assert pre.params[p].value == w.params[p].value by {
      if Slot(p, PreWrite) !in w.on { DispatchFiresInOrder(w, p, PreWrite, v, v, origin); }
    }
    CommitIsHealthy(pre, p, v, origin);
    var w1 := Commit(pre, p, v, origin);
    assert Fires(w1.log, Slot(p, PostWrite)) == Fires(pre.log, Slot(p, PostWrite)) by {
      NoteReads(Put(pre, p, pre.params[p].(value := v, valueOrigin := origin)),
                Committed(p, pre.params[p].value, v, origin), Slot(p, PostWrite));
    }
    PostFires(w1, p, w.params[p].value, v, origin);
  }

  lemma WriteFiresPostCallbacks(w: World, p: nat, v: Value, key: Option<Key>, origin: Origin)
    requires Healthy(w) && p < |w.params| && Slot(p, PostWrite) !in w.on
    requires Exec(w, SetRaw(p, v, key, origin)).response.Ok?
    ensures FiresPost(w, Exec(w, Dispatch(p, PreWrite, v, v, origin)).w, p, v, origin,
                      Exec(w, SetRaw(p, v, key, origin)).w)
  {
    SetRawBody(w, p, v, key, origin);
    StoreFiresPostCallbacks(w, p, v, origin);
  }

  lemma RestoreFiresNothing(w: World, pre: World, p: nat, v: Value, origin: Origin, w': World)
    requires p < |w.params| && p in w'.setup.presets && FiresPost(w, pre, p, v, origin, w')
    ensures FiresPost(w, pre, p, v, origin, Restore(w', p))
  {
    NoteReads(w', Restored(p, w'.setup.presets[p].origin), Slot(p, PostWrite));
  }

  /** A reset that commits and throws nothing does so too. */
  lemma ResetFiresPostCallbacks(w: World, p: nat, caught: bool)
    requires Healthy(w) && p < |w.params| && Slot(p, PostWrite) !in w.on && w.params[p].lockPwd.None?
    requires
      var d := w.setup.decls[p];
      var to := if p in w.setup.presets then w.setup.presets[p] else Preset(d.defaultValue, d.originator);
      Passed(w, p, Exec(w, Dispatch(p, PreWrite, to.value, to.value, to.origin)).w)
    requires Exec(w, Act(Reset(p, caught))).response.Ok?
    ensures
      var d := w.setup.decls[p];
      var to := if p in w.setup.presets then w.setup.presets[p] else Preset(d.defaultValue, d.originator);
      FiresPost(w, Exec(w, Dispatch(p, PreWrite, to.value, to.value, to.origin)).w, p, to.value, to.origin,
                Exec(w, Act(Reset(p, caught))).w)
  {
    hide FiresPost, Restore, Exec;
    var to := ResetTo(w, p);
    var pre, r := Exec(w, Dispatch(p, PreWrite, to.value, to.value, to.origin)), Exec(w, Store(p, to.value, to.origin));
    ResetStores(w, p, caught);
    assert r.response.Ok? by {
      DispatchFiresInOrder(w, p, PreWrite, to.value, to.value, to.origin);
      StoreBody(w, p, to.value, to.origin);
    }
    StoreFiresPostCallbacks(w, p, to.value, to.origin);
    if p in w.setup.presets {
      RestoreFiresNothing(w, pre.w, p, to.value, to.origin, r.w);
    }
  }

  lemma PostFires(w: World, p: nat, was: Value, v: Value, origin: Origin)
    requires Healthy(w) && p < |w.params| && Slot(p, PostWrite) !in w.on
    requires !Exec(w, Dispatch(p, PostWrite, was, v, origin)).response.Raised?
    ensures
      var slot := Slot(p, PostWrite);
      Fires(Exec(w, Dispatch(p, PostWrite, was, v, origin)).w.log, slot)
      == Fires(w.log, slot) + Row(slot, |w.setup.decls[p].callbacks.postWrite|, Event(was, v, origin))
  {
    DispatchFiresInOrder(w, p, PostWrite, was, v, origin);
    var slot := Slot(p, PostWrite);
    var fires, fires' := Fires(w.log, slot), Fires(Exec(w, Dispatch(p, PostWrite, was, v, origin)).w.log, slot);
    WriteRow(fires'[|fires|..], slot, Event(was, v, origin));
  }

  /** The firings of list `kind` of `p` on the way from `w` to `w'`: every callback
      once and in order, on behalf of `origin`, each told the value it finds. */
  ghost predicate FiresRead(w: World, p: nat, kind: Kind, origin: Origin, w': World)
    requires p < |w.params|
  {
    var slot := Slot(p, kind);
    var fires, fires' := Fires(w.log, slot), Fires(w'.log, slot);
    && fires <= fires'
    && |fires'| - |fires| == |w.setup.decls[p].callbacks.Of(kind)|
    && IsRow(fires'[|fires|..], slot, 0, Event(w.params[p].value, w.params[p].value, origin))
  }

  /** An outermost read that throws nothing fires first each pre-read and then each
      post-read callback once and in order, and answers with the value at its end. */
  lemma ReadFiresCallbacks(w: World, p: nat, origin: Origin)
    requires Healthy(w) && p < |w.params| && Slot(p, PreRead) !in w.on && Slot(p, PostRead) !in w.on
    requires !Exec(w, Fetch(p, origin)).response.Raised?
    ensures
      var v := w.params[p].value;
      var pre := Exec(w, Dispatch(p, PreRead, v, v, origin)).w;
      var r := Exec(w, Fetch(p, origin));
      && FiresRead(w, p, PreRead, origin, pre)
      && FiresRead(pre, p, PostRead, origin, r.w)
      && r.response == Val(r.w.params[p].value)
  {
    var v := w.params[p].value;
    FetchBody(w, p, origin);
    EveryCallRespects(w, Dispatch(p, PreRead, v, v, origin));
    DispatchFiresInOrder(w, p, PreRead, v, v, origin);
    DispatchFiresInOrder(Exec(w, Dispatch(p, PreRead, v, v, origin)).w, p, PostRead, v, v, origin);
  }

  /** A nested write or reset of a parameter, made while its pre-write callbacks
      run, never takes effect. */
  lemma NestedWriteIsIgnored(w: World, a: Action)
    requires Healthy(w) && a.target < |w.params| && Slot(a.target, PreWrite) in w.on
    ensures SameValue(w.params[a.target], Exec(w, Act(a)).w.params[a.target])
    ensures (a.Set? || a.Assign?) ==> !Exec(w, Act(a)).response.Ok?
  {
    EveryCallRespects(w, Act(a));
    var p := a.target;
    if a.Set? {
      WriteIsAllOrNothing(w, p, a.value, a.key, a.origin);
    } else if a.Assign? {
      WriteIsAllOrNothing(w, p, a.value, None, w.setup.decls[p].originator);
    }
  }
}
