/** The fast paths of `set_value` and `get_value` do not change what a run does.
    Two machines run side by side: one obeys the cached flags, its twin always
    takes the whole protocol. */
module ParamFast {
  import opened Values
  import opened ParamMachine
  import opened ParamRule
  import opened ParamLaws
  import opened ParamRuns
  import opened ParamLog

  /** Every preset that resets have applied to `q` was set by the `owner`. */
  ghost predicate OwnRestores(log: seq<Entry>, q: nat, owner: Origin) {
    forall e :: e in log && e.Restored? && e.param == q ==> e.origin == owner
  }

  ghost predicate OwnOnly(w: World, q: nat)
    requires q < |w.params|
  {
    OwnRestores(w.log, q, w.setup.decls[q].originator)
  }

  lemma OneMoreEntry(log: seq<Entry>, e: Entry, q: nat, owner: Origin)
    ensures OwnRestores(log + [e], q, owner) <==>
            OwnRestores(log, q, owner) && (e.Restored? && e.param == q ==> e.origin == owner)
  {
  }

  predicate OriginKept(d: Decl, s: Param) {
    s.fastWrite ==> s.valueOrigin == d.originator
  }

  ghost predicate OriginsKept(w: World) {
    forall q :: 0 <= q < |w.params| && OwnOnly(w, q) ==> OriginKept(w.setup.decls[q], w.params[q])
  }

  /** The same state, but for the origin of the value unless `kept`. */
  predicate Alike(s: Param, s': Param, kept: bool) {
    s.(valueOrigin := s'.valueOrigin) == s' && (kept ==> s == s')
  }

  /** `t` is a state of the machine without fast paths that agrees with `w`, even in
      the origin of each value to whose parameter no stranger's preset was applied. */
  ghost predicate Twins(w: World, t: World) {
    && w.setup.fastPaths
    && t.setup == w.setup.(fastPaths := false)
    && t.on == w.on
    && t.log == w.log
    && |t.params| == |w.params|
    && (forall q :: 0 <= q < |w.params| ==> Alike(w.params[q], t.params[q], OwnOnly(w, q)))
  }

  ghost predicate Ready(w: World, t: World) {
    Twins(w, t) && Healthy(w) && OriginsKept(w)
  }

  ghost predicate Agree(r: Result, u: Result) {
    r.response == u.response && Ready(r.w, u.w)
  }

  lemma TwinsPut(w: World, t: World, p: nat, s: Param, s': Param)
    requires Ready(w, t) && p < |w.params| && Alike(s, s', OwnOnly(w, p))
    requires FlagsHold(w.setup.decls[p], s) && (OwnOnly(w, p) ==> OriginKept(w.setup.decls[p], s))
    ensures Ready(Put(w, p, s), Put(t, p, s'))
  {
  }

  lemma SameView(w: World, t: World, p: nat)
    requires Ready(w, t) && p < |w.params|
    ensures t.on == w.on && |t.params| == |w.params| && Free(t) == Free(w)
    ensures t.setup.decls == w.setup.decls && t.setup.throws == w.setup.throws
    ensures t.params[p].value == w.params[p].value && t.params[p].lockPwd == w.params[p].lockPwd
  {
  }

  lemma OwnOnlyAfter(w: World, e: Entry)
    ensures forall q :: 0 <= q < |w.params| ==>
      (OwnOnly(Note(w, e), q) <==>
         OwnOnly(w, q) && (e.Restored? && e.param == q ==> e.origin == w.setup.decls[q].originator))
  {
    hide OwnRestores;
    forall q | 0 <= q < |w.params|
      ensures OwnOnly(Note(w, e), q) <==>
        OwnOnly(w, q) && (e.Restored? && e.param == q ==> e.origin == w.setup.decls[q].originator)
    {
      OneMoreEntry(w.log, e, q, w.setup.decls[q].originator);
    }
  }

  lemma NotesReady(w: World, t: World, e: Entry)
    requires Ready(w, t)
    ensures Ready(Note(w, e), Note(t, e))
  {
    OwnOnlyAfter(w, e);
    hide OwnOnly;
  }

  lemma TagsReady(w: World, t: World, s: Slot)
    requires Ready(w, t)
    ensures s.param < |w.params| && |w.setup.decls[s.param].callbacks.Of(s.kind)| > 0 ==> Ready(Mark(w, s), Mark(t, s))
    ensures Ready(Unmark(w, s), Unmark(t, s))
  {
  }

  /** Every call gives the same answer, the same log and the same values with and
      without the fast paths. */
  lemma EveryCallAgrees(w: World, t: World, c: Call)
    requires Ready(w, t) && InRange(w, c) && !c.Store?
    requires c.From? ==> Slot(c.param, c.kind) in w.on
    ensures Agree(Exec(w, c), Exec(t, c))
    decreases Free(w), Rank(c), Work(w, c), 1
  {
    match c
    case Act(a) => ActAgrees(w, t, a);
    case SetRaw(p, v, key, origin) => SetRawAgrees(w, t, p, v, key, origin);
    case Fetch(p, origin) => FetchAgrees(w, t, p, origin);
    case Dispatch(p, kind, was, v, origin) => DispatchAgrees(w, t, p, kind, was, v, origin);
    case From(p, kind, i, ok, was, v, origin) => FromAgrees(w, t, p, kind, i, ok, was, v, origin);
    case Run(cb, ev, answers) => RunAgrees(w, t, cb, ev, answers);
  }

  lemma ActAgrees(w: World, t: World, a: Action)
    requires Ready(w, t)
    ensures Agree(ExecAct(w, a), ExecAct(t, a))
    decreases Free(w), 4, 0, 0
  {
    hide Exec;
    if a.target < |w.params| {
      var d := w.setup.decls[a.target];
      match a
      case Set(p, v, key, origin, _) => EveryCallAgrees(w, t, SetRaw(p, v, key, origin));
      case Get(p, origin, _) => EveryCallAgrees(w, t, Fetch(p, origin));
      case Assign(p, v, c) => AssignAgrees(w, t, p, v, c);
      case Use(p, _) =>
        if w.params[p].fastRead { FastReadAgrees(w, t, p); }
        else { EveryCallAgrees(w, t, Fetch(p, d.originator)); }
      case Reset(p, c) => ResetAgrees(w, t, p, c);
      case Lock(p, key, _) => LockAgrees(w, t, p, key);
      case Unlock(p, key, _) => LockAgrees(w, t, p, key);
    }
  }

  lemma LockAgrees(w: World, t: World, p: nat, key: Option<Key>)
    requires Ready(w, t) && p < |w.params|
    ensures Agree(LockParam(w, p, key), LockParam(t, p, key))
    ensures Agree(UnlockParam(w, p, key), UnlockParam(t, p, key))
  {
    TwinsPut(w, t, p, LockParam(w, p, key).w.params[p], LockParam(t, p, key).w.params[p]);
    TwinsPut(w, t, p, UnlockParam(w, p, key).w.params[p], UnlockParam(t, p, key).w.params[p]);
  }

  lemma AssignAgrees(w: World, t: World, p: nat, v: Value, caught: bool)
    requires Ready(w, t) && p < |w.params|
    ensures Agree(ExecAct(w, Assign(p, v, caught)), ExecAct(t, Assign(p, v, caught)))
    decreases Free(w), 3, 0, 2
  {
    hide Exec;
    if w.params[p].fastWrite {
      FastWriteAgrees(w, t, p, v);
    } else {
      EveryCallAgrees(w, t, SetRaw(p, v, None, w.setup.decls[p].originator));
    }
  }

  lemma ResetAgrees(w: World, t: World, p: nat, caught: bool)
    requires Ready(w, t) && p < |w.params|
    ensures Agree(ExecAct(w, Reset(p, caught)), ExecAct(t, Reset(p, caught)))
    decreases Free(w), 3, 0, 2
  {
    hide Exec, Healthy, OriginsKept, OwnOnly, Restore;
    if w.params[p].lockPwd.None? {
      var to := ResetTo(w, p);
      StoreAgrees(w, t, p, to.value, to.origin);
      var r, u := Exec(w, Store(p, to.value, to.origin)), Exec(t, Store(p, to.value, to.origin));
      if p in w.setup.presets && r.response.Ok? {
        RestoreAgrees(r.w, u.w, p);
      }
    }
  }

  lemma FastWriteAgrees(w: World, t: World, p: nat, v: Value)
    requires Ready(w, t) && p < |w.params| && w.params[p].fastWrite
    ensures Agree(ExecAct(w, Assign(p, v, false)), ExecAct(t, Assign(p, v, false)))
  {
    var origin := w.setup.decls[p].originator;
    assert Healthy(t);
    PlainStore(t, p, v, origin);
    var c := SetRaw(p, v, None, origin);
    SetRawBody(t, p, v, None, origin);
    var e := Committed(p, w.params[p].value, v, origin);
    var s := w.params[p].(value := v);
    var s' := t.params[p].(value := v, valueOrigin := origin, fastWrite := true);
    TwinsPut(w, t, p, s, s');
    assert Exec(t, c).w == Note(Put(t, p, s'), e);
    assert CommitFast(w, p, v) == Note(Put(w, p, s), e);
    NotesReady(Put(w, p, s), Put(t, p, s'), e);
  }

  lemma FastReadAgrees(w: World, t: World, p: nat)
    requires Ready(w, t) && p < |w.params| && w.params[p].fastRead
    ensures Agree(ExecAct(w, Use(p, false)), ExecAct(t, Use(p, false)))
  {
    var origin := w.setup.decls[p].originator;
    var v := t.params[p].value;
    EmptyDispatch(t, p, PreRead, v, v, origin);
    EmptyDispatch(t, p, PostRead, v, v, origin);
    FetchBody(t, p, origin);
    assert RefreshFastRead(t, p) == t;
  }

  lemma SetRawAgrees(w: World, t: World, p: nat, v: Value, key: Option<Key>, origin: Origin)
    requires Ready(w, t) && p < |w.params|
    ensures Agree(ExecSetRaw(w, p, v, key, origin), ExecSetRaw(t, p, v, key, origin))
    decreases Free(w), 3, 0, 0
  {
    hide Exec;
    if w.setup.decls[p].isMutable && KeyFits(w.params[p], key) {
      StoreAgrees(w, t, p, v, origin);
      var r, u := Exec(w, Store(p, v, origin)), Exec(t, Store(p, v, origin));
      if r.response.Ok? {
        RefreshAgrees(r.w, u.w, p, origin);
      }
    }
  }

  ghost predicate OriginsKeptBut(w: World, p: nat) {
    forall q :: 0 <= q < |w.params| && q != p && OwnOnly(w, q) ==> OriginKept(w.setup.decls[q], w.params[q])
  }

  /** After a write a stranger's origin may stand beside the flag `fast_write`
      until `set_raw_value` has refreshed that flag or `reset` has noted it. */
  ghost predicate Stored(w: World, t: World, p: nat, origin: Origin)
    requires p < |w.params|
  {
    && Twins(w, t) && Healthy(w) && OriginsKeptBut(w, p)
    && (w.setup.decls[p].callbacks.preWrite == w.setup.decls[p].callbacks.postWrite == [] ==>
          w.params[p].valueOrigin == origin)
  }

  lemma RestoreAgrees(w: World, t: World, p: nat)
    requires p < |w.params| && Stored(w, t, p, ResetTo(w, p).origin) && p in w.setup.presets
    requires ResetTo(w, p).origin == w.setup.decls[p].originator ==> Ready(w, t)
    ensures Ready(Restore(w, p), Restore(t, p))
  {
    OwnOnlyAfter(w, Restored(p, w.setup.presets[p].origin));
    hide OwnOnly;
  }

  lemma RefreshAgrees(w: World, t: World, p: nat, origin: Origin)
    requires p < |w.params| && Stored(w, t, p, origin)
    ensures Ready(RefreshFastWrite(w, p, origin), RefreshFastWrite(t, p, origin))
  {
  }

  lemma StoreAgrees(w: World, t: World, p: nat, v: Value, origin: Origin)
    requires Ready(w, t) && p < |w.params|
    ensures
      var r := Exec(w, Store(p, v, origin));
      var u := Exec(t, Store(p, v, origin));
      && r.response == u.response
      && (r.response.Ok? ==> Stored(r.w, u.w, p, origin))
      && (!r.response.Ok? || origin == w.setup.decls[p].originator ==> Ready(r.w, u.w))
    decreases Free(w), 2, 0, 0
  {
    hide Exec, Twins, Healthy, OriginsKept, Stored;
    var d := w.setup.decls[p];
    if |d.callbacks.preWrite| == 0 && |d.callbacks.postWrite| == 0 {
      PlainStoreAgrees(w, t, p, v, origin);
    } else {
      SameView(w, t, p);
      StoreWithCallbacksAgrees(w, t, p, v, origin);
      ReadyIsStored(Exec(w, Store(p, v, origin)).w, Exec(t, Store(p, v, origin)).w, p, origin);
    }
  }

  lemma PlainStoreAgrees(w: World, t: World, p: nat, v: Value, origin: Origin)
    requires Ready(w, t) && p < |w.params|
    requires |w.setup.decls[p].callbacks.preWrite| == 0 && |w.setup.decls[p].callbacks.postWrite| == 0
    ensures Exec(w, Store(p, v, origin)) == Result(Commit(w, p, v, origin), Ok)
    ensures Exec(t, Store(p, v, origin)) == Result(Commit(t, p, v, origin), Ok)
    ensures Stored(Commit(w, p, v, origin), Commit(t, p, v, origin), p, origin)
    ensures origin == w.setup.decls[p].originator ==>
              Ready(Commit(w, p, v, origin), Commit(t, p, v, origin))
  {
    hide Exec, Stored;
    assert Healthy(t);
    PlainStore(w, p, v, origin);
    PlainStore(t, p, v, origin);
    CommitAgrees(w, t, p, v, origin);
  }

  lemma ReadyIsStored(w: World, t: World, p: nat, origin: Origin)
    requires Ready(w, t) && p < |w.params|
    requires |w.setup.decls[p].callbacks.preWrite| > 0 || |w.setup.decls[p].callbacks.postWrite| > 0
    ensures Stored(w, t, p, origin)
  {
  }

  lemma CommitAgrees(w: World, t: World, p: nat, v: Value, origin: Origin)
    requires Ready(w, t) && p < |w.params|
    ensures Stored(Commit(w, p, v, origin), Commit(t, p, v, origin), p, origin)
    ensures origin == w.setup.decls[p].originator ==>
              Ready(Commit(w, p, v, origin), Commit(t, p, v, origin))
  {
    var s := w.params[p];
    OwnOnlyAfter(Put(w, p, s.(value := v, valueOrigin := origin)), Committed(p, s.value, v, origin));
  }

  lemma CommitReady(w: World, t: World, p: nat, v: Value, origin: Origin)
    requires Ready(w, t) && p < |w.params|
    requires |w.setup.decls[p].callbacks.preWrite| > 0 || |w.setup.decls[p].callbacks.postWrite| > 0
    ensures Ready(Commit(w, p, v, origin), Commit(t, p, v, origin))
  {
    CommitAgrees(w, t, p, v, origin);
  }

  lemma StoreWithCallbacksAgrees(w: World, t: World, p: nat, v: Value, origin: Origin)
    requires Ready(w, t) && p < |w.params|
    requires |w.setup.decls[p].callbacks.preWrite| > 0 || |w.setup.decls[p].callbacks.postWrite| > 0
    ensures Agree(Exec(w, Store(p, v, origin)), Exec(t, Store(p, v, origin)))
    decreases Free(w), 1, 0, 2
  {
    hide Exec, Healthy, Twins, OriginsKept;
    SameView(w, t, p);
    var c := Dispatch(p, PreWrite, v, v, origin);
    DispatchAgrees(w, t, p, PreWrite, v, v, origin);
    var pre, pre' := Exec(w, c), Exec(t, c);
    StoreBody(w, p, v, origin);
    StoreBody(t, p, v, origin);
    if pre.response.Ok? {
      SameView(pre.w, pre'.w, p);
      CommitReady(pre.w, pre'.w, p, v, origin);
      DispatchAgrees(Commit(pre.w, p, v, origin), Commit(pre'.w, p, v, origin), p, PostWrite,
                     pre.w.params[p].value, v, origin);
    }
  }

  lemma FetchAgrees(w: World, t: World, p: nat, origin: Origin)
    requires Ready(w, t) && p < |w.params|
    ensures Agree(ExecFetch(w, p, origin), ExecFetch(t, p, origin))
    decreases Free(w), 2, 0, 0
  {
    hide Exec;
    var v := w.params[p].value;
    var c := Dispatch(p, PreRead, v, v, origin);
    DispatchAgrees(w, t, p, PreRead, v, v, origin);
    var pre, pre' := Exec(w, c), Exec(t, c);
    if !pre.response.Raised? {
      var c' := Dispatch(p, PostRead, v, v, origin);
      DispatchAgrees(pre.w, pre'.w, p, PostRead, v, v, origin);
      var post, post' := Exec(pre.w, c'), Exec(pre'.w, c');
      if !post.response.Raised? {
        RefreshReadAgrees(post.w, post'.w, p);
      }
    }
  }

  lemma RefreshReadAgrees(w: World, t: World, p: nat)
    requires Ready(w, t) && p < |w.params|
    ensures Ready(RefreshFastRead(w, p), RefreshFastRead(t, p))
    ensures RefreshFastRead(w, p).params[p].value == RefreshFastRead(t, p).params[p].value
  {
  }

  lemma DispatchAgrees(w: World, t: World, p: nat, kind: Kind, was: Value, v: Value, origin: Origin)
    requires Ready(w, t) && p < |w.params|
    ensures Agree(Exec(w, Dispatch(p, kind, was, v, origin)), Exec(t, Dispatch(p, kind, was, v, origin)))
    decreases Free(w), 1, 0, 0
  {
    hide Exec, Twins, Healthy, OriginsKept;
    SameView(w, t, p);
    DispatchBody(w, p, kind, was, v, origin);
    DispatchBody(t, p, kind, was, v, origin);
    var slot := Slot(p, kind);
    if slot !in w.on {
      if |w.setup.decls[p].callbacks.Of(kind)| == 0 {
        EmptyDispatch(w, p, kind, was, v, origin);
        EmptyDispatch(t, p, kind, was, v, origin);
      } else {
        MarkUsesSlot(w, slot);
        var c := From(p, kind, 0, true, was, v, origin);
        TagsReady(w, t, slot);
        EveryCallAgrees(Mark(w, slot), Mark(t, slot), c);
        TagsReady(Exec(Mark(w, slot), c).w, Exec(Mark(t, slot), c).w, slot);
      }
    }
  }

  lemma FromAgrees(w: World, t: World, p: nat, kind: Kind, i: nat, ok: bool, was: Value, v: Value, origin: Origin)
    requires Ready(w, t) && p < |w.params| && Slot(p, kind) in w.on
    ensures Agree(Exec(w, From(p, kind, i, ok, was, v, origin)), Exec(t, From(p, kind, i, ok, was, v, origin)))
    decreases Free(w), 6, |w.setup.decls[p].callbacks.Of(kind)| - i, 0
  {
    hide Exec, Twins, Healthy, OriginsKept;
    var vec := w.setup.decls[p].callbacks.Of(kind);
    SameView(w, t, p);
    if i >= |vec| {
      FromEnds(w, p, kind, i, ok, was, v, origin);
      FromEnds(t, p, kind, i, ok, was, v, origin);
    } else {
      FromUnfolds(w, p, kind, i, ok, was, v, origin);
      FromUnfolds(t, p, kind, i, ok, was, v, origin);
      var slot := Slot(p, kind);
      var ev := EventFor(w.params[p], kind, was, v, origin);
      var run := Run(vec[i], ev, []);
      var w1, t1 := Note(w, Fired(slot, i, ev)), Note(t, Fired(slot, i, ev));
      NotesReady(w, t, Fired(slot, i, ev));
      EveryCallAgrees(w1, t1, run);
      var r, u := Exec(w1, run), Exec(t1, run);
      if !r.response.Raised? {
        var vote := kind.PreWrite? ==> r.response.Ok?;
        var e := Voted(slot, i, vote);
        NotesReady(r.w, u.w, e);
        SameView(r.w, u.w, p);
        EveryCallAgrees(Note(r.w, e), Note(u.w, e), From(p, kind, i + 1, ok && vote, was, v, origin));
      }
    }
  }

  lemma RunAgrees(w: World, t: World, cb: Callback, ev: Event, answers: seq<Response>)
    requires Ready(w, t)
    ensures Agree(ExecRun(w, cb, ev, answers), ExecRun(t, cb, ev, answers))
    decreases Free(w), 5, cb.steps(ev) - |answers|, 0
  {
    hide Exec;
    if |answers| < cb.steps(ev) {
      var a := cb.next(ev, answers);
      EveryCallAgrees(w, t, Act(a));
      var r, u := Exec(w, Act(a)), Exec(t, Act(a));
      if !r.response.Raised? || a.caught {
        EveryCallAgrees(r.w, u.w, Run(cb, ev, answers + [r.response]));
      }
    }
  }

  // -------------------------------------------------------------- whole runs

  /** The operations that register, unregister and preset. */
  lemma ListStepAgrees(w: World, t: World, op: Op)
    requires !op.Do?
    requires Ready(w, t) && w.on == {}
    ensures Ready(Step(w, op), Step(t, op)) && Step(w, op).on == {}
    ensures |Step(w, op).setup.decls| == |w.setup.decls|
  {
    hide Exec, EraseOwned, FlagsHold, FindCallback, OwnRestores;
    StepKeepsHealth(w, op);
  }

  lemma StepAgrees(w: World, t: World, op: Op)
    requires Ready(w, t) && w.on == {}
    ensures Ready(Step(w, op), Step(t, op)) && Step(w, op).on == {}
    ensures |Step(w, op).setup.decls| == |w.setup.decls|
  {
    hide Exec;
    if op.Do? {
      StepKeepsHealth(w, op);
      EveryCallAgrees(w, t, Act(op.action));
    } else {
      ListStepAgrees(w, t, op);
    }
  }

  /** Over every run the machine with fast paths has the values, the lock states,
      the flags and the log of the machine without them. It has the origin of every
      value too to whose parameter no reset has applied a stranger's preset. */
  lemma {:induction false} FastPathsAreInvisible(w: World, t: World, ops: seq<Op>)
    requires Ready(w, t) && w.on == {}
    ensures Ready(RunAll(w, ops), RunAll(t, ops))
    decreases |ops|
  {
    if |ops| > 0 {
      StepAgrees(w, t, ops[0]);
      FastPathsAreInvisible(Step(w, ops[0]), Step(t, ops[0]), ops[1..]);
    }
  }

  lemma {:induction false} RunKeepsFastPaths(w: World, ops: seq<Op>)
    ensures RunAll(w, ops).setup.fastPaths == w.setup.fastPaths
    decreases |ops|
  {
    hide Exec;
    if |ops| > 0 { RunKeepsFastPaths(Step(w, ops[0]), ops[1..]); }
  }

  /** With fast paths, too, the origin of such a value is that of the last write. */
  lemma OriginsAreExplained(w: World, t: World, ops: seq<Op>, start: seq<Param>, q: nat)
    requires Ready(w, t) && w.on == {} && Explained(t, start) && q < |w.params|
    requires OwnOnly(RunAll(w, ops), q)
    ensures
      var w' := RunAll(w, ops);
      w'.params[q].valueOrigin == Replay(w'.log, q, start[q]).valueOrigin
  {
    FastPathsAreInvisible(w, t, ops);
    LogExplainsRun(t, ops, start);
    RunKeepsFastPaths(t, ops);
    assert Alike(RunAll(w, ops).params[q], RunAll(t, ops).params[q], true);
  }

  // ------------------------------------- runs that apply no stranger's preset

  predicate OwnPreset(w: World, p: nat)
    requires p < |w.params|
  {
    p in w.setup.presets ==> w.setup.presets[p].origin == w.setup.decls[p].originator
  }

  predicate NoResetOf(a: Action, p: nat) {
    a.Reset? ==> a.target != p
  }

  /** When the present preset of `p` is not its owner's, calls and callbacks must
      not reset `p`. */
  ghost function ResetLaw(p: nat, owner: Origin, own: bool): Law {
    Law((w: World) =>
          && p < |w.params| && OwnRestores(w.log, p, owner)
          && (own ==> p in w.setup.presets ==> w.setup.presets[p].origin == owner),
        (w: World, w': World) => true,
        a => own || NoResetOf(a, p),
        None,
        (w: World) => false)
  }

  /** Can no step of the run apply a stranger's preset to `p`? It is enough that
      neither the operation nor any callback then registered resets `p` while the
      preset of `p` is a stranger's. */
  ghost predicate Harmless(w: World, ops: seq<Op>, p: nat)
    requires p < |w.params|
    decreases |ops|
  {
    |ops| > 0 ==>
      && (ops[0].Do? && !OwnPreset(w, p) ==>
            NoResetOf(ops[0].action, p) &&
            CallbacksMay(ResetLaw(p, w.setup.decls[p].originator, false), w.setup.decls))
      && Harmless(Step(w, ops[0]), ops[1..], p)
  }

  lemma ResetLawNotes(p: nat, owner: Origin, own: bool)
    ensures HoldsOfNotes(ResetLaw(p, owner, own))
    ensures HoldsOfRestores(ResetLaw(p, owner, own))
    ensures HoldsOfCommits(ResetLaw(p, owner, own))
  {
  }

  lemma ResetLawTags(p: nat, owner: Origin, own: bool)
    ensures HoldsOfTags(ResetLaw(p, owner, own))
    ensures HoldsOfFlags(ResetLaw(p, owner, own))
  {
    hide OwnRestores;
  }

  lemma ResetLawLocks(p: nat, owner: Origin, own: bool)
    ensures HoldsOfLocks(ResetLaw(p, owner, own))
  {
    hide OwnRestores;
  }

  lemma ResetLawIsSound(p: nat, owner: Origin, own: bool)
    ensures Sound(ResetLaw(p, owner, own))
  {
    hide HoldsOfTags, HoldsOfFlags, HoldsOfLocks, HoldsOfNotes, HoldsOfRestores, HoldsOfCommits, OwnRestores;
    ResetLawNotes(p, owner, own);
    ResetLawTags(p, owner, own);
    ResetLawLocks(p, owner, own);
  }

  lemma StepKeepsOwners(w: World, op: Op, p: nat)
    requires p < |w.params|
    ensures Step(w, op).setup.decls[p].originator == w.setup.decls[p].originator
    ensures !op.Do? ==> Step(w, op).log == w.log
  {
    hide Exec, EraseOwned, FindCallback;
  }

  /** Then the origin of `p` is safe. */
  lemma {:induction false} HarmlessRunsApplyOwnPresets(w: World, ops: seq<Op>, p: nat)
    requires p < |w.params| && OwnOnly(w, p) && Harmless(w, ops, p)
    ensures OwnOnly(RunAll(w, ops), p)
    decreases |ops|
  {
    hide Exec;
    if |ops| > 0 {
      var op, owner, own := ops[0], w.setup.decls[p].originator, OwnPreset(w, p);
      StepKeepsOwners(w, op, p);
      if op.Do? {
        var law := ResetLaw(p, owner, own);
        ResetLawIsSound(p, owner, own);
        assert own ==> CallbacksMay(law, w.setup.decls);
        EveryCallObeys(law, w, Act(op.action));
      }
      HarmlessRunsApplyOwnPresets(Step(w, op), ops[1..], p);
    }
  }

  // --------------------------------------- where the origin really is lost

  /** A fast write agrees on the origin exactly when the parameter's value origin
      is its owner already. */
  lemma FastWriteOrigin(w: World, t: World, p: nat, v: Value)
    requires Ready(w, t) && p < |w.params| && w.params[p].fastWrite
    ensures Exec(t, Act(Assign(p, v, false))).w.params[p].valueOrigin == w.setup.decls[p].originator
    ensures Exec(w, Act(Assign(p, v, false))).w.params[p].valueOrigin == w.params[p].valueOrigin
  {
    assert Healthy(t);
    var origin := w.setup.decls[p].originator;
    PlainStore(t, p, v, origin);
    SetRawBody(t, p, v, None, origin);
    ActBody(t, Assign(p, v, false));
    ActBody(w, Assign(p, v, false));
  }

  /** `reset` applies a preset and its origin, but leaves the flag `fast_write` set. */
  lemma ResetLeavesFlag(w: World, p: nat)
    requires Healthy(w) && p < |w.params| && w.params[p].fastWrite && p in w.setup.presets
    ensures Exec(w, Act(Reset(p, false))).w ==
            Restore(Commit(w, p, w.setup.presets[p].value, w.setup.presets[p].origin), p)
  {
    hide Exec;
    var preset := w.setup.presets[p];
    ResetStores(w, p, false);
    PlainStore(w, p, preset.value, preset.origin);
  }

  /** After a fast write, a reset to a preset and another write by the owner give
      the right origin exactly when the owner has set the preset. */
  lemma ResetThenAssign(w: World, t: World, p: nat, v: Value)
    requires Ready(w, t) && w.on == {} && p < |w.params|
    requires w.params[p].fastWrite && p in w.setup.presets
    ensures
      var ops := [Do(Reset(p, false)), Do(Assign(p, v, false))];
      RunAll(w, ops).params[p].valueOrigin == RunAll(t, ops).params[p].valueOrigin
      <==> w.setup.presets[p].origin == w.setup.decls[p].originator
  {
    hide Exec;
    var first, second := Do(Reset(p, false)), Do(Assign(p, v, false));
    var ops := [first, second];
    assert Healthy(t);
    ResetLeavesFlag(w, p);
    ResetLeavesFlag(t, p);
    StepAgrees(w, t, first);
    var w1, t1 := Step(w, first), Step(t, first);
    FastWriteOrigin(w1, t1, p, v);
    assert ops[1..] == [second] && [second][1..] == [];
    assert RunAll(w, ops) == RunAll(w1, [second]) == Step(w1, second);
    assert RunAll(t, ops) == RunAll(t1, [second]) == Step(t1, second);
  }
}
