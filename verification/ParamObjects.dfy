/** The parameters as objects that are updated in place. Every method is proved
    against `ParamMachine.Exec` or a step of `ParamRuns`. */
module ParamObjects {
  import opened Values
  import opened ParamMachine
  import opened ParamLaws
  import opened ParamRuns
  import opened ParamStars
  import opened ParamTheorems
  import opened ParamOutcomes

  /** The fields of `cci_param_untyped` and `cci_param_typed`. `oncall` holds the
      callback lists whose tag is set. */
  class ParamObject {
    var value: Value
    var valueOrigin: Origin
    var lockPwd: Option<Key>
    var fastRead: bool
    var fastWrite: bool
    var callbacks: Lists
    var oncall: set<Kind>
    const isMutable: bool
    const defaultValue: Value
    const originator: Origin

    constructor (initial: Value, mutability: bool, owner: Origin)
      ensures State() == Param(initial, owner, None, false, false)
      ensures Declared() == Decl(Lists([], [], [], []), mutability, initial, owner)
      ensures oncall == {}
    {
      value, valueOrigin, lockPwd := initial, owner, None;
      fastRead, fastWrite := false, false;
      callbacks := Lists([], [], [], []);
      oncall := {};
      isMutable, defaultValue, originator := mutability, initial, owner;
    }

    function State(): Param
      reads this
    {
      Param(value, valueOrigin, lockPwd, fastRead, fastWrite)
    }

    ghost function Declared(): Decl
      reads this
    {
      Decl(callbacks, isMutable, defaultValue, originator)
    }
  }

  /** The saved old value of `preset_cci_value` is not stale: the pre-write
      callbacks do not write the parameter. */
  lemma DispatchLeavesValue(w: World, p: nat, v: Value, origin: Origin)
    requires Healthy(w) && p < |w.params|
    ensures Exec(w, Dispatch(p, PreWrite, v, v, origin)).w.params[p].value == w.params[p].value
  {
    EveryCallRespects(w, Dispatch(p, PreWrite, v, v, origin));
    if Slot(p, PreWrite) !in w.on { DispatchFiresInOrder(w, p, PreWrite, v, v, origin); }
  }

  /** What the erase loop will leave of `vec`, when it stands at `it`. */
  ghost function Erased(vec: seq<Callback>, it: nat, owner: Origin): seq<Callback> {
    if it <= |vec| then vec[..it] + EraseOwned(vec[it..], owner) else vec
  }

  lemma EraseBounds(vec: seq<Callback>, owner: Origin)
    ensures Erased(vec, 0, owner) == EraseOwned(vec, owner)
    ensures forall it: nat :: it >= |vec| ==> Erased(vec, it, owner) == vec
  {
  }

  lemma SomeOwned(vec: seq<Callback>, owner: Origin, i: nat)
    requires i < |vec| && vec[i].owner == owner
    ensures !NoneOwned(vec, owner)
  {
    assert Owned(vec, owner, i);
  }

  lemma NoOwned(vec: seq<Callback>, owner: Origin)
    requires forall i :: 0 <= i < |vec| ==> vec[i].owner != owner
    ensures NoneOwned(vec, owner)
  {
  }

  lemma EraseTurn(vec: seq<Callback>, it: nat, owner: Origin)
    requires it < |vec|
    ensures
      var vec' := if vec[it].owner == owner then vec[..it] + vec[it + 1..] else vec;
      Erased(vec', it + 1, owner) == Erased(vec, it, owner)
  {
    var rest := vec[it..];
    if vec[it].owner != owner {
      assert rest[1..] == vec[it + 1..];
      assert EraseOwned(rest, owner) == [vec[it]] + EraseOwned(vec[it + 1..], owner);
      assert vec[..it + 1] == vec[..it] + [vec[it]];
    } else if it + 1 < |vec| {
      var vec' := vec[..it] + vec[it + 1..];
      assert rest[1] == vec[it + 1] && rest[2..] == vec[it + 2..] == vec'[it + 1..];
      assert EraseOwned(rest, owner) == [vec[it + 1]] + EraseOwned(vec[it + 2..], owner);
      assert vec'[..it + 1] == vec[..it] + [vec[it + 1]];
    }
  }

  /** All parameters of a simulation, with what the broker answers to `reset`. */
  class Simulation {
    const params: seq<ParamObject>
    var presets: map<nat, Preset>
    const throws: bool
    ghost var log: seq<Entry>

    ghost predicate Valid()
      reads this
    {
      forall i, j :: 0 <= i < j < |params| ==> params[i] != params[j]
    }

    ghost function World(): (w: World)
      reads this, params
      ensures |w.params| == |params|
    {
      Snapshot(
        Setup(seq(|params|, i requires 0 <= i < |params| reads params => params[i].Declared()), presets, throws, true),
        seq(|params|, i requires 0 <= i < |params| reads params => params[i].State()),
        set p: nat, k: Kind | p < |params| && k in params[p].oncall :: Slot(p, k),
        log)
    }

    constructor (objects: seq<ParamObject>, mayThrow: bool)
      requires forall i, j :: 0 <= i < j < |objects| ==> objects[i] != objects[j]
      ensures Valid() && params == objects && throws == mayThrow
      ensures presets == map[] && log == []
    {
      params, throws, presets, log := objects, mayThrow, map[], [];
    }

    /** The state of one parameter as the specification sees it. */
    lemma View(p: nat, kind: Kind)
      requires p < |params|
      ensures kind in params[p].oncall <==> Slot(p, kind) in World().on
      ensures World().setup.decls[p].callbacks == params[p].callbacks
      ensures World().params[p] == params[p].State() && World().setup.throws == throws
    {
    }

    // ---------------------------------------------------- single updates

    method Write(p: nat, v: Value, origin: Origin)
      requires Valid() && p < |params|
      modifies this`log, params[p]
      ensures World() == Commit(old(World()), p, v, origin)
    {
      ghost var was := World();
      log := log + [Committed(p, params[p].value, v, origin)];
      params[p].value := v;
      params[p].valueOrigin := origin;
      assert World().params == Commit(was, p, v, origin).params;
      assert World().on == was.on;
    }

    method WriteFast(p: nat, v: Value)
      requires Valid() && p < |params|
      modifies this`log, params[p]
      ensures World() == CommitFast(old(World()), p, v)
    {
      ghost var was := World();
      log := log + [Committed(p, params[p].value, v, params[p].originator)];
      params[p].value := v;
      assert World().params == CommitFast(was, p, v).params;
      assert World().on == was.on;
    }

    ghost method Log(e: Entry)
      modifies this`log
      ensures World() == Note(old(World()), e)
    {
      log := log + [e];
    }

    method SetTag(p: nat, kind: Kind)
      requires Valid() && p < |params|
      modifies params[p]
      ensures World() == Mark(old(World()), Slot(p, kind))
    {
      ghost var was := World();
      params[p].oncall := params[p].oncall + {kind};
      assert World().on == was.on + {Slot(p, kind)};
      assert World().params == was.params;
      assert World().setup.decls == was.setup.decls;
    }

    method ClearTag(p: nat, kind: Kind)
      requires Valid() && p < |params|
      modifies params[p]
      ensures World() == Unmark(old(World()), Slot(p, kind))
    {
      ghost var was := World();
      params[p].oncall := params[p].oncall - {kind};
      assert World().on == was.on - {Slot(p, kind)};
      assert World().params == was.params;
      assert World().setup.decls == was.setup.decls;
    }

    method UpdateFastWrite(p: nat, origin: Origin)
      requires Valid() && p < |params|
      modifies params[p]
      ensures World() == RefreshFastWrite(old(World()), p, origin)
    {
      ghost var was := World();
      var o := params[p];
      o.fastWrite := o.isMutable && o.lockPwd.None? && |o.callbacks.preWrite| == 0 && |o.callbacks.postWrite| == 0
                     && origin == o.originator;
      assert World().params == RefreshFastWrite(was, p, origin).params;
      assert World().on == was.on;
    }

    method UpdateFastRead(p: nat)
      requires Valid() && p < |params|
      modifies params[p]
      ensures World() == RefreshFastRead(old(World()), p)
    {
      ghost var was := World();
      var o := params[p];
      o.fastRead := |o.callbacks.preRead| == 0 && |o.callbacks.postRead| == 0;
      assert World().params == RefreshFastRead(was, p).params;
      assert World().on == was.on;
    }

    method LockObject(p: nat, key: Option<Key>) returns (r: Response)
      requires Valid() && p < |params|
      modifies params[p]
      ensures Result(World(), r) == LockParam(old(World()), p, key)
      ensures
        var k := if key.Some? then key.value else Self(p);
        if old(params[p].lockPwd).None? || old(params[p].lockPwd) == Some(k) then
          r == Ok && params[p].lockPwd == Some(k)
        else
          r == No && params[p].lockPwd == old(params[p].lockPwd)
    {
      ghost var was := World();
      var o := params[p];
      o.fastWrite := false;
      var k := if key.Some? then key.value else Self(p);
      if o.lockPwd.Some? && o.lockPwd != Some(k) {
        r := No;
      } else {
        o.lockPwd := Some(k);
        r := Ok;
      }
      assert World().params == LockParam(was, p, key).w.params;
      assert World().on == was.on;
    }

    method UnlockObject(p: nat, key: Option<Key>) returns (r: Response)
      requires Valid() && p < |params|
      modifies params[p]
      ensures Result(World(), r) == UnlockParam(old(World()), p, key)
      ensures
        var k := if key.Some? then key.value else Self(p);
        if old(params[p].lockPwd) == Some(k) then r == Ok && params[p].lockPwd == None
        else r == No && params[p].lockPwd == old(params[p].lockPwd)
    {
      ghost var was := World();
      var o := params[p];
      var k := if key.Some? then key.value else Self(p);
      if o.lockPwd == Some(k) {
        o.lockPwd := None;
        r := Ok;
      } else {
        r := No;
      }
      assert World().params == UnlockParam(was, p, key).w.params;
      assert World().on == was.on;
    }

    /** `set_param_failed`. */
    function Refusal(): Response
      reads this
    {
      if throws then Raised else No
    }

    // ------------------------------------------------------- the protocol

    /** One API call. */
    method Perform(a: Action) returns (r: Response)
      requires Valid() && Healthy(World())
      modifies this`log, params
      ensures Healthy(World())
      ensures Result(World(), r) == Exec(old(World()), Act(a))
      decreases Free(World()), 4, 0
    {
      hide Exec;
      EveryCallRespects(World(), Act(a));
      ActBody(World(), a);
      if a.target >= |params| {
        return Raised;
      }
      match a
      case Set(p, v, key, origin, _) => r := SetRawValue(p, v, key, origin);
      case Get(p, origin, _) => r := GetRawValue(p, origin);
      case Assign(p, v, _) => r := SetValue(p, v);
      case Use(p, _) => r := GetValue(p);
      case Reset(p, _) => r := ResetValue(p);
      case Lock(p, key, _) => r := LockObject(p, key);
      case Unlock(p, key, _) => r := UnlockObject(p, key);
    }

    /** `set_value(value)`, with its fast path. */
    method SetValue(p: nat, v: Value) returns (r: Response)
      requires Valid() && Healthy(World()) && p < |params|
      modifies this`log, params
      ensures Healthy(World())
      ensures Result(World(), r) == ExecAct(old(World()), Assign(p, v, false))
      decreases Free(World()), 3, 1
    {
      hide Exec;
      ActBody(World(), Assign(p, v, false));
      EveryCallRespects(World(), Act(Assign(p, v, false)));
      if params[p].fastWrite {
        WriteFast(p, v);
        r := Ok;
      } else {
        r := SetRawValue(p, v, None, params[p].originator);
      }
    }

    /** `get_value()`, with its fast path. */
    method GetValue(p: nat) returns (r: Response)
      requires Valid() && Healthy(World()) && p < |params|
      modifies this`log, params
      ensures Healthy(World())
      ensures Result(World(), r) == ExecAct(old(World()), Use(p, false))
      decreases Free(World()), 3, 1
    {
      hide Exec;
      ActBody(World(), Use(p, false));
      EveryCallRespects(World(), Act(Use(p, false)));
      if params[p].fastRead {
        r := Val(params[p].value);
      } else {
        r := GetRawValue(p, params[p].originator);
      }
    }

    /** `set_raw_value`. */
    method SetRawValue(p: nat, v: Value, key: Option<Key>, origin: Origin) returns (r: Response)
      requires Valid() && Healthy(World()) && p < |params|
      modifies this`log, params
      ensures Healthy(World())
      ensures Result(World(), r) == Exec(old(World()), SetRaw(p, v, key, origin))
      decreases Free(World()), 3, 0
    {
      hide Exec;
      EveryCallRespects(World(), SetRaw(p, v, key, origin));
      SetRawBody(World(), p, v, key, origin);
      if !params[p].isMutable {
        return Refusal();
      }
      if key.None? {
        if params[p].lockPwd.Some? {
          return Refusal();
        }
      } else if key != params[p].lockPwd {
        return Refusal();
      }
      StoreBody(World(), p, v, origin);
      var allowed := DispatchList(p, PreWrite, v, v, origin);
      if !allowed.Ok? {
        return allowed;
      }
      var was := params[p].value;
      CommitIsHealthy(World(), p, v, origin);
      Write(p, v, origin);
      var post := DispatchList(p, PostWrite, was, v, origin);
      if post.Raised? {
        return Raised;
      }
      UpdateFastWrite(p, origin);
      r := Ok;
    }

    /** `get_raw_value`. */
    method GetRawValue(p: nat, origin: Origin) returns (r: Response)
      requires Valid() && Healthy(World()) && p < |params|
      modifies this`log, params
      ensures Healthy(World())
      ensures Result(World(), r) == Exec(old(World()), Fetch(p, origin))
      decreases Free(World()), 2, 0
    {
      hide Exec;
      EveryCallRespects(World(), Fetch(p, origin));
      FetchBody(World(), p, origin);
      var v := params[p].value;
      r := DispatchList(p, PreRead, v, v, origin);
      if r.Raised? {
        return;
      }
      r := DispatchList(p, PostRead, v, v, origin);
      if r.Raised? {
        return;
      }
      UpdateFastRead(p);
      r := Val(params[p].value);
    }

    /** `preset_cci_value`: the old value is saved before the pre-write callbacks. */
    method PresetValue(p: nat, v: Value, origin: Origin) returns (r: Response)
      requires Valid() && Healthy(World()) && p < |params|
      modifies this`log, params
      ensures Healthy(World())
      ensures Result(World(), r) == Exec(old(World()), Store(p, v, origin))
      decreases Free(World()), 2, 0
    {
      hide Exec;
      EveryCallRespects(World(), Store(p, v, origin));
      StoreBody(World(), p, v, origin);
      var was := params[p].value;
      DispatchLeavesValue(World(), p, v, origin);
      var allowed := DispatchList(p, PreWrite, v, v, origin);
      if !allowed.Ok? {
        return allowed;
      }
      CommitIsHealthy(World(), p, v, origin);
      Write(p, v, origin);
      var post := DispatchList(p, PostWrite, was, v, origin);
      r := if post.Raised? then Raised else Ok;
    }

    /** `reset`. */
    method ResetValue(p: nat) returns (r: Response)
      requires Valid() && Healthy(World()) && p < |params|
      modifies this`log, params
      ensures Healthy(World())
      ensures Result(World(), r) == ExecAct(old(World()), Reset(p, false))
      ensures old(params[p].lockPwd).None? && PlainWrite(old(World()).setup.decls[p]) ==>
                && r == Ok
                && params[p].value == (if p in presets then presets[p].value else params[p].defaultValue)
                && params[p].valueOrigin == (if p in presets then presets[p].origin else params[p].originator)
      decreases Free(World()), 3, 0
    {
      hide Exec;
      ghost var w0 := World();
      if PlainWrite(w0.setup.decls[p]) {
        ResetOutcome(w0, p, false);
      }
      ActBody(World(), Reset(p, false));
      EveryCallRespects(World(), Act(Reset(p, false)));
      if params[p].lockPwd.Some? {
        return No;
      }
      if p in presets {
        r := PresetValue(p, presets[p].value, presets[p].origin);
        if r.Ok? {
          Log(Restored(p, presets[p].origin));
        }
        if !r.Raised? {
          r := Ok;
        }
      } else {
        r := PresetValue(p, params[p].defaultValue, params[p].originator);
      }
    }

    /** `pre_write_callback` and the three like it. */
    method DispatchList(p: nat, kind: Kind, was: Value, v: Value, origin: Origin) returns (r: Response)
      requires Valid() && Healthy(World()) && p < |params|
      modifies this`log, params
      ensures Healthy(World())
      ensures Result(World(), r) == Exec(old(World()), Dispatch(p, kind, was, v, origin))
      decreases Free(World()), 1, 0
    {
      hide Exec, World, Healthy;
      ghost var w0 := World();
      EveryCallRespects(w0, Dispatch(p, kind, was, v, origin));
      DispatchBody(w0, p, kind, was, v, origin);
      View(p, kind);
      if kind in params[p].oncall {
        return if kind.PreWrite? then No else Ok;
      }
      MarkUsesSlot(w0, Slot(p, kind));
      if |params[p].callbacks.Of(kind)| > 0 {
        MarkIsHealthy(w0, Slot(p, kind));
      }
      SetTag(p, kind);
      View(p, kind);
      r := RunList(p, kind, was, v, origin);
      ClearTag(p, kind);
    }

    /** The loop over a list whose tag is set. */
    method RunList(p: nat, kind: Kind, was: Value, v: Value, origin: Origin) returns (r: Response)
      requires Valid() && p < |params| && Slot(p, kind) in World().on
      requires |params[p].callbacks.Of(kind)| > 0 ==> Healthy(World())
      modifies this`log, params
      ensures Result(World(), r) == Exec(old(World()), From(p, kind, 0, true, was, v, origin))
      decreases Free(World()), 6, 0
    {
      hide Exec, Healthy;
      ghost var w0 := World();
      ghost var w := w0;
      var ok := true;
      var i := 0;
      while i < |params[p].callbacks.Of(kind)|
        invariant w == World() && w.setup == w0.setup && w.on == w0.on && |w.params| == |w0.params|
        invariant i <= |w0.setup.decls[p].callbacks.Of(kind)|
        invariant i < |w0.setup.decls[p].callbacks.Of(kind)| ==> Healthy(w)
        invariant Exec(w, From(p, kind, i, ok, was, v, origin)) == Exec(w0, From(p, kind, 0, true, was, v, origin))
        decreases |w0.setup.decls[p].callbacks.Of(kind)| - i
      {
        var thrown;
        thrown, ok := RunTurn(p, kind, i, ok, was, v, origin);
        if thrown {
          return Raised;
        }
        w := World();
        i := i + 1;
      }
      FromEnds(w, p, kind, i, ok, was, v, origin);
      r := if ok then Ok else No;
    }

    /** One turn of that loop: build the payload, run the callback, take its vote. */
    method RunTurn(p: nat, kind: Kind, i: nat, ok: bool, was: Value, v: Value, origin: Origin)
      returns (thrown: bool, ok': bool)
      requires Valid() && Healthy(World()) && p < |params| && i < |params[p].callbacks.Of(kind)|
      modifies this`log, params
      ensures Healthy(World()) && Frame(old(World()), World())
      ensures Exec(old(World()), From(p, kind, i, ok, was, v, origin)) ==
              if thrown then Result(World(), Raised) else Exec(World(), From(p, kind, i + 1, ok', was, v, origin))
      decreases Free(World()), 5, 1
    {
      hide Exec, World, Healthy;
      ghost var w0 := World();
      View(p, kind);
      FromUnfolds(w0, p, kind, i, ok, was, v, origin);
      var ev := EventFor(params[p].State(), kind, was, v, origin);
      Log(Fired(Slot(p, kind), i, ev));
      NoteIsHealthy(w0, Fired(Slot(p, kind), i, ev));
      View(p, kind);
      var answer := RunCallback(params[p].callbacks.Of(kind)[i], ev);
      if answer.Raised? {
        return true, ok;
      }
      var vote := kind.PreWrite? ==> answer.Ok?;
      NoteIsHealthy(World(), Voted(Slot(p, kind), i, vote));
      View(p, kind);
      Log(Voted(Slot(p, kind), i, vote));
      thrown, ok' := !vote && throws, ok && vote;
    }

    /** The body of a callback: its calls one after another, then its verdict. */
    method RunCallback(cb: Callback, ev: Event) returns (r: Response)
      requires Valid() && Healthy(World())
      modifies this`log, params
      ensures Healthy(World())
      ensures Result(World(), r) == Exec(old(World()), Run(cb, ev, []))
      decreases Free(World()), 5, 0
    {
      hide Exec;
      ghost var w0 := World();
      var answers: seq<Response> := [];
      while |answers| < cb.steps(ev)
        invariant Frame(w0, World()) && Healthy(World())
        invariant Exec(World(), Run(cb, ev, answers)) == Exec(w0, Run(cb, ev, []))
        decreases cb.steps(ev) - |answers|
      {
        RunBody(World(), cb, ev, answers);
        var a := cb.next(ev, answers);
        var answer := Perform(a);
        if answer.Raised? && !a.caught {
          return Raised;
        }
        answers := answers + [answer];
      }
      RunBody(World(), cb, ev, answers);
      EveryCallRespects(w0, Run(cb, ev, []));
      r := if cb.verdict(ev, answers) then Ok else No;
    }

    // ------------------------------------------------- outside the protocol

    /** `register_..._callback`: clears both flags and appends. */
    method Register(p: nat, kind: Kind, cb: Callback)
      requires Valid() && p < |params|
      modifies params[p]
      ensures World() == RegisterCallback(old(World()), p, kind, cb)
    {
      ghost var was := World();
      var o := params[p];
      o.fastRead, o.fastWrite := false, false;
      o.callbacks := o.callbacks.With(kind, o.callbacks.Of(kind) + [cb]);
      assert World().params == RegisterCallback(was, p, kind, cb).params;
      assert World().setup.decls == RegisterCallback(was, p, kind, cb).setup.decls;
      assert World().on == was.on;
    }

    /** `unregister_..._callback`: erases the first entry of the list with this
        callback and this originator, if there is one. */
    method Unregister(p: nat, kind: Kind, id: nat, owner: Origin) returns (found: bool)
      requires Valid() && p < |params|
      modifies params[p]
      ensures found <==> exists cb :: cb in old(params[p].callbacks).Of(kind) && Matches(cb, id, owner)
      ensures World() == UnregisterCallback(old(World()), p, kind, id, owner)
    {
      ghost var was := World();
      var o := params[p];
      var vec := o.callbacks.Of(kind);
      found := false;
      var it := 0;
      while it < |vec|
        invariant it <= |vec| && !found
        invariant forall k :: 0 <= k < it ==> !Matches(vec[k], id, owner)
      {
        if Matches(vec[it], id, owner) {
          found := true;
          break;
        }
        it := it + 1;
      }
      FirstIsFound(vec, id, owner, it);
      if found {
        o.callbacks := o.callbacks.With(kind, vec[..it] + vec[it + 1..]);
      }
      assert World().params == was.params;
      assert World().setup.decls == UnregisterCallback(was, p, kind, id, owner).setup.decls;
      assert World().on == was.on;
    }

    /** `unregister_all_callbacks`: the answer is whether there was any callback of
        the originator, not whether all are gone. */
    method UnregisterAll(p: nat, owner: Origin) returns (result: bool)
      requires Valid() && p < |params|
      modifies params[p]
      ensures result <==> exists kind: Kind :: !NoneOwned(old(params[p].callbacks).Of(kind), owner)
      ensures World() == UnregisterAllOf(old(World()), p, owner)
    {
      hide EraseOwned, NoneOwned;
      ghost var l := params[p].callbacks;
      ghost var was := World();
      var o := params[p];
      var preWrite, some1 := EraseInPlace(o.callbacks.preWrite, owner);
      var postWrite, some2 := EraseInPlace(o.callbacks.postWrite, owner);
      var preRead, some3 := EraseInPlace(o.callbacks.preRead, owner);
      var postRead, some4 := EraseInPlace(o.callbacks.postRead, owner);
      o.callbacks := Lists(preWrite, postWrite, preRead, postRead);
      result := some1 || some2 || some3 || some4;
      assert l.Of(PreWrite) == l.preWrite && l.Of(PostWrite) == l.postWrite;
      assert l.Of(PreRead) == l.preRead && l.Of(PostRead) == l.postRead;
      assert World().params == was.params;
      assert World().setup.decls == UnregisterAllOf(was, p, owner).setup.decls;
      assert World().on == was.on;
    }

    /** One loop of `unregister_all_callbacks`: the iterator steps on after an erase. */
    static method EraseInPlace(before: seq<Callback>, owner: Origin) returns (vec: seq<Callback>, erased: bool)
      ensures vec == EraseOwned(before, owner)
      ensures erased <==> !NoneOwned(before, owner)
    {
      hide EraseOwned, Erased, NoneOwned;
      vec, erased := before, false;
      var it := 0;
      EraseBounds(before, owner);
      while it < |vec|
        invariant it <= |vec| + 1
        invariant Erased(vec, it, owner) == EraseOwned(before, owner)
        invariant if erased then !NoneOwned(before, owner) else
                    vec == before && it <= |vec| && forall k :: 0 <= k < it ==> before[k].owner != owner
        decreases 2 * |vec| - it
      {
        EraseTurn(vec, it, owner);
        if vec[it].owner == owner {
          if !erased {
            SomeOwned(before, owner, it);
          }
          erased := true;
          vec := vec[..it] + vec[it + 1..];
        }
        it := it + 1;
      }
      EraseBounds(vec, owner);
      if !erased {
        NoOwned(before, owner);
      }
    }

    /** `synchValues` of examples 11 and 12. */
    method SynchValues(hub: nat, s: Spoke, origin: Origin) returns (r: Response)
      requires Valid() && Healthy(World()) && hub < |params| && s.member < |params|
      modifies this`log, params
      ensures Result(World(), r) == Synch(old(World()), hub, s, origin)
      ensures r.Ok? && old(World()).on == {} ==> Healthy(World()) && World().on == {}
    {
      var got := Perform(Get(hub, origin, false));
      if !got.Val? {
        return got;
      }
      var put := Perform(Set(s.member, s.out(got.value), None, origin, false));
      if put.Raised? {
        return put;
      }
      if World().on == {} {
        StepKeepsHealth(World(), ParamRuns.Register(hub, PostWrite, Relay(origin, s.member, s.out)));
      }
      Register(hub, PostWrite, Relay(origin, s.member, s.out));
      if World().on == {} {
        StepKeepsHealth(World(), ParamRuns.Register(s.member, PostWrite, Relay(origin, hub, s.back)));
      }
      Register(s.member, PostWrite, Relay(origin, hub, s.back));
      r := Ok;
    }

    /** The constructor of the synchroniser: connect every spoke to the hub. */
    method SynchroniseAll(star: Star) returns (r: Response)
      requires Valid() && Healthy(World()) && World().on == {} && Fits(star, |params|)
      modifies this`log, params
      ensures Result(World(), r) == SynchAll(old(World()), star, |star.spokes|)
    {
      ghost var w0 := World();
      r := Ok;
      var i := 0;
      while i < |star.spokes|
        invariant i <= |star.spokes| && r == Ok
        invariant Healthy(World()) && World().on == {}
        invariant SynchAll(w0, star, i) == Result(World(), r)
      {
        r := SynchValues(star.hub, star.spokes[i], star.origin);
        i := i + 1;
        assert SynchAll(w0, star, i) == Result(World(), r);
        if !r.Ok? {
          SynchStops(w0, star, i, |star.spokes|);
          return;
        }
      }
    }
  }

  /** Once a step of the constructor fails, the rest is skipped. */
  lemma {:induction false} SynchStops(w: World, star: Star, k: nat, n: nat)
    requires Fits(star, |w.params|) && k <= n <= |star.spokes| && !SynchAll(w, star, k).response.Ok?
    ensures SynchAll(w, star, n) == SynchAll(w, star, k)
  {
    if k < n { SynchStops(w, star, k, n - 1); }
  }
}
