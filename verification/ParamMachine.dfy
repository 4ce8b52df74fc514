/** The parameter protocol of `cci_param_typed` and `cci_param_untyped`, over a
    finite set of parameters whose callbacks may re-enter it.

    `Exec` is the specification that the methods of `ParamObjects` refine. */
module ParamMachine {
  import opened Values

  /** A lock key. Locking without a key uses the parameter's own address. */
  datatype Key = Self(param: nat) | Ptr(address: nat)

  datatype Kind = PreWrite | PostWrite | PreRead | PostRead

  /** The tag `oncall` of one callback list. */
  datatype Slot = Slot(param: nat, kind: Kind)

  /** The payload of a callback. For the read lists `was` and `becomes` are both the
      value that is being read. */
  datatype Event = Event(was: Value, becomes: Value, origin: Origin)

  /** One API call. `caught` says whether the caller catches an error report.
      `Set` and `Get` go through a handle; `Assign` and `Use` are the owner's
      `set_value(value)` and `get_value()`, which have fast paths. */
  datatype Action =
    | Set(target: nat, value: Value, key: Option<Key>, origin: Origin, caught: bool)
    | Get(target: nat, origin: Origin, caught: bool)
    | Assign(target: nat, value: Value, caught: bool)
    | Use(target: nat, caught: bool)
    | Reset(target: nat, caught: bool)
    | Lock(target: nat, key: Option<Key>, caught: bool)
    | Unlock(target: nat, key: Option<Key>, caught: bool)

  /** `No` is a refusal that was not reported by a throw, or the result false. */
  datatype Response = Ok | No | Val(value: Value) | Raised

  /** A callback makes `steps(ev)` calls one after another. Each is chosen from
      the event and from the answers to the calls before it. Then it gives its
      verdict, which matters only in a pre-write list. `owner` is the originator
      that registered it, `id` the function object that handles compare. */
  datatype Callback = Callback(
    id: nat,
    owner: Origin,
    steps: Event -> nat,
    next: (Event, seq<Response>) -> Action,
    verdict: (Event, seq<Response>) -> bool)

  datatype Lists = Lists(
    preWrite: seq<Callback>, postWrite: seq<Callback>,
    preRead: seq<Callback>, postRead: seq<Callback>)
  {
    function Of(kind: Kind): seq<Callback> {
      match kind
      case PreWrite => preWrite
      case PostWrite => postWrite
      case PreRead => preRead
      case PostRead => postRead
    }

    function With(kind: Kind, vec: seq<Callback>): Lists {
      match kind
      case PreWrite => this.(preWrite := vec)
      case PostWrite => this.(postWrite := vec)
      case PreRead => this.(preRead := vec)
      case PostRead => this.(postRead := vec)
    }
  }

  /** The part of a parameter that no call inside the protocol changes. */
  datatype Decl = Decl(callbacks: Lists, isMutable: bool, defaultValue: Value, originator: Origin)

  /** The part that calls change. */
  datatype Param = Param(
    value: Value,
    valueOrigin: Origin,
    lockPwd: Option<Key>,
    fastRead: bool,
    fastWrite: bool)

  datatype Preset = Preset(value: Value, origin: Origin)

  /** What happened so far, oldest entry first. `Restored` says that a `reset` has
      applied the preset which `origin` had set, and nothing was thrown. */
  datatype Entry =
    | Fired(slot: Slot, index: nat, event: Event)
    | Voted(slot: Slot, index: nat, ok: bool)
    | Committed(param: nat, was: Value, becomes: Value, origin: Origin)
    | Restored(param: nat, origin: Origin)

  /** `throws` says whether an error report throws. `fastPaths` says whether
      the flags `fast_read` and `fast_write` are obeyed. `presets` is what the
      broker answers to `reset`. */
  datatype Setup = Setup(decls: seq<Decl>, presets: map<nat, Preset>, throws: bool, fastPaths: bool)

  datatype Snapshot = Snapshot(setup: Setup, params: seq<Param>, on: set<Slot>, log: seq<Entry>)

  /** The state of all parameters, with the tags `oncall` as the set `on`. */
  type World = w: Snapshot | |w.setup.decls| == |w.params|
    witness Snapshot(Setup([], map[], false, false), [], {}, [])

  /** The calls inside the protocol. */
  datatype Call =
    | Act(action: Action)
    | SetRaw(param: nat, value: Value, key: Option<Key>, origin: Origin)
    | Store(param: nat, value: Value, origin: Origin)
    | Fetch(param: nat, origin: Origin)
    | Dispatch(param: nat, kind: Kind, was: Value, value: Value, origin: Origin)
    | From(param: nat, kind: Kind, index: nat, ok: bool, was: Value, value: Value, origin: Origin)
    | Run(cb: Callback, event: Event, answers: seq<Response>)

  datatype Result = Result(w: World, response: Response)

  function Slots(n: nat): set<Slot> {
    set p: nat, k: Kind | p < n :: Slot(p, k)
  }

  /** The callback lists that are not on the call stack. */
  function Free(w: World): nat {
    |Slots(|w.params|) - w.on|
  }

  lemma MarkUsesSlot(w: World, s: Slot)
    requires s.param < |w.params| && s !in w.on
    ensures Free(w.(on := w.on + {s})) < Free(w)
  {
    var free := Slots(|w.params|) - w.on;
    assert Slots(|w.params|) - (w.on + {s}) == free - {s};
    assert s in free;
  }

  /** What no call changes, on any exit: the `oncall` tags, the callback lists
      and the presets; and the log only grows. */
  ghost predicate Frame(w: World, w': World) {
    && w'.setup == w.setup
    && w'.on == w.on
    && |w'.params| == |w.params|
    && w.log <= w'.log
  }

  predicate InRange(w: World, c: Call) {
    match c
    case Act(_) => true
    case SetRaw(p, _, _, _) => p < |w.params|
    case Store(p, _, _) => p < |w.params|
    case Fetch(p, _) => p < |w.params|
    case Dispatch(p, _, _, _, _) => p < |w.params|
    case From(p, _, _, _, _, _, _) => p < |w.params|
    case Run(_, _, _) => true
  }

  function Rank(c: Call): nat {
    match c
    case From(_, _, _, _, _, _, _) => 6
    case Run(_, _, _) => 5
    case Act(_) => 4
    case SetRaw(_, _, _, _) => 3
    case Store(_, _, _) => 2
    case Fetch(_, _) => 2
    case Dispatch(_, _, _, _, _) => 1
  }

  function Work(w: World, c: Call): int
    requires InRange(w, c)
  {
    match c
    case From(p, kind, i, _, _, _, _) => |w.setup.decls[p].callbacks.Of(kind)| - i
    case Run(cb, ev, answers) => cb.steps(ev) - |answers|
    case _ => 0
  }

  function Put(w: World, p: nat, s: Param): World
    requires p < |w.params|
  {
    w.(params := w.params[p := s])
  }

  function Note(w: World, e: Entry): World {
    w.(log := w.log + [e])
  }

  function Mark(w: World, s: Slot): World {
    w.(on := w.on + {s})
  }

  function Unmark(w: World, s: Slot): World {
    w.(on := w.on - {s})
  }

  /** `set_param_failed`: throws or returns. */
  function Refuse(w: World): Result {
    Result(w, if w.setup.throws then Raised else No)
  }

  function Effective(p: nat, key: Option<Key>): Key {
    match key
    case None => Self(p)
    case Some(k) => k
  }

  /** May a write that presents `key` pass the lock of `s`? */
  predicate KeyFits(s: Param, key: Option<Key>) {
    if key.None? then s.lockPwd.None? else key == s.lockPwd
  }

  /** `m_value = value; m_value_origin = originator`. */
  function Commit(w: World, p: nat, value: Value, origin: Origin): World
    requires p < |w.params|
  {
    var s := w.params[p];
    Note(Put(w, p, s.(value := value, valueOrigin := origin)), Committed(p, s.value, value, origin))
  }

  /** The fast path of `set_value`: it leaves the origin as it is. */
  function CommitFast(w: World, p: nat, value: Value): World
    requires p < |w.params|
  {
    var s := w.params[p];
    Note(Put(w, p, s.(value := value)), Committed(p, s.value, value, w.setup.decls[p].originator))
  }

  /** Do writes by `origin` need no part of the protocol? */
  predicate PlainWrites(d: Decl, s: Param, origin: Origin) {
    && d.isMutable
    && s.lockPwd.None?
    && |d.callbacks.preWrite| == 0
    && |d.callbacks.postWrite| == 0
    && origin == d.originator
  }

  function RefreshFastWrite(w: World, p: nat, origin: Origin): World
    requires p < |w.params|
  {
    var s := w.params[p];
    Put(w, p, s.(fastWrite := PlainWrites(w.setup.decls[p], s, origin)))
  }

  function RefreshFastRead(w: World, p: nat): World
    requires p < |w.params|
  {
    var d := w.setup.decls[p];
    Put(w, p, w.params[p].(fastRead := |d.callbacks.preRead| == 0 && |d.callbacks.postRead| == 0))
  }

  function LockParam(w: World, p: nat, key: Option<Key>): Result
    requires p < |w.params|
  {
    var s := w.params[p].(fastWrite := false);
    var k := Effective(p, key);
    if s.lockPwd.Some? && s.lockPwd != Some(k) then
      Result(Put(w, p, s), No)
    else
      Result(Put(w, p, s.(lockPwd := Some(k))), Ok)
  }

  function UnlockParam(w: World, p: nat, key: Option<Key>): Result
    requires p < |w.params|
  {
    var s := w.params[p];
    if s.lockPwd == Some(Effective(p, key)) then
      Result(Put(w, p, s.(lockPwd := None)), Ok)
    else
      Result(w, No)
  }

  /** The preset of `p` has been applied. */
  function Restore(w: World, p: nat): World
    requires p in w.setup.presets
  {
    Note(w, Restored(p, w.setup.presets[p].origin))
  }

  /** The payload built for a callback of list `kind`. The pre-write list and
      the read lists look at the current value, not at one saved earlier. */
  function EventFor(s: Param, kind: Kind, was: Value, value: Value, origin: Origin): Event {
    match kind
    case PreWrite => Event(s.value, value, origin)
    case PostWrite => Event(was, value, origin)
    case _ => Event(s.value, s.value, origin)
  }

  /** What a payload says about the parameter that its callback belongs to. */
  predicate Truthful(s: Param, kind: Kind, ev: Event) {
    match kind
    case PreWrite => ev.was == s.value
    case PostWrite => true
    case _ => ev.was == ev.becomes == s.value
  }

  /** The protocol. */
  function Exec(w: World, c: Call): (r: Result)
    requires InRange(w, c)
    ensures Frame(w, r.w)
    decreases Free(w), Rank(c), Work(w, c), 1
  {
    match c
    case Act(a) => ExecAct(w, a)
    case SetRaw(p, v, key, origin) => ExecSetRaw(w, p, v, key, origin)
    case Store(p, v, origin) => ExecStore(w, p, v, origin)
    case Fetch(p, origin) => ExecFetch(w, p, origin)
    case Dispatch(p, kind, was, v, origin) => ExecDispatch(w, p, kind, was, v, origin)
    case From(p, kind, i, ok, was, v, origin) => ExecFrom(w, p, kind, i, ok, was, v, origin)
    case Run(cb, ev, answers) => ExecRun(w, cb, ev, answers)
  }

  /** One API call. A call on a parameter that does not exist (an invalid
      handle) raises. */
  function ExecAct(w: World, a: Action): (r: Result)
    ensures Frame(w, r.w)
    decreases Free(w), 4, 0, 0
  {
    if a.target >= |w.params| then Result(w, Raised) else
    var s := w.params[a.target];
    var d := w.setup.decls[a.target];
    match a
    case Set(p, v, key, origin, _) => Exec(w, SetRaw(p, v, key, origin))
    case Get(p, origin, _) => Exec(w, Fetch(p, origin))
    case Assign(p, v, _) =>
      if w.setup.fastPaths && s.fastWrite then Result(CommitFast(w, p, v), Ok)
      else Exec(w, SetRaw(p, v, None, d.originator))
    case Use(p, _) =>
      if w.setup.fastPaths && s.fastRead then Result(w, Val(s.value))
      else Exec(w, Fetch(p, d.originator))
    case Reset(p, _) =>
      if s.lockPwd.Some? then Result(w, No)
      else if p in w.setup.presets then
        // preset_cci_value returns nothing, so reset says true even when a
        // callback has rejected the preset
        var r := Exec(w, Store(p, w.setup.presets[p].value, w.setup.presets[p].origin));
        if r.response.Raised? then r else Result(if r.response.Ok? then Restore(r.w, p) else r.w, Ok)
      else
        Exec(w, Store(p, d.defaultValue, d.originator))
    case Lock(p, key, _) => LockParam(w, p, key)
    case Unlock(p, key, _) => UnlockParam(w, p, key)
  }

  /** `set_raw_value`. */
  function ExecSetRaw(w: World, p: nat, v: Value, key: Option<Key>, origin: Origin): (r: Result)
    requires p < |w.params|
    ensures Frame(w, r.w)
    decreases Free(w), 3, 0, 0
  {
    if !w.setup.decls[p].isMutable || !KeyFits(w.params[p], key) then Refuse(w)
    else
      var r := Exec(w, Store(p, v, origin));
      if r.response.Ok? then Result(RefreshFastWrite(r.w, p, origin), Ok) else r
  }

  /** The part of a write that `set_raw_value`, `preset_cci_value` and `reset`
      have in common. */
  function ExecStore(w: World, p: nat, v: Value, origin: Origin): (r: Result)
    requires p < |w.params|
    ensures Frame(w, r.w)
    decreases Free(w), 2, 0, 0
  {
    var pre := Exec(w, Dispatch(p, PreWrite, v, v, origin));
    if !pre.response.Ok? then pre
    else
      var was := pre.w.params[p].value;
      var post := Exec(Commit(pre.w, p, v, origin), Dispatch(p, PostWrite, was, v, origin));
      Result(post.w, if post.response.Raised? then Raised else Ok)
  }

  /** `get_raw_value`, and the read of the value through its result. */
  function ExecFetch(w: World, p: nat, origin: Origin): (r: Result)
    requires p < |w.params|
    ensures Frame(w, r.w)
    decreases Free(w), 2, 0, 0
  {
    var v := w.params[p].value;
    var pre := Exec(w, Dispatch(p, PreRead, v, v, origin));
    if pre.response.Raised? then pre
    else
      var post := Exec(pre.w, Dispatch(p, PostRead, v, v, origin));
      if post.response.Raised? then post
      else Result(RefreshFastRead(post.w, p), Val(post.w.params[p].value))
  }

  /** `pre_write_callback` and the three like it: a list that is on the stack
      already is skipped, and `scoped_true` clears the tag on every exit. */
  function ExecDispatch(w: World, p: nat, kind: Kind, was: Value, v: Value, origin: Origin): (r: Result)
    requires p < |w.params|
    ensures Frame(w, r.w)
    decreases Free(w), 1, 0, 0
  {
    var slot := Slot(p, kind);
    if slot in w.on then Result(w, if kind.PreWrite? then No else Ok)
    else
      MarkUsesSlot(w, slot);
      var r := Exec(Mark(w, slot), From(p, kind, 0, true, was, v, origin));
      Result(Unmark(r.w, slot), r.response)
  }

  /** The loop over a callback list, from index `i` on. */
  function ExecFrom(w: World, p: nat, kind: Kind, i: nat, ok: bool, was: Value, v: Value, origin: Origin): (r: Result)
    requires p < |w.params|
    ensures Frame(w, r.w)
    decreases Free(w), 6, |w.setup.decls[p].callbacks.Of(kind)| - i, 0
  {
    var vec := w.setup.decls[p].callbacks.Of(kind);
    if i >= |vec| then Result(w, if ok then Ok else No)
    else
      var slot := Slot(p, kind);
      var ev := EventFor(w.params[p], kind, was, v, origin);
      var r := Exec(Note(w, Fired(slot, i, ev)), Run(vec[i], ev, []));
      if r.response.Raised? then r
      else
        var vote := kind.PreWrite? ==> r.response.Ok?;
        var w' := Note(r.w, Voted(slot, i, vote));
        if !vote && w.setup.throws then Result(w', Raised)
        else Exec(w', From(p, kind, i + 1, ok && vote, was, v, origin))
  }

  /** The body of one callback, after the calls that gave `answers`. */
  function ExecRun(w: World, cb: Callback, ev: Event, answers: seq<Response>): (r: Result)
    ensures Frame(w, r.w)
    decreases Free(w), 5, cb.steps(ev) - |answers|, 0
  {
    if |answers| >= cb.steps(ev) then
      Result(w, if cb.verdict(ev, answers) then Ok else No)
    else
      var a := cb.next(ev, answers);
      var r := Exec(w, Act(a));
      if r.response.Raised? && !a.caught then r
      else Exec(r.w, Run(cb, ev, answers + [r.response]))
  }

  // ------------------------------------------------------ unfolding lemmas

  lemma FromBody(w: World, p: nat, kind: Kind, i: nat, ok: bool, was: Value, v: Value, origin: Origin)
    requires p < |w.params|
    ensures Exec(w, From(p, kind, i, ok, was, v, origin)) == ExecFrom(w, p, kind, i, ok, was, v, origin)
  {
  }

  /** The loop over a list, one turn unfolded. */
  lemma FromUnfolds(w: World, p: nat, kind: Kind, i: nat, ok: bool, was: Value, v: Value, origin: Origin)
    requires p < |w.params| && i < |w.setup.decls[p].callbacks.Of(kind)|
    ensures
      var slot := Slot(p, kind);
      var ev := EventFor(w.params[p], kind, was, v, origin);
      var r := Exec(Note(w, Fired(slot, i, ev)), Run(w.setup.decls[p].callbacks.Of(kind)[i], ev, []));
      var vote := kind.PreWrite? ==> r.response.Ok?;
      var w' := Note(r.w, Voted(slot, i, vote));
      Exec(w, From(p, kind, i, ok, was, v, origin)) ==
      if r.response.Raised? then r
      else if !vote && w.setup.throws then Result(w', Raised)
      else Exec(w', From(p, kind, i + 1, ok && vote, was, v, origin))
  {
    hide Exec;
    FromBody(w, p, kind, i, ok, was, v, origin);
  }

  /** One turn of a post-write loop that does not throw. */
  lemma PostTurnUnfolds(w: World, p: nat, i: nat, ok: bool, was: Value, v: Value, origin: Origin)
    requires p < |w.params| && i < |w.setup.decls[p].callbacks.postWrite|
    ensures
      var slot := Slot(p, PostWrite);
      var ev := Event(was, v, origin);
      var r := Exec(Note(w, Fired(slot, i, ev)), Run(w.setup.decls[p].callbacks.postWrite[i], ev, []));
      !r.response.Raised? ==>
        Exec(w, From(p, PostWrite, i, ok, was, v, origin)) ==
        Exec(Note(r.w, Voted(slot, i, true)), From(p, PostWrite, i + 1, ok, was, v, origin))
  {
    var slot, ev := Slot(p, PostWrite), Event(was, v, origin);
    assert w.setup.decls[p].callbacks.Of(PostWrite) == w.setup.decls[p].callbacks.postWrite;
    assert EventFor(w.params[p], PostWrite, was, v, origin) == ev;
    var r := Exec(Note(w, Fired(slot, i, ev)), Run(w.setup.decls[p].callbacks.postWrite[i], ev, []));
    hide Exec, Note, EventFor;
    FromUnfolds(w, p, PostWrite, i, ok, was, v, origin);
  }

  /** The loop past the end of the list. */
  lemma FromEnds(w: World, p: nat, kind: Kind, i: nat, ok: bool, was: Value, v: Value, origin: Origin)
    requires p < |w.params| && i >= |w.setup.decls[p].callbacks.Of(kind)|
    ensures Exec(w, From(p, kind, i, ok, was, v, origin)) == Result(w, if ok then Ok else No)
  {
  }

  lemma ActBody(w: World, a: Action)
    ensures Exec(w, Act(a)) == ExecAct(w, a)
  {
  }

  lemma SetRawBody(w: World, p: nat, v: Value, key: Option<Key>, origin: Origin)
    requires p < |w.params|
    ensures Exec(w, SetRaw(p, v, key, origin)) == ExecSetRaw(w, p, v, key, origin)
  {
  }

  lemma StoreBody(w: World, p: nat, v: Value, origin: Origin)
    requires p < |w.params|
    ensures Exec(w, Store(p, v, origin)) == ExecStore(w, p, v, origin)
  {
  }

  lemma FetchBody(w: World, p: nat, origin: Origin)
    requires p < |w.params|
    ensures Exec(w, Fetch(p, origin)) == ExecFetch(w, p, origin)
  {
  }

  lemma DispatchBody(w: World, p: nat, kind: Kind, was: Value, v: Value, origin: Origin)
    requires p < |w.params|
    ensures Exec(w, Dispatch(p, kind, was, v, origin)) == ExecDispatch(w, p, kind, was, v, origin)
  {
  }

  lemma RunBody(w: World, cb: Callback, ev: Event, answers: seq<Response>)
    ensures Exec(w, Run(cb, ev, answers)) == ExecRun(w, cb, ev, answers)
  {
  }

  /** What `reset` writes: the preset, or the default in the owner's name. */
  function ResetTo(w: World, p: nat): Preset
    requires p < |w.params|
  {
    var d := w.setup.decls[p];
    if p in w.setup.presets then w.setup.presets[p] else Preset(d.defaultValue, d.originator)
  }

  /** A reset of an unlocked parameter is one store. */
  lemma ResetStores(w: World, p: nat, caught: bool)
    requires p < |w.params| && w.params[p].lockPwd.None?
    ensures
      var store := Exec(w, Store(p, ResetTo(w, p).value, ResetTo(w, p).origin));
      Exec(w, Act(Reset(p, caught))) ==
      if p !in w.setup.presets || store.response.Raised? then store
      else Result(if store.response.Ok? then Restore(store.w, p) else store.w, Ok)
  {
  }
}
