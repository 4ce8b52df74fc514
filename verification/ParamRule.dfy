/** An induction rule for the parameter protocol: a law that its elementary
    steps obey is obeyed by every call, however deeply callbacks re-enter. */
module ParamRule {
  import opened Values
  import opened ParamMachine

  /** `inv` holds between all steps, and `rel` relates the states before and
      after a call. `may` restricts the API calls that are considered. Writes to
      the parameter `guarded` need obey `rel` only in states that are not `loose`. */
  datatype Law = Law(
    inv: World -> bool,
    rel: (World, World) -> bool,
    may: Action -> bool,
    guarded: Option<nat>,
    loose: World -> bool)

  ghost predicate Plain(law: Law, p: nat) {
    law.guarded != Some(p)
  }

  ghost predicate CallbackMay(law: Law, cb: Callback) {
    forall ev: Event, answers: seq<Response> :: law.may(cb.next(ev, answers))
  }

  ghost predicate CallbacksMay(law: Law, decls: seq<Decl>) {
    forall q: nat, kind: Kind, i: nat :: q < |decls| && i < |decls[q].callbacks.Of(kind)| ==>
      CallbackMay(law, decls[q].callbacks.Of(kind)[i])
  }

  ghost predicate Preorder(law: Law) {
    && (forall w: World :: law.inv(w) ==> law.rel(w, w))
    && (forall a: World, b: World, c: World :: law.rel(a, b) && law.rel(b, c) ==> law.rel(a, c))
    && (forall w: World, w': World :: law.inv(w) && law.loose(w) ==> law.rel(w, w'))
  }

  ghost predicate HoldsOfTags(law: Law) {
    && (forall w: World, s: Slot ::
          law.inv(w) && s.param < |w.params| && |w.setup.decls[s.param].callbacks.Of(s.kind)| > 0 ==>
            law.inv(Mark(w, s)))
    && (forall w: World, s: Slot :: law.inv(w) ==> law.inv(Unmark(w, s)))
    && (forall w: World, w': World, s: Slot ::
          law.inv(w) && law.inv(w') && Frame(w, w') && s in w.on && law.rel(w, w') ==>
            law.rel(Unmark(w, s), Unmark(w', s)))
  }

  ghost predicate HoldsOfNotes(law: Law) {
    forall w: World, e: Entry :: law.inv(w) && InLoop(w, e) ==>
      law.inv(Note(w, e)) && law.rel(Unmark(w, e.slot), Unmark(Note(w, e), e.slot))
  }

  /** Can the loop over a callback list note `e`? */
  predicate InLoop(w: World, e: Entry) {
    && (e.Fired? || e.Voted?)
    && e.slot in w.on
    && (e.Fired? ==> e.slot.param < |w.params| && Truthful(w.params[e.slot.param], e.slot.kind, e.event))
  }

  ghost predicate HoldsOfRestores(law: Law) {
    forall w: World, p: nat, c: bool :: law.inv(w) && p < |w.params| && p in w.setup.presets && law.may(Reset(p, c)) ==>
      law.inv(Restore(w, p)) && law.rel(w, Restore(w, p))
  }

  ghost predicate HoldsOfCommits(law: Law) {
    && (forall w: World, p: nat, v: Value, o: Origin ::
          law.inv(w) && p < |w.params| && Slot(p, PreWrite) !in w.on ==>
            law.inv(Commit(w, p, v, o)) && (Plain(law, p) ==> law.rel(w, Commit(w, p, v, o))))
    && (forall w: World, p: nat, v: Value ::
          law.inv(w) && p < |w.params| && w.setup.fastPaths && w.params[p].fastWrite ==>
            law.inv(CommitFast(w, p, v)) && law.rel(w, CommitFast(w, p, v)))
  }

  ghost predicate HoldsOfFlags(law: Law) {
    && (forall w: World, p: nat, o: Origin :: law.inv(w) && p < |w.params| ==>
          law.inv(RefreshFastWrite(w, p, o)) && law.rel(w, RefreshFastWrite(w, p, o)))
    && (forall w: World, p: nat :: law.inv(w) && p < |w.params| ==>
          law.inv(RefreshFastRead(w, p)) && law.rel(w, RefreshFastRead(w, p)))
  }

  ghost predicate HoldsOfLocks(law: Law) {
    && (forall w: World, p: nat, k: Option<Key>, c: bool ::
          law.inv(w) && p < |w.params| && law.may(Lock(p, k, c)) ==>
            law.inv(LockParam(w, p, k).w) && law.rel(w, LockParam(w, p, k).w))
    && (forall w: World, p: nat, k: Option<Key>, c: bool ::
          law.inv(w) && p < |w.params| && law.may(Unlock(p, k, c)) ==>
            law.inv(UnlockParam(w, p, k).w) && law.rel(w, UnlockParam(w, p, k).w))
  }

  /** A permitted write that the lock of the guarded parameter lets through
      starts in a loose state. */
  ghost predicate GuardsWrites(law: Law) {
    && (forall w: World, p: nat, v: Value, k: Option<Key>, o: Origin, c: bool ::
          (law.inv(w) && p < |w.params| && !Plain(law, p) && KeyFits(w.params[p], k)
           && law.may(Set(p, v, k, o, c))) ==> law.loose(w))
    && (forall w: World, p: nat ::
          law.inv(w) && p < |w.params| && !Plain(law, p) && w.params[p].lockPwd.None? ==> law.loose(w))
  }

  ghost predicate Sound(law: Law) {
    && Preorder(law)
    && HoldsOfTags(law)
    && HoldsOfNotes(law)
    && HoldsOfRestores(law)
    && HoldsOfCommits(law)
    && HoldsOfFlags(law)
    && HoldsOfLocks(law)
    && GuardsWrites(law)
  }

  /** The calls to which a law applies. */
  ghost predicate Applies(law: Law, w: World, c: Call) {
    && InRange(w, c)
    && CallbacksMay(law, w.setup.decls)
    && (match c
        case Act(a) => law.may(a)
        case SetRaw(p, v, key, origin) =>
          Plain(law, p) || key.None? || exists caught :: law.may(Set(p, v, key, origin, caught))
        case Store(p, _, _) => Plain(law, p) || law.loose(w)
        case From(p, kind, _, _, _, _, _) => Slot(p, kind) in w.on
        case Run(cb, _, _) => CallbackMay(law, cb)
        case _ => true)
  }

  /** From inside the loop over a list the states are compared without its tag. */
  function Seen(w: World, c: Call): World {
    if c.From? then Unmark(w, Slot(c.param, c.kind)) else w
  }

  ghost predicate Obeys(law: Law, w: World, c: Call, w': World) {
    law.inv(w') && law.rel(Seen(w, c), Seen(w', c))
  }

  lemma EveryCallObeys(law: Law, w: World, c: Call)
    requires Sound(law) && law.inv(w) && Applies(law, w, c)
    ensures Obeys(law, w, c, Exec(w, c).w)
    decreases Free(w), Rank(c), Work(w, c), 1
  {
    match c
    case Act(a) => ActObeys(law, w, a);
    case SetRaw(p, v, key, origin) => SetRawObeys(law, w, p, v, key, origin);
    case Store(p, v, origin) => StoreObeys(law, w, p, v, origin);
    case Fetch(p, origin) => FetchObeys(law, w, p, origin);
    case Dispatch(p, kind, was, v, origin) => DispatchObeys(law, w, p, kind, was, v, origin);
    case From(p, kind, i, ok, was, v, origin) => FromObeys(law, w, p, kind, i, ok, was, v, origin);
    case Run(cb, ev, answers) => RunObeys(law, w, cb, ev, answers);
  }

  lemma ActObeys(law: Law, w: World, a: Action)
    requires Sound(law) && law.inv(w) && Applies(law, w, Act(a))
    ensures Obeys(law, w, Act(a), ExecAct(w, a).w)
    decreases Free(w), 4, 0, 0
  {
    if a.target < |w.params| {
      var d := w.setup.decls[a.target];
      match a
      case Set(p, v, key, origin, _) => EveryCallObeys(law, w, SetRaw(p, v, key, origin));
      case Get(p, origin, _) => EveryCallObeys(law, w, Fetch(p, origin));
      case Assign(p, v, _) => EveryCallObeys(law, w, SetRaw(p, v, None, d.originator));
      case Use(p, _) => EveryCallObeys(law, w, Fetch(p, d.originator));
      case Reset(p, _) =>
        if w.params[p].lockPwd.None? {
          if p in w.setup.presets {
            var c := Store(p, w.setup.presets[p].value, w.setup.presets[p].origin);
            EveryCallObeys(law, w, c);
            assert Exec(w, c).response.Ok? ==> law.rel(Exec(w, c).w, Restore(Exec(w, c).w, p));
          } else {
            EveryCallObeys(law, w, Store(p, d.defaultValue, d.originator));
          }
        }
      case Lock(p, key, _) =>
      case Unlock(p, key, _) =>
    }
  }

  lemma SetRawObeys(law: Law, w: World, p: nat, v: Value, key: Option<Key>, origin: Origin)
    requires Sound(law) && law.inv(w) && Applies(law, w, SetRaw(p, v, key, origin))
    ensures Obeys(law, w, SetRaw(p, v, key, origin), ExecSetRaw(w, p, v, key, origin).w)
    decreases Free(w), 3, 0, 0
  {
    if w.setup.decls[p].isMutable && KeyFits(w.params[p], key) {
      EveryCallObeys(law, w, Store(p, v, origin));
      var r := Exec(w, Store(p, v, origin));
      assert law.rel(r.w, RefreshFastWrite(r.w, p, origin));
    }
  }

  lemma StoreObeys(law: Law, w: World, p: nat, v: Value, origin: Origin)
    requires Sound(law) && law.inv(w) && Applies(law, w, Store(p, v, origin))
    ensures Obeys(law, w, Store(p, v, origin), ExecStore(w, p, v, origin).w)
    decreases Free(w), 2, 0, 0
  {
    var d := Dispatch(p, PreWrite, v, v, origin);
    EveryCallObeys(law, w, d);
    var pre := Exec(w, d);
    DispatchBody(w, p, PreWrite, v, v, origin);
    if pre.response.Ok? {
      var w1 := Commit(pre.w, p, v, origin);
      var c := Dispatch(p, PostWrite, pre.w.params[p].value, v, origin);
      EveryCallObeys(law, w1, c);
      assert law.rel(w1, Exec(w1, c).w);
      if Plain(law, p) {
        assert law.rel(pre.w, w1);
        assert law.rel(w, w1);
      }
    }
  }

  lemma FetchObeys(law: Law, w: World, p: nat, origin: Origin)
    requires Sound(law) && law.inv(w) && Applies(law, w, Fetch(p, origin))
    ensures Obeys(law, w, Fetch(p, origin), ExecFetch(w, p, origin).w)
    decreases Free(w), 2, 0, 0
  {
    var v := w.params[p].value;
    var pre := Exec(w, Dispatch(p, PreRead, v, v, origin));
    EveryCallObeys(law, w, Dispatch(p, PreRead, v, v, origin));
    EveryCallObeys(law, pre.w, Dispatch(p, PostRead, v, v, origin));
    var post := Exec(pre.w, Dispatch(p, PostRead, v, v, origin)).w;
    assert law.rel(w, post);
    assert law.rel(post, RefreshFastRead(post, p));
  }

  lemma DispatchObeys(law: Law, w: World, p: nat, kind: Kind, was: Value, v: Value, origin: Origin)
    requires Sound(law) && law.inv(w) && Applies(law, w, Dispatch(p, kind, was, v, origin))
    ensures Obeys(law, w, Dispatch(p, kind, was, v, origin), ExecDispatch(w, p, kind, was, v, origin).w)
    decreases Free(w), 1, 0, 0
  {
    var slot := Slot(p, kind);
    if slot !in w.on {
      MarkUsesSlot(w, slot);
      var c := From(p, kind, 0, true, was, v, origin);
      assert Unmark(Mark(w, slot), slot) == w;
      if |w.setup.decls[p].callbacks.Of(kind)| > 0 {
        EveryCallObeys(law, Mark(w, slot), c);
      } else {
        FromBody(Mark(w, slot), p, kind, 0, true, was, v, origin);
      }
    }
  }

  /** One turn of the loop, up to the note of the verdict. */
  lemma TurnObeys(law: Law, w: World, p: nat, kind: Kind, i: nat, ev: Event)
    requires Sound(law) && law.inv(w) && CallbacksMay(law, w.setup.decls)
    requires p < |w.params| && Slot(p, kind) in w.on && i < |w.setup.decls[p].callbacks.Of(kind)|
    requires Truthful(w.params[p], kind, ev)
    ensures
      var slot := Slot(p, kind);
      var r := Exec(Note(w, Fired(slot, i, ev)), Run(w.setup.decls[p].callbacks.Of(kind)[i], ev, []));
      && law.inv(r.w) && law.rel(Unmark(w, slot), Unmark(r.w, slot))
      && (forall vote: bool :: var w2 := Note(r.w, Voted(slot, i, vote));
            law.inv(w2) && law.rel(Unmark(w, slot), Unmark(w2, slot)))
    decreases Free(w), 5,
      Work(w, Run(w.setup.decls[p].callbacks.Of(kind)[i], ev, [])), 2
  {
    var slot := Slot(p, kind);
    var w1 := Note(w, Fired(slot, i, ev));
    assert InLoop(w, Fired(slot, i, ev));
    assert law.rel(Unmark(w, slot), Unmark(w1, slot));
    var run := Run(w.setup.decls[p].callbacks.Of(kind)[i], ev, []);
    EveryCallObeys(law, w1, run);
    var r := Exec(w1, run);
    assert law.rel(Unmark(w1, slot), Unmark(r.w, slot));
    forall vote: bool
      ensures var w2 := Note(r.w, Voted(slot, i, vote));
        law.inv(w2) && law.rel(Unmark(w, slot), Unmark(w2, slot))
    {
      assert InLoop(r.w, Voted(slot, i, vote));
      assert law.rel(Unmark(r.w, slot), Unmark(Note(r.w, Voted(slot, i, vote)), slot));
    }
  }

  lemma FromObeys(law: Law, w: World, p: nat, kind: Kind, i: nat, ok: bool, was: Value, v: Value, origin: Origin)
    requires Sound(law) && law.inv(w) && Applies(law, w, From(p, kind, i, ok, was, v, origin))
    ensures Obeys(law, w, From(p, kind, i, ok, was, v, origin), ExecFrom(w, p, kind, i, ok, was, v, origin).w)
    decreases Free(w), 6, |w.setup.decls[p].callbacks.Of(kind)| - i, 0
  {
    var vec := w.setup.decls[p].callbacks.Of(kind);
    var slot := Slot(p, kind);
    FromBody(w, p, kind, i, ok, was, v, origin);
    if i >= |vec| {
      assert law.inv(Unmark(w, slot));
    } else {
      FromUnfolds(w, p, kind, i, ok, was, v, origin);
      var ev := EventFor(w.params[p], kind, was, v, origin);
      TurnObeys(law, w, p, kind, i, ev);
      var r := Exec(Note(w, Fired(slot, i, ev)), Run(vec[i], ev, []));
      var vote := kind.PreWrite? ==> r.response.Ok?;
      var w2 := Note(r.w, Voted(slot, i, vote));
      if !r.response.Raised? && (vote || !w.setup.throws) {
        EveryCallObeys(law, w2, From(p, kind, i + 1, ok && vote, was, v, origin));
      }
    }
  }

  lemma RunObeys(law: Law, w: World, cb: Callback, ev: Event, answers: seq<Response>)
    requires Sound(law) && law.inv(w) && Applies(law, w, Run(cb, ev, answers))
    ensures Obeys(law, w, Run(cb, ev, answers), ExecRun(w, cb, ev, answers).w)
    decreases Free(w), 5, cb.steps(ev) - |answers|, 0
  {
    if |answers| < cb.steps(ev) {
      var a := cb.next(ev, answers);
      EveryCallObeys(law, w, Act(a));
      var r := Exec(w, Act(a));
      assert law.rel(w, r.w);
      EveryCallObeys(law, r.w, Run(cb, ev, answers + [r.response]));
    }
  }
}
