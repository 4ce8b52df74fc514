/** Runs of API calls on a set of parameters, and what holds over all of them. */
module ParamRuns {
  import opened Values
  import opened ParamMachine
  import opened ParamRule
  import opened ParamLaws

  /** An operation made while no callback runs. */
  datatype Op =
    | Do(action: Action)
    | Register(param: nat, kind: Kind, cb: Callback)
    | Unregister(param: nat, kind: Kind, id: nat, owner: Origin)
    | UnregisterAll(param: nat, owner: Origin)
    | SetPreset(param: nat, preset: Preset)

  /** The loop of `unregister_all_callbacks` over one list: it steps on after an
      erase, and so skips the neighbour of each entry that it erases. */
  function EraseOwned(vec: seq<Callback>, owner: Origin): seq<Callback> {
    if |vec| == 0 then []
    else if vec[0].owner != owner then [vec[0]] + EraseOwned(vec[1..], owner)
    else if |vec| == 1 then []
    else [vec[1]] + EraseOwned(vec[2..], owner)
  }

  function WithDecl(w: World, p: nat, d: Decl): World
    requires p < |w.params|
  {
    w.(setup := w.setup.(decls := w.setup.decls[p := d]))
  }

  function RegisterCallback(w: World, p: nat, kind: Kind, cb: Callback): World
    requires p < |w.params|
  {
    var d := w.setup.decls[p];
    var w' := WithDecl(w, p, d.(callbacks := d.callbacks.With(kind, d.callbacks.Of(kind) + [cb])));
    Put(w', p, w.params[p].(fastRead := false, fastWrite := false))
  }

  predicate Matches(cb: Callback, id: nat, owner: Origin) {
    cb.id == id && cb.owner == owner
  }

  /** The first entry for this callback and originator; the length for none. */
  function FindCallback(vec: seq<Callback>, id: nat, owner: Origin): (i: nat)
    ensures i <= |vec| && (i < |vec| ==> Matches(vec[i], id, owner))
    ensures forall k :: 0 <= k < i ==> !Matches(vec[k], id, owner)
  {
    if |vec| == 0 || Matches(vec[0], id, owner) then 0 else 1 + FindCallback(vec[1..], id, owner)
  }

  function UnregisterCallback(w: World, p: nat, kind: Kind, id: nat, owner: Origin): World
    requires p < |w.params|
  {
    var d := w.setup.decls[p];
    var vec := d.callbacks.Of(kind);
    var i := FindCallback(vec, id, owner);
    if i >= |vec| then w
    else WithDecl(w, p, d.(callbacks := d.callbacks.With(kind, vec[..i] + vec[i + 1..])))
  }

  function UnregisterAllOf(w: World, p: nat, owner: Origin): World
    requires p < |w.params|
  {
    var d := w.setup.decls[p];
    var l := d.callbacks;
    WithDecl(w, p, d.(callbacks := Lists(
      EraseOwned(l.preWrite, owner), EraseOwned(l.postWrite, owner),
      EraseOwned(l.preRead, owner), EraseOwned(l.postRead, owner))))
  }

  function Step(w: World, op: Op): (r: World)
    ensures |r.params| == |w.params|
  {
    match op
    case Do(a) => Exec(w, Act(a)).w
    case SetPreset(p, preset) => w.(setup := w.setup.(presets := w.setup.presets[p := preset]))
    case Register(p, kind, cb) => if p < |w.params| then RegisterCallback(w, p, kind, cb) else w
    case Unregister(p, kind, id, owner) => if p < |w.params| then UnregisterCallback(w, p, kind, id, owner) else w
    case UnregisterAll(p, owner) => if p < |w.params| then UnregisterAllOf(w, p, owner) else w
  }

  function RunAll(w: World, ops: seq<Op>): (r: World)
    ensures |r.params| == |w.params|
    decreases |ops|
  {
    if |ops| == 0 then w else RunAll(Step(w, ops[0]), ops[1..])
  }

  // ----------------------------------------------------------- the flags

  lemma EraseKeepsEmpty(vec: seq<Callback>, owner: Origin)
    ensures |EraseOwned(vec, owner)| <= |vec|
  {
  }

  /** From one quiet state to the next the flags stay true to the state, and no
      tag is left behind. */
  lemma StepKeepsHealth(w: World, op: Op)
    requires Healthy(w) && w.on == {}
    ensures Healthy(Step(w, op)) && Step(w, op).on == {}
    ensures |Step(w, op).params| == |w.params|
  {
    match op
    case Do(a) => EveryCallRespects(w, Act(a));
    case SetPreset(_, _) =>
    case Register(_, _, _) =>
    case Unregister(_, _, _, _) =>
    case UnregisterAll(p, owner) =>
      if p < |w.params| {
        var l := w.setup.decls[p].callbacks;
        EraseKeepsEmpty(l.preWrite, owner);
        EraseKeepsEmpty(l.postWrite, owner);
        EraseKeepsEmpty(l.preRead, owner);
        EraseKeepsEmpty(l.postRead, owner);
      }
  }

  lemma {:induction false} RunKeepsHealth(w: World, ops: seq<Op>)
    requires Healthy(w) && w.on == {}
    ensures Healthy(RunAll(w, ops)) && RunAll(w, ops).on == {}
    ensures |RunAll(w, ops).params| == |w.params|
    decreases |ops|
  {
    if |ops| > 0 {
      StepKeepsHealth(w, ops[0]);
      RunKeepsHealth(Step(w, ops[0]), ops[1..]);
    }
  }

  // ------------------------------------------------ unregister_all_callbacks

  ghost predicate Owned(vec: seq<Callback>, owner: Origin, i: int)
    requires 0 <= i < |vec|
  {
    vec[i].owner == owner
  }

  ghost predicate NoneOwned(vec: seq<Callback>, owner: Origin) {
    forall i :: 0 <= i < |vec| ==> !Owned(vec, owner, i)
  }

  ghost predicate NoNeighbours(vec: seq<Callback>, owner: Origin) {
    forall i :: 0 <= i < |vec| - 1 ==> !(Owned(vec, owner, i) && vec[i + 1].owner == owner)
  }

  /** `unregister_all_callbacks` removes all callbacks of an originator exactly
      when no two of them are neighbours in a list. */
  lemma {:induction false} EraseOwnedIsComplete(vec: seq<Callback>, owner: Origin)
    ensures NoneOwned(EraseOwned(vec, owner), owner) <==> NoNeighbours(vec, owner)
    decreases |vec|
  {
    if |vec| == 0 {
    } else if vec[0].owner != owner {
      var rest := EraseOwned(vec[1..], owner);
      EraseOwnedIsComplete(vec[1..], owner);
      ConsOwned(vec[0], rest, owner);
      TailNeighbours(vec, owner);
    } else if |vec| > 1 {
      var rest := EraseOwned(vec[2..], owner);
      EraseOwnedIsComplete(vec[2..], owner);
      ConsOwned(vec[1], rest, owner);
      TailNeighbours(vec, owner);
      TailNeighbours(vec[1..], owner);
      assert vec[1..][1..] == vec[2..];
    }
  }

  /** The callbacks of the other originators. */
  function OfOthers(vec: seq<Callback>, owner: Origin): seq<Callback> {
    if |vec| == 0 then [] else (if vec[0].owner == owner then [] else [vec[0]]) + OfOthers(vec[1..], owner)
  }

  /** Those stay, in their order. */
  lemma {:induction false} EraseOwnedSparesOthers(vec: seq<Callback>, owner: Origin)
    ensures OfOthers(EraseOwned(vec, owner), owner) == OfOthers(vec, owner)
    decreases |vec|
  {
    if |vec| > 0 && vec[0].owner != owner {
      EraseOwnedSparesOthers(vec[1..], owner);
      assert EraseOwned(vec, owner)[1..] == EraseOwned(vec[1..], owner);
    } else if |vec| > 1 {
      EraseOwnedSparesOthers(vec[2..], owner);
      assert EraseOwned(vec, owner)[1..] == EraseOwned(vec[2..], owner);
      assert vec[1..][1..] == vec[2..];
    }
  }

  /** Of two callbacks of one originator that stand together, the second stays. */
  lemma NeighbourStays(one: Callback, two: Callback)
    requires one.owner == two.owner
    ensures EraseOwned([one, two], one.owner) == [two] && !NoneOwned([two], one.owner)
  {
    assert Owned([two], one.owner, 0);
  }

  /** On all four lists: everything of the originator is gone exactly when no two
      of its callbacks were neighbours in any list. */
  lemma UnregisterAllIsComplete(w: World, p: nat, owner: Origin)
    requires p < |w.params|
    ensures
      (forall kind: Kind :: NoneOwned(UnregisterAllOf(w, p, owner).setup.decls[p].callbacks.Of(kind), owner))
      <==> (forall kind: Kind :: NoNeighbours(w.setup.decls[p].callbacks.Of(kind), owner))
  {
    var l, l' := w.setup.decls[p].callbacks, UnregisterAllOf(w, p, owner).setup.decls[p].callbacks;
    forall kind: Kind ensures NoneOwned(l'.Of(kind), owner) <==> NoNeighbours(l.Of(kind), owner) {
      EraseOwnedIsComplete(l.Of(kind), owner);
      assert l'.Of(kind) == EraseOwned(l.Of(kind), owner);
    }
  }

  lemma ListPutBack(l: Lists, kind: Kind, vec: seq<Callback>)
    ensures l.With(kind, vec).Of(kind) == vec && l.With(kind, vec).With(kind, l.Of(kind)) == l
  {
  }

  lemma {:induction false} FirstIsFound(vec: seq<Callback>, id: nat, owner: Origin, i: nat)
    requires i <= |vec| && (i < |vec| ==> Matches(vec[i], id, owner))
    requires forall k :: 0 <= k < i ==> !Matches(vec[k], id, owner)
    ensures FindCallback(vec, id, owner) == i
  {
  }

  /** Unregistering undoes registering, but for the fast flags, unless the same
      callback of the same originator was in the list already. */
  lemma UnregisterUndoesRegister(w: World, p: nat, kind: Kind, cb: Callback)
    requires p < |w.params|
    requires forall c :: c in w.setup.decls[p].callbacks.Of(kind) ==> !Matches(c, cb.id, cb.owner)
    ensures UnregisterCallback(RegisterCallback(w, p, kind, cb), p, kind, cb.id, cb.owner) ==
            Put(w, p, w.params[p].(fastRead := false, fastWrite := false))
  {
    hide FindCallback;
    var d := w.setup.decls[p];
    var vec := d.callbacks.Of(kind);
    FirstIsFound(vec + [cb], cb.id, cb.owner, |vec|);
    assert (vec + [cb])[..|vec|] + (vec + [cb])[|vec| + 1..] == vec;
    ListPutBack(d.callbacks, kind, vec + [cb]);
    var d' := d.(callbacks := d.callbacks.With(kind, vec + [cb]));
    assert w.setup.decls[p := d'][p := d] == w.setup.decls;
  }

  lemma ConsOwned(cb: Callback, rest: seq<Callback>, owner: Origin)
    ensures NoneOwned([cb] + rest, owner) <==> cb.owner != owner && NoneOwned(rest, owner)
  {
    var vec := [cb] + rest;
    assert Owned(vec, owner, 0) <==> cb.owner == owner;
    assert forall i :: 0 <= i < |rest| ==> (Owned(rest, owner, i) <==> Owned(vec, owner, i + 1));
    assert forall i :: 0 < i < |vec| ==> (Owned(vec, owner, i) <==> Owned(rest, owner, i - 1));
  }

  lemma TailNeighbours(vec: seq<Callback>, owner: Origin)
    requires |vec| > 0
    ensures NoNeighbours(vec, owner) <==>
            (|vec| > 1 ==> !(vec[0].owner == owner && vec[1].owner == owner)) && NoNeighbours(vec[1..], owner)
  {
    if NoNeighbours(vec, owner) {
      if |vec| > 1 { assert !(Owned(vec, owner, 0) && vec[1].owner == owner); }
      forall i | 0 <= i < |vec[1..]| - 1
        ensures !(Owned(vec[1..], owner, i) && vec[1..][i + 1].owner == owner)
      {
        assert !(Owned(vec, owner, i + 1) && vec[i + 2].owner == owner);
      }
    } else {
      var i :| 0 <= i < |vec| - 1 && Owned(vec, owner, i) && vec[i + 1].owner == owner;
      if i > 0 { assert Owned(vec[1..], owner, i - 1); }
    }
  }

  // ---------------------------------------------------------------- locks

  /** Does this call leave out key `k` of parameter `p`? No key stands for the
      parameter itself in `lock` and `unlock`, but not in a write. */
  predicate Avoids(a: Action, p: nat, k: Key) {
    match a
    case Set(q, _, key, _, _) => q == p ==> key != Some(k)
    case Lock(q, key, _) => q == p ==> Effective(p, key) != k
    case Unlock(q, key, _) => q == p ==> Effective(p, key) != k
    case _ => true
  }

  predicate LockedBy(w: World, p: nat, k: Key) {
    p < |w.params| && w.params[p].lockPwd == Some(k)
  }

  ghost predicate StaysLocked(w: World, w': World, p: nat, k: Key) {
    LockedBy(w, p, k) ==> LockedBy(w', p, k) && SameValue(w.params[p], w'.params[p])
  }

  ghost function LockLaw(p: nat, k: Key): Law {
    Law((w: World) => Healthy(w),
        (w: World, w': World) => StaysLocked(w, w', p, k),
        a => Avoids(a, p, k),
        Some(p),
        (w: World) => !LockedBy(w, p, k))
  }

  lemma LockLawCommits(p: nat, k: Key)
    ensures HoldsOfCommits(LockLaw(p, k))
  {
    hide Healthy;
    forall w: World, q: nat, v: Value, o: Origin | Healthy(w) && q < |w.params|
      ensures Healthy(Commit(w, q, v, o)) && (q != p ==> StaysLocked(w, Commit(w, q, v, o), p, k))
    {
      CommitIsHealthy(w, q, v, o);
    }
    forall w: World, q: nat, v: Value | Healthy(w) && q < |w.params| && w.params[q].fastWrite
      ensures Healthy(CommitFast(w, q, v)) && StaysLocked(w, CommitFast(w, q, v), p, k)
    {
      FastCommitIsLawful(w, q, v, p, k);
    }
  }

  lemma FastCommitIsLawful(w: World, q: nat, v: Value, p: nat, k: Key)
    requires Healthy(w) && q < |w.params| && w.params[q].fastWrite
    ensures Healthy(CommitFast(w, q, v)) && StaysLocked(w, CommitFast(w, q, v), p, k)
  {
    HealthyPut(w, q, w.params[q].(value := v));
  }

  lemma LockLawFlags(p: nat, k: Key)
    ensures HoldsOfFlags(LockLaw(p, k))
  {
    StandingFlags();
    assert forall w: World :: Standing().inv(w) == LockLaw(p, k).inv(w);
  }

  lemma LockIsLawful(w: World, q: nat, key: Option<Key>, p: nat, k: Key)
    requires Healthy(w) && q < |w.params| && (q == p ==> Effective(p, key) != k)
    ensures Healthy(LockParam(w, q, key).w) && Healthy(UnlockParam(w, q, key).w)
    ensures StaysLocked(w, LockParam(w, q, key).w, p, k) && StaysLocked(w, UnlockParam(w, q, key).w, p, k)
  {
  }

  lemma LockLawLocks(p: nat, k: Key)
    ensures HoldsOfLocks(LockLaw(p, k))
  {
    forall w: World, q: nat, key: Option<Key> | Healthy(w) && q < |w.params| && (q == p ==> Effective(p, key) != k)
      ensures Healthy(LockParam(w, q, key).w) && StaysLocked(w, LockParam(w, q, key).w, p, k)
      ensures Healthy(UnlockParam(w, q, key).w) && StaysLocked(w, UnlockParam(w, q, key).w, p, k)
    {
      LockIsLawful(w, q, key, p, k);
    }
  }

  lemma LockLawGuards(p: nat, k: Key)
    ensures GuardsWrites(LockLaw(p, k))
  {
  }

  lemma LockLawTags(p: nat, k: Key)
    ensures HoldsOfTags(LockLaw(p, k))
  {
    StandingTags();
    assert forall w: World :: Standing().inv(w) == LockLaw(p, k).inv(w);
  }

  lemma LockLawNotes(p: nat, k: Key)
    ensures Preorder(LockLaw(p, k))
    ensures HoldsOfNotes(LockLaw(p, k))
    ensures HoldsOfRestores(LockLaw(p, k))
  {
  }

  lemma LockLawIsSound(p: nat, k: Key)
    ensures Sound(LockLaw(p, k))
  {
    LockLawTags(p, k);
    LockLawNotes(p, k);
    LockLawCommits(p, k);
    LockLawFlags(p, k);
    LockLawLocks(p, k);
    LockLawGuards(p, k);
  }

  ghost predicate OpAvoids(op: Op, p: nat, k: Key) {
    match op
    case Do(a) => Avoids(a, p, k)
    case Register(_, _, cb) => CallbackMay(LockLaw(p, k), cb)
    case _ => true
  }

  lemma EraseOwnedKeeps(vec: seq<Callback>, owner: Origin)
    ensures forall cb :: cb in EraseOwned(vec, owner) ==> cb in vec
  {
  }

  ghost predicate ListsMay(law: Law, l: Lists) {
    forall kind: Kind, cb: Callback :: cb in l.Of(kind) ==> CallbackMay(law, cb)
  }

  lemma WithDeclMay(law: Law, w: World, p: nat, d: Decl)
    requires p < |w.params| && CallbacksMay(law, w.setup.decls) && ListsMay(law, d.callbacks)
    ensures CallbacksMay(law, WithDecl(w, p, d).setup.decls)
  {
  }

  lemma DeclMay(law: Law, w: World, p: nat)
    requires p < |w.params| && CallbacksMay(law, w.setup.decls)
    ensures ListsMay(law, w.setup.decls[p].callbacks)
  {
  }

  lemma ListKeeps(l: Lists, kind: Kind, other: Kind, vec: seq<Callback>, cb: Callback)
    requires cb in l.With(kind, vec).Of(other)
    ensures cb in l.Of(other) || (other == kind && cb in vec)
  {
  }

  lemma RegisterBrings(w: World, p: nat, kind: Kind, added: Callback, other: Kind, cb: Callback)
    requires p < |w.params| && cb in RegisterCallback(w, p, kind, added).setup.decls[p].callbacks.Of(other)
    ensures cb in w.setup.decls[p].callbacks.Of(other) || cb == added
  {
    var l := w.setup.decls[p].callbacks;
    ListKeeps(l, kind, other, l.Of(kind) + [added], cb);
  }

  lemma UnregisterBrings(w: World, p: nat, kind: Kind, id: nat, owner: Origin, other: Kind, cb: Callback)
    requires p < |w.params| && cb in UnregisterCallback(w, p, kind, id, owner).setup.decls[p].callbacks.Of(other)
    ensures cb in w.setup.decls[p].callbacks.Of(other)
  {
    hide FindCallback;
    var l := w.setup.decls[p].callbacks;
    var i := FindCallback(l.Of(kind), id, owner);
    if i < |l.Of(kind)| { ListKeeps(l, kind, other, l.Of(kind)[..i] + l.Of(kind)[i + 1..], cb); }
  }

  lemma UnregisterAllBrings(w: World, p: nat, owner: Origin, other: Kind, cb: Callback)
    requires p < |w.params| && cb in UnregisterAllOf(w, p, owner).setup.decls[p].callbacks.Of(other)
    ensures cb in w.setup.decls[p].callbacks.Of(other)
  {
    hide EraseOwned;
    EraseOwnedKeeps(w.setup.decls[p].callbacks.Of(other), owner);
  }

  lemma OpBringsNothing(w: World, op: Op, kind: Kind, cb: Callback)
    requires !op.Do? && !op.SetPreset? && op.param < |w.params|
    requires cb in Step(w, op).setup.decls[op.param].callbacks.Of(kind)
    ensures cb in w.setup.decls[op.param].callbacks.Of(kind) || (op.Register? && cb == op.cb)
  {
    hide Exec, RegisterCallback, UnregisterCallback, UnregisterAllOf;
    match op
    case Register(p, k, added) => RegisterBrings(w, p, k, added, kind, cb);
    case Unregister(p, k, id, owner) => UnregisterBrings(w, p, k, id, owner, kind, cb);
    case UnregisterAll(p, owner) => UnregisterAllBrings(w, p, owner, kind, cb);
  }

  /** No operation brings in a callback that presents the key. */
  lemma StepKeepsCallbacks(w: World, op: Op, p: nat, k: Key)
    requires CallbacksMay(LockLaw(p, k), w.setup.decls) && OpAvoids(op, p, k)
    ensures CallbacksMay(LockLaw(p, k), Step(w, op).setup.decls)
  {
    var law := LockLaw(p, k);
    if !op.Do? && !op.SetPreset? && op.param < |w.params| {
      DeclMay(law, w, op.param);
      var d' := Step(w, op).setup.decls[op.param];
      forall kind: Kind, cb: Callback | cb in d'.callbacks.Of(kind) ensures CallbackMay(law, cb) {
        OpBringsNothing(w, op, kind, cb);
      }
      WithDeclMay(law, w, op.param, d');
    }
  }

  /** Locked with key `k`, a parameter keeps its value, its origin and its lock
      over every run that never presents `k`. */
  lemma {:induction false} LockedForTheWholeRun(w: World, ops: seq<Op>, p: nat, k: Key)
    requires Healthy(w) && w.on == {} && LockedBy(w, p, k)
    requires CallbacksMay(LockLaw(p, k), w.setup.decls)
    requires forall op :: op in ops ==> OpAvoids(op, p, k)
    ensures LockedBy(RunAll(w, ops), p, k)
    ensures SameValue(w.params[p], RunAll(w, ops).params[p])
    decreases |ops|
  {
    if |ops| > 0 {
      var op := ops[0];
      StepKeepsHealth(w, op);
      StepKeepsCallbacks(w, op, p, k);
      if op.Do? {
        LockLawIsSound(p, k);
        EveryCallObeys(LockLaw(p, k), w, Act(op.action));
      }
      assert StaysLocked(w, Step(w, op), p, k);
      LockedForTheWholeRun(Step(w, op), ops[1..], p, k);
    }
  }
}
