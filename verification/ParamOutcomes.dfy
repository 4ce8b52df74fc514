/** What calls of the API come to, told by the fields of the state and by what the
    callbacks themselves say. */
module ParamOutcomes {
  import opened Values
  import opened ParamMachine
  import opened ParamRule
  import opened ParamLaws
  import opened ParamRuns
  import opened ParamTheorems

  // ------------------------------------------------------ what a callback does

  /** These calls of the callback were made one after another, each on the state
      that the one before left, and gave these answers. */
  ghost predicate Made(w: World, cb: Callback, ev: Event, answers: seq<Response>, states: seq<World>) {
    && |states| == |answers| + 1 && states[0] == w
    && |answers| <= cb.steps(ev)
    && forall k :: 0 <= k < |answers| ==> Called(cb, ev, answers, states, k)
  }

  ghost predicate Called(cb: Callback, ev: Event, answers: seq<Response>, states: seq<World>, k: nat)
    requires |states| == |answers| + 1 && k < |answers|
  {
    var a := cb.next(ev, answers[..k]);
    && Exec(states[k], Act(a)) == Result(states[k + 1], answers[k])
    && (answers[k].Raised? ==> a.caught)
  }

  /** The callback ended like this: with its verdict after the last call, or with
      the first report that it did not catch. */
  ghost predicate Ended(cb: Callback, ev: Event, answers: seq<Response>, last: World, r: Result) {
    if |answers| == cb.steps(ev) then
      r == Result(last, if cb.verdict(ev, answers) then Ok else No)
    else
      var a := cb.next(ev, answers);
      r == Exec(last, Act(a)) && r.response.Raised? && !a.caught
  }

  lemma {:induction false} RunGoesOn(w: World, cb: Callback, ev: Event, made: seq<Response>, on: seq<World>)
    returns (answers: seq<Response>, states: seq<World>)
    requires Made(w, cb, ev, made, on)
    ensures Made(w, cb, ev, answers, states)
    ensures Ended(cb, ev, answers, states[|answers|], Exec(on[|made|], Run(cb, ev, made)))
    decreases cb.steps(ev) - |made|
  {
    hide Exec;
    var here := on[|made|];
    RunBody(here, cb, ev, made);
    answers, states := made, on;
    if |made| < cb.steps(ev) {
      var a := cb.next(ev, made);
      var r := Exec(here, Act(a));
      if !r.response.Raised? || a.caught {
        var more, next := made + [r.response], on + [r.w];
        forall k | 0 <= k < |more| ensures Called(cb, ev, more, next, k) {
          if k < |made| {
            assert Called(cb, ev, made, on, k);
            assert more[..k] == made[..k];
          } else {
            assert more[..k] == made;
          }
        }
        answers, states := RunGoesOn(w, cb, ev, more, next);
      }
    }
  }

  /** A callback makes the calls it asks for, each chosen from the answers so far,
      and then gives its verdict on them. */
  lemma CallbackMakesItsCalls(w: World, cb: Callback, ev: Event)
    returns (answers: seq<Response>, states: seq<World>)
    ensures Made(w, cb, ev, answers, states)
    ensures Ended(cb, ev, answers, states[|answers|], Exec(w, Run(cb, ev, [])))
  {
    answers, states := RunGoesOn(w, cb, ev, [], [w]);
  }

  // ------------------------------------------------------------------- vetoes

  /** Can the callback give this verdict at the end of its calls? */
  ghost predicate CanSay(cb: Callback, ev: Event, verdict: bool) {
    exists answers: seq<Response> :: |answers| == cb.steps(ev) && cb.verdict(ev, answers) == verdict
  }

  lemma VerdictIsVote(w: World, cb: Callback, ev: Event)
    ensures
      var r := Exec(w, Run(cb, ev, [])).response;
      !r.Raised? ==> CanSay(cb, ev, r.Ok?)
  {
    hide Exec;
    var answers, states := CallbackMakesItsCalls(w, cb, ev);
    assert |answers| == cb.steps(ev) ==> CanSay(cb, ev, cb.verdict(ev, answers));
  }

  /** The votes that a loop over pre-write callbacks, from number `i` on, has taken
      are their verdicts. */
  ghost predicate TookVerdicts(votes: seq<bool>, votes': seq<bool>, vec: seq<Callback>, i: nat, ev: Event) {
    && votes <= votes' && |votes'| - |votes| <= |vec| - i
    && forall j :: i <= j < i + |votes'| - |votes| ==> CanSay(vec[j], ev, votes'[|votes| + j - i])
  }

  lemma OneMoreVerdict(votes: seq<bool>, votes': seq<bool>, vec: seq<Callback>, i: nat, ev: Event, vote: bool)
    requires i < |vec| && CanSay(vec[i], ev, vote) && TookVerdicts(votes + [vote], votes', vec, i + 1, ev)
    ensures TookVerdicts(votes, votes', vec, i, ev)
  {
    assert votes'[|votes|] == vote;
  }

  lemma {:induction false} LoopTakesVerdicts(w: World, p: nat, i: nat, ok: bool, was: Value, v: Value, origin: Origin)
    requires Healthy(w) && p < |w.params| && Slot(p, PreWrite) in w.on
    requires i <= |w.setup.decls[p].callbacks.preWrite|
    ensures
      var r := Exec(w, From(p, PreWrite, i, ok, was, v, origin));
      var slot := Slot(p, PreWrite);
      && TookVerdicts(Votes(w.log, slot), Votes(r.w.log, slot), w.setup.decls[p].callbacks.preWrite, i,
                      Event(w.params[p].value, v, origin))
      && !r.response.Val? && (w.setup.throws && ok ==> !r.response.No?)
    decreases |w.setup.decls[p].callbacks.preWrite| - i
  {
    hide Exec, CanSay, Healthy, Votes, Fires;
    var vec := w.setup.decls[p].callbacks.preWrite;
    assert vec == w.setup.decls[p].callbacks.Of(PreWrite);
    var slot, ev := Slot(p, PreWrite), Event(w.params[p].value, v, origin);
    if i == |vec| {
      FromEnds(w, p, PreWrite, i, ok, was, v, origin);
    } else {
      FromUnfolds(w, p, PreWrite, i, ok, was, v, origin);
      var w1 := Note(w, Fired(slot, i, ev));
      var turn := Exec(w1, Run(vec[i], ev, []));
      var vote := turn.response.Ok?;
      var w2 := Note(turn.w, Voted(slot, i, vote));
      TurnAdds(w, slot, i, vec[i], ev, vote);
      if !turn.response.Raised? {
        VerdictIsVote(w1, vec[i], ev);
        if vote || !w.setup.throws {
          LoopTakesVerdicts(w2, p, i + 1, ok && vote, was, v, origin);
          var r := Exec(w2, From(p, PreWrite, i + 1, ok && vote, was, v, origin));
          OneMoreVerdict(Votes(w.log, slot), Votes(r.w.log, slot), vec, i, ev, vote);
        } else {
          assert TookVerdicts(Votes(w2.log, slot), Votes(w2.log, slot), vec, i + 1, ev);
          OneMoreVerdict(Votes(w.log, slot), Votes(w2.log, slot), vec, i, ev, vote);
        }
      }
    }
  }

  /** The pre-write dispatch of an outermost write takes the callbacks' verdicts as
      votes, each on the old and the new value. */
  lemma DispatchTakesVerdicts(w: World, p: nat, v: Value, origin: Origin)
    requires Healthy(w) && p < |w.params| && Slot(p, PreWrite) !in w.on
    ensures
      var r := Exec(w, Dispatch(p, PreWrite, v, v, origin));
      var slot := Slot(p, PreWrite);
      && TookVerdicts(Votes(w.log, slot), Votes(r.w.log, slot), w.setup.decls[p].callbacks.preWrite, 0,
                      Event(w.params[p].value, v, origin))
      && !r.response.Val? && (w.setup.throws ==> !r.response.No?)
  {
    hide Exec, CanSay;
    var slot := Slot(p, PreWrite);
    DispatchBody(w, p, PreWrite, v, v, origin);
    if |w.setup.decls[p].callbacks.preWrite| > 0 {
      MarkIsHealthy(w, slot);
      LoopTakesVerdicts(Mark(w, slot), p, 0, true, v, v, origin);
    } else {
      EmptyDispatch(w, p, PreWrite, v, v, origin);
    }
  }

  /** A pre-write callback whose verdict is no, whatever its calls answer, stops
      every write: value and origin stay, and a report throws if reports do. */
  lemma VetoedStore(w: World, p: nat, i: nat, v: Value, origin: Origin)
    requires Healthy(w) && p < |w.params| && i < |w.setup.decls[p].callbacks.preWrite|
    requires !CanSay(w.setup.decls[p].callbacks.preWrite[i], Event(w.params[p].value, v, origin), true)
    ensures
      var r := Exec(w, Store(p, v, origin));
      && Untouched(w, r.w, p) && !r.response.Ok?
      && (w.setup.throws && Slot(p, PreWrite) !in w.on ==> r.response.Raised?)
  {
    hide Exec, CanSay, Votes, Fires, Healthy;
    var slot := Slot(p, PreWrite);
    var vec := w.setup.decls[p].callbacks.preWrite;
    StoreIsAllOrNothing(w, p, v, origin);
    StoreBody(w, p, v, origin);
    if slot !in w.on {
      DispatchFiresInOrder(w, p, PreWrite, v, v, origin);
      DispatchTakesVerdicts(w, p, v, origin);
      var votes, votes' := Votes(w.log, slot), Votes(Exec(w, Dispatch(p, PreWrite, v, v, origin)).w.log, slot);
      if |votes'| == |votes| + |vec| {
        assert CanSay(vec[i], Event(w.params[p].value, v, origin), votes'[|votes| + i - 0]);
        assert !votes'[|votes|..][i];
      }
    }
  }

  lemma VetoIsObeyed(w: World, p: nat, i: nat, v: Value, key: Option<Key>, origin: Origin, caught: bool)
    requires Healthy(w) && p < |w.params| && i < |w.setup.decls[p].callbacks.preWrite|
    requires !CanSay(w.setup.decls[p].callbacks.preWrite[i], Event(w.params[p].value, v, origin), true)
    ensures
      var r := Exec(w, Act(Set(p, v, key, origin, caught)));
      && Untouched(w, r.w, p) && !r.response.Ok?
      && (w.setup.throws && Slot(p, PreWrite) !in w.on ==> r.response.Raised?)
    ensures
      var r := Exec(w, Act(Assign(p, v, caught)));
      origin == w.setup.decls[p].originator ==>
        && Untouched(w, r.w, p) && !r.response.Ok?
        && (w.setup.throws && Slot(p, PreWrite) !in w.on ==> r.response.Raised?)
  {
    hide Exec, CanSay;
    VetoedStore(w, p, i, v, origin);
    SetRawBody(w, p, v, key, origin);
    SetRawBody(w, p, v, None, origin);
    ActBody(w, Set(p, v, key, origin, caught));
    ActBody(w, Assign(p, v, caught));
  }

  /** When no pre-write callback can say no to an outermost write that key and
      mutability admit, the write commits, unless a callback throws before. */
  lemma ConsentIsEnough(w: World, p: nat, v: Value, key: Option<Key>, origin: Origin, caught: bool)
    requires Healthy(w) && p < |w.params| && Slot(p, PreWrite) !in w.on
    requires w.setup.decls[p].isMutable
    requires if key.None? then w.params[p].lockPwd.None? else w.params[p].lockPwd == key
    requires forall i :: 0 <= i < |w.setup.decls[p].callbacks.preWrite| ==>
               !CanSay(w.setup.decls[p].callbacks.preWrite[i], Event(w.params[p].value, v, origin), false)
    requires !Exec(w, Dispatch(p, PreWrite, v, v, origin)).response.Raised?
    ensures
      var r := Exec(w, Act(Set(p, v, key, origin, caught)));
      && !r.response.No?
      && CommitsAfter(w, Exec(w, Dispatch(p, PreWrite, v, v, origin)).w, p, v, origin, r.w)
  {
    hide Exec, CanSay, Votes, Fires;
    var slot, vec := Slot(p, PreWrite), w.setup.decls[p].callbacks.preWrite;
    WriteIsAllOrNothing(w, p, v, key, origin);
    ActBody(w, Set(p, v, key, origin, caught));
    DispatchTakesVerdicts(w, p, v, origin);
    DispatchFiresInOrder(w, p, PreWrite, v, v, origin);
    var votes, votes' := Votes(w.log, slot), Votes(Exec(w, Dispatch(p, PreWrite, v, v, origin)).w.log, slot);
    forall k | 0 <= k < |vec| ensures votes'[|votes|..][k] {
      assert CanSay(vec[k], Event(w.params[p].value, v, origin), votes'[|votes| + k - 0]);
    }
  }

  // ------------------------------------------- parameters without callbacks

  predicate PlainWrite(d: Decl) {
    |d.callbacks.preWrite| == 0 && |d.callbacks.postWrite| == 0
  }

  /** A write through a handle to a parameter without write callbacks. */
  lemma SetOutcome(w: World, p: nat, v: Value, key: Option<Key>, origin: Origin, caught: bool)
    requires Healthy(w) && p < |w.params| && PlainWrite(w.setup.decls[p])
    ensures
      var s, d := w.params[p], w.setup.decls[p];
      var fits := if key.None? then s.lockPwd.None? else s.lockPwd == key;
      Exec(w, Act(Set(p, v, key, origin, caught))) ==
      if d.isMutable && fits then
        Result(w.(params := w.params[p := Param(v, origin, s.lockPwd, s.fastRead,
                                                s.lockPwd.None? && origin == d.originator)],
                  log := w.log + [Committed(p, s.value, v, origin)]), Ok)
      else Result(w, if w.setup.throws then Raised else No)
  {
    hide Exec;
    PlainStore(w, p, v, origin);
    SetRawBody(w, p, v, key, origin);
    ActBody(w, Set(p, v, key, origin, caught));
  }

  /** The owner's write to such a parameter. */
  lemma AssignOutcome(w: World, p: nat, v: Value, caught: bool)
    requires Healthy(w) && p < |w.params| && PlainWrite(w.setup.decls[p])
    ensures
      var s, d := w.params[p], w.setup.decls[p];
      var fast := w.setup.fastPaths && s.fastWrite;
      Exec(w, Act(Assign(p, v, caught))) ==
      if d.isMutable && s.lockPwd.None? then
        Result(w.(params := w.params[p := Param(v, if fast then s.valueOrigin else d.originator, None,
                                                s.fastRead, true)],
                  log := w.log + [Committed(p, s.value, v, d.originator)]), Ok)
      else Result(w, if w.setup.throws then Raised else No)
  {
    hide Exec;
    var d := w.setup.decls[p];
    PlainStore(w, p, v, d.originator);
    SetRawBody(w, p, v, None, d.originator);
    ActBody(w, Assign(p, v, caught));
  }

  /** A reset of such a parameter gives it the value and the origin of its preset,
      or else its default in the owner's name. */
  lemma ResetOutcome(w: World, p: nat, caught: bool)
    requires Healthy(w) && p < |w.params| && PlainWrite(w.setup.decls[p])
    ensures
      var s, d := w.params[p], w.setup.decls[p];
      var r := Exec(w, Act(Reset(p, caught)));
      if s.lockPwd.Some? then r == Result(w, No)
      else
        && r.response == Ok
        && r.w.params == w.params[p := r.w.params[p]]
        && (if p in w.setup.presets then
              r.w.params[p] == s.(value := w.setup.presets[p].value, valueOrigin := w.setup.presets[p].origin)
            else r.w.params[p] == s.(value := d.defaultValue, valueOrigin := d.originator))
  {
    hide Exec;
    ActBody(w, Reset(p, caught));
    PlainStore(w, p, w.setup.decls[p].defaultValue, w.setup.decls[p].originator);
    if p in w.setup.presets {
      PlainStore(w, p, w.setup.presets[p].value, w.setup.presets[p].origin);
    }
  }

  /** A read of a parameter without read callbacks. */
  lemma ReadOutcome(w: World, p: nat, origin: Origin, caught: bool)
    requires p < |w.params| && Slot(p, PreRead) !in w.on && Slot(p, PostRead) !in w.on
    requires |w.setup.decls[p].callbacks.preRead| == 0 && |w.setup.decls[p].callbacks.postRead| == 0
    ensures
      var s := w.params[p];
      var read := Result(w.(params := w.params[p := s.(fastRead := true)]), Val(s.value));
      && Exec(w, Act(Get(p, origin, caught))) == read
      && Exec(w, Act(Use(p, caught))) == read
  {
    hide Exec;
    var s, owner := w.params[p], w.setup.decls[p].originator;
    EmptyDispatch(w, p, PreRead, s.value, s.value, origin);
    EmptyDispatch(w, p, PostRead, s.value, s.value, origin);
    EmptyDispatch(w, p, PreRead, s.value, s.value, owner);
    EmptyDispatch(w, p, PostRead, s.value, s.value, owner);
    FetchBody(w, p, origin);
    FetchBody(w, p, owner);
    ActBody(w, Get(p, origin, caught));
    ActBody(w, Use(p, caught));
    assert w.params[p := s] == w.params;
  }

  // --------------------------------------------------- parameters with callbacks

  /** Both reads, through a handle and by the owner, run the read callbacks. */
  lemma ReadsFireCallbacks(w: World, p: nat, origin: Origin, caught: bool)
    requires Healthy(w) && p < |w.params| && Slot(p, PreRead) !in w.on && Slot(p, PostRead) !in w.on
    ensures ReadFires(w, p, origin, Exec(w, Act(Get(p, origin, caught))))
    ensures ReadFires(w, p, w.setup.decls[p].originator, Exec(w, Act(Use(p, caught))))
  {
    hide Exec, FiresRead;
    var owner := w.setup.decls[p].originator;
    ActBody(w, Get(p, origin, caught));
    ActBody(w, Use(p, caught));
    if !Exec(w, Fetch(p, origin)).response.Raised? {
      ReadFiresCallbacks(w, p, origin);
      FetchRefreshes(w, p, origin);
    }
    if !Exec(w, Fetch(p, owner)).response.Raised? {
      ReadFiresCallbacks(w, p, owner);
      FetchRefreshes(w, p, owner);
    }
    if w.setup.fastPaths && w.params[p].fastRead {
      NoReadCallbacks(w, p, owner);
    }
  }

  /** The read ended by a throw, or it fired both lists, told the value at its end,
      and noted whether the next read has anything to fire. */
  ghost predicate ReadFires(w: World, p: nat, origin: Origin, r: Result)
    requires p < |w.params|
  {
    var v := w.params[p].value;
    var pre := Exec(w, Dispatch(p, PreRead, v, v, origin)).w;
    !r.response.Raised? ==>
      && FiresRead(w, p, PreRead, origin, pre)
      && FiresRead(pre, p, PostRead, origin, r.w)
      && |r.w.params| == |w.params| && r.response == Val(r.w.params[p].value)
      && (r.w.params[p].fastRead <==>
            |w.setup.decls[p].callbacks.preRead| == 0 && |w.setup.decls[p].callbacks.postRead| == 0)
  }

  lemma FetchRefreshes(w: World, p: nat, origin: Origin)
    requires p < |w.params| && !Exec(w, Fetch(p, origin)).response.Raised?
    ensures Exec(w, Fetch(p, origin)).w.params[p].fastRead <==>
            |w.setup.decls[p].callbacks.preRead| == 0 && |w.setup.decls[p].callbacks.postRead| == 0
  {
    FetchBody(w, p, origin);
  }

  lemma NoReadCallbacks(w: World, p: nat, origin: Origin)
    requires Healthy(w) && p < |w.params| && w.params[p].fastRead
    ensures Exec(w, Dispatch(p, PreRead, w.params[p].value, w.params[p].value, origin)).w == w
    ensures FiresRead(w, p, PreRead, origin, w) && FiresRead(w, p, PostRead, origin, w)
    ensures |w.setup.decls[p].callbacks.preRead| == 0 && |w.setup.decls[p].callbacks.postRead| == 0
  {
    EmptyDispatch(w, p, PreRead, w.params[p].value, w.params[p].value, origin);
  }

  /** A write that succeeds leaves the fast flag to the next owner's write exactly
      if the owner made this one and nothing would have to be asked. */
  lemma WriteRefreshesFlag(w: World, p: nat, v: Value, key: Option<Key>, origin: Origin, caught: bool)
    requires p < |w.params| && Exec(w, Act(Set(p, v, key, origin, caught))).response.Ok?
    ensures
      var s, d := Exec(w, Act(Set(p, v, key, origin, caught))).w.params[p], w.setup.decls[p];
      s.fastWrite <==> d.isMutable && s.lockPwd.None? && PlainWrite(d) && origin == d.originator
  {
    hide Exec;
    ActBody(w, Set(p, v, key, origin, caught));
    SetRawBody(w, p, v, key, origin);
  }

  // -------------------------------------------------------------------- locks

  /** `lock` stores the key, or the parameter itself for none, if the parameter is
      not locked with another key. It always clears the fast flag. */
  lemma LockOutcome(w: World, p: nat, key: Option<Key>, caught: bool)
    requires p < |w.params|
    ensures
      var s := w.params[p];
      var k := match key case Some(x) => x case None => Self(p);
      Exec(w, Act(Lock(p, key, caught))) ==
      if s.lockPwd.None? || s.lockPwd == Some(k) then
        Result(w.(params := w.params[p := s.(lockPwd := Some(k), fastWrite := false)]), Ok)
      else
        Result(w.(params := w.params[p := s.(fastWrite := false)]), No)
  {
    hide Exec;
    ActBody(w, Lock(p, key, caught));
  }

  /** `unlock` needs that key. */
  lemma UnlockOutcome(w: World, p: nat, key: Option<Key>, caught: bool)
    requires p < |w.params|
    ensures
      var s := w.params[p];
      var k := match key case Some(x) => x case None => Self(p);
      Exec(w, Act(Unlock(p, key, caught))) ==
      if s.lockPwd == Some(k) then Result(w.(params := w.params[p := s.(lockPwd := None)]), Ok) else Result(w, No)
  {
    hide Exec;
    ActBody(w, Unlock(p, key, caught));
  }

  /** After a lock, writes without the key are refused, and so is a reset. */
  lemma LockKeepsOut(w: World, p: nat, k: Key, c: bool, a: Action)
    requires p < |w.params| && w.params[p].lockPwd.None? && a.target == p
    requires a.Assign? || a.Reset? || (a.Set? && a.key != Some(k))
    ensures
      var w1 := Exec(w, Act(Lock(p, Some(k), c))).w;
      && |w1.params| == |w.params| && w1.params[p].lockPwd == Some(k) && SameValue(w.params[p], w1.params[p])
      && Exec(w1, Act(a)) == Result(w1, if a.Reset? then No else if w.setup.throws then Raised else No)
  {
    hide Exec;
    LockOutcome(w, p, Some(k), c);
    var w1 := Exec(w, Act(Lock(p, Some(k), c))).w;
    ActBody(w1, a);
    if a.Set? { SetRawBody(w1, p, a.value, a.key, a.origin); }
    if a.Assign? { SetRawBody(w1, p, a.value, None, w.setup.decls[p].originator); }
  }

  /** From a lock on, over every run that never presents the key, the parameter
      keeps the value and the origin that it was locked with. */
  lemma LockHolds(w: World, p: nat, k: Key, c: bool, ops: seq<Op>)
    requires Healthy(w) && w.on == {} && p < |w.params| && w.params[p].lockPwd.None?
    requires CallbacksMay(LockLaw(p, k), w.setup.decls)
    requires forall op :: op in ops ==> OpAvoids(op, p, k)
    ensures
      var w' := RunAll(w, [Do(Lock(p, Some(k), c))] + ops);
      |w'.params| == |w.params| && w'.params[p].lockPwd == Some(k) && SameValue(w.params[p], w'.params[p])
  {
    hide Exec, Healthy, CallbacksMay;
    var lock := Do(Lock(p, Some(k), c));
    LockOutcome(w, p, Some(k), c);
    StepKeepsHealth(w, lock);
    assert ([lock] + ops)[0] == lock && ([lock] + ops)[1..] == ops;
    LockedForTheWholeRun(Step(w, lock), ops, p, k);
  }

  // ------------------------------------------------------- callbacks and presets

  /** Registering appends to one list, and both flags are cleared. */
  lemma RegisterOutcome(w: World, p: nat, kind: Kind, cb: Callback, other: Kind)
    requires p < |w.params|
    ensures
      var w', d := Step(w, Register(p, kind, cb)), w.setup.decls[p];
      && w'.params == w.params[p := w.params[p].(fastRead := false, fastWrite := false)]
      && w'.setup.decls == w.setup.decls[p := w'.setup.decls[p]]
      && w'.setup.decls[p] == d.(callbacks := w'.setup.decls[p].callbacks)
      && w'.setup.decls[p].callbacks.Of(other) == d.callbacks.Of(other) + (if other == kind then [cb] else [])
      && w'.log == w.log && w'.on == w.on && w'.setup.presets == w.setup.presets
  {
  }

  /** Unregistering takes out the first entry of that function object and that
      originator, and nothing else. */
  lemma UnregisterOutcome(w: World, p: nat, kind: Kind, i: nat, other: Kind)
    requires p < |w.params| && i < |w.setup.decls[p].callbacks.Of(kind)|
    requires
      var vec := w.setup.decls[p].callbacks.Of(kind);
      forall k :: 0 <= k < i ==> vec[k].id != vec[i].id || vec[k].owner != vec[i].owner
    ensures
      var vec := w.setup.decls[p].callbacks.Of(kind);
      var w' := Step(w, Unregister(p, kind, vec[i].id, vec[i].owner));
      && w'.params == w.params && w'.setup.decls == w.setup.decls[p := w'.setup.decls[p]]
      && w'.setup.decls[p].callbacks.Of(other) ==
         if other == kind then vec[..i] + vec[i + 1..] else w.setup.decls[p].callbacks.Of(other)
  {
    hide FindCallback;
    var vec := w.setup.decls[p].callbacks.Of(kind);
    FirstIsFound(vec, vec[i].id, vec[i].owner, i);
  }

  /** A preset that is set is what the next reset gives. */
  lemma PresetThenReset(w: World, p: nat, preset: Preset, caught: bool)
    requires Healthy(w) && p < |w.params| && PlainWrite(w.setup.decls[p]) && w.params[p].lockPwd.None?
    ensures
      var w' := RunAll(w, [SetPreset(p, preset), Do(Reset(p, caught))]);
      w'.params == w.params[p := w.params[p].(value := preset.value, valueOrigin := preset.origin)]
  {
    hide Exec, Healthy;
    var ops := [SetPreset(p, preset), Do(Reset(p, caught))];
    StepHealth(w, SetPreset(p, preset));
    var w1 := Step(w, ops[0]);
    ResetOutcome(w1, p, caught);
    assert ops[1..] == [Do(Reset(p, caught))] && ops[1..][1..] == [];
    assert RunAll(w, ops) == RunAll(w1, ops[1..]) == Step(w1, ops[1]);
  }

  lemma StepHealth(w: World, op: Op)
    requires Healthy(w) && op.SetPreset?
    ensures Healthy(Step(w, op))
  {
  }
}
