/** Parameters that keep each other in step through post-write callbacks, as the
    synchronisers of examples 11 and 12 do. A callback list is skipped only while
    it is on the call stack; it may run again later in the same cascade. */
module ParamSync {
  import opened Values
  import opened ParamMachine
  import opened ParamLaws

  /** When `q` gets the value `goal(q)`, this callback writes `goal(r)` to `r`. */
  ghost predicate Forwards(cb: Callback, goal: nat -> Value, q: nat, r: nat) {
    forall ev: Event :: ev.becomes == goal(q) ==>
      && cb.steps(ev) == 1
      && cb.next(ev, []).Set?
      && cb.next(ev, []).target == r
      && cb.next(ev, []).value == goal(r)
      && cb.next(ev, []).key == None
  }

  /** The links of a network: `links[q][i]` is the parameter that post-write
      callback `i` of `q` writes. */
  type Links = seq<seq<nat>>

  ghost predicate Linked(d: Decl, goal: nat -> Value, q: nat, out: seq<nat>, n: nat) {
    && d.isMutable
    && |d.callbacks.preWrite| == 0
    && |d.callbacks.postWrite| == |out|
    && (forall i :: 0 <= i < |out| ==> out[i] < n && Forwards(d.callbacks.postWrite[i], goal, q, out[i]))
  }

  /** Every parameter of `bound` is mutable, unlocked, has no pre-write callback,
      and its post-write callbacks lead along `links` towards `goal`. */
  ghost predicate Net(w: World, links: Links, goal: nat -> Value, bound: set<nat>) {
    && |links| == |w.params|
    && (forall q :: q in bound ==> q < |links| && Linked(w.setup.decls[q], goal, q, links[q], |links|))
    && (forall q :: q in bound ==> w.params[q].lockPwd == None && Slot(q, PreWrite) !in w.on)
  }

  /** The parameters written on the way from `w` to `w'`. */
  ghost function Written(w: World, w': World): set<nat>
    requires w.log <= w'.log
  {
    WrittenIn(w'.log[|w.log|..])
  }

  ghost function WrittenIn(log: seq<Entry>): set<nat> {
    set e | e in log && e.Committed? :: e.param
  }

  ghost predicate Closed(links: Links, s: set<nat>) {
    forall q :: q in s && q < |links| ==> Into(links[q], s)
  }

  ghost predicate Into(out: seq<nat>, s: set<nat>) {
    forall r :: r in out ==> r in s
  }

  /** What a cascade does: every parameter it writes ends at its goal, every
      other one is left alone, and the written ones are closed under the links,
      but for the lists that were on the stack already. */
  ghost predicate Spread(w: World, w': World, links: Links, goal: nat -> Value, bound: set<nat>) {
    && Frame(w, w')
    && Net(w', links, goal, bound)
    && (forall q :: 0 <= q < |w.params| ==>
          if q in Written(w, w') then w'.params[q].value == goal(q)
          else SameValue(w.params[q], w'.params[q]))
    && Written(w, w') <= bound
    && (forall q :: q in Written(w, w') && q < |links| && Slot(q, PostWrite) !in w.on ==>
          Into(links[q], Written(w, w')))
  }

  lemma WrittenJoin(w: World, w1: World, w2: World)
    requires w.log <= w1.log <= w2.log
    ensures w.log <= w2.log && Written(w, w2) == Written(w, w1) + Written(w1, w2)
  {
  }

  lemma SpreadJoin(w: World, w1: World, w2: World, links: Links, goal: nat -> Value, bound: set<nat>)
    requires Spread(w, w1, links, goal, bound) && Spread(w1, w2, links, goal, bound)
    ensures Spread(w, w2, links, goal, bound)
    ensures Written(w, w2) == Written(w, w1) + Written(w1, w2)
  {
  }

  lemma CommitWrites(w: World, p: nat, v: Value, origin: Origin)
    requires p < |w.params|
    ensures w.log <= Commit(w, p, v, origin).log && Written(w, Commit(w, p, v, origin)) == {p}
  {
  }

  lemma CommitSpreads(w: World, p: nat, origin: Origin, w2: World, links: Links, goal: nat -> Value, bound: set<nat>)
    requires Net(w, links, goal, bound) && p < |w.params| && p in bound
    requires Spread(Commit(w, p, goal(p), origin), w2, links, goal, bound)
    requires Slot(p, PostWrite) !in w.on ==> Into(links[p], Written(Commit(w, p, goal(p), origin), w2))
    ensures Spread(w, w2, links, goal, bound) && p in Written(w, w2)
  {
    hide WrittenIn, Linked;
    var w1 := Commit(w, p, goal(p), origin);
    CommitWrites(w, p, goal(p), origin);
    WrittenJoin(w, w1, w2);
  }

  lemma CommitKeepsNet(w: World, p: nat, v: Value, origin: Origin, links: Links, goal: nat -> Value, bound: set<nat>)
    requires Net(w, links, goal, bound) && p < |w.params|
    ensures Net(Commit(w, p, v, origin), links, goal, bound) && Free(Commit(w, p, v, origin)) == Free(w)
  {
  }

  lemma RefreshSpreads(w: World, w2: World, p: nat, origin: Origin, links: Links, goal: nat -> Value, bound: set<nat>)
    requires Spread(w, w2, links, goal, bound) && p < |w.params|
    ensures
      var w3 := RefreshFastWrite(w2, p, origin);
      Spread(w, w3, links, goal, bound) && Written(w, w3) == Written(w, w2)
  {
  }

  lemma StaySpreads(w: World, links: Links, goal: nat -> Value, bound: set<nat>)
    requires Net(w, links, goal, bound)
    ensures Spread(w, w, links, goal, bound) && Written(w, w) == {}
  {
  }

  /** A write that the lock and the mutability let through, to a parameter
      without pre-write callbacks. */
  lemma OpenWrite(w: World, p: nat, v: Value, origin: Origin)
    requires p < |w.params| && w.setup.decls[p].isMutable && w.params[p].lockPwd == None
    requires |w.setup.decls[p].callbacks.preWrite| == 0 && Slot(p, PreWrite) !in w.on
    ensures
      var post := Exec(Commit(w, p, v, origin), Dispatch(p, PostWrite, w.params[p].value, v, origin));
      !post.response.Raised? ==>
        Exec(w, SetRaw(p, v, None, origin)) == Result(RefreshFastWrite(post.w, p, origin), Ok)
  {
    hide Exec;
    EmptyDispatch(w, p, PreWrite, v, v, origin);
    StoreBody(w, p, v, origin);
    SetRawBody(w, p, v, None, origin);
  }

  /** A write to `p` of its goal. */
  lemma SetSpreads(w: World, p: nat, origin: Origin, links: Links, goal: nat -> Value, bound: set<nat>)
    requires Net(w, links, goal, bound) && p < |w.params| && p in bound && Closed(links, bound)
    ensures
      var r := Exec(w, SetRaw(p, goal(p), None, origin));
      r.response == Ok && Spread(w, r.w, links, goal, bound) && p in Written(w, r.w)
    decreases Free(w), 3, 0, 0
  {
    hide Exec;
    var w1 := Commit(w, p, goal(p), origin);
    CommitKeepsNet(w, p, goal(p), origin, links, goal, bound);
    PostSpreads(w1, p, w.params[p].value, origin, links, goal, bound);
    var post := Exec(w1, Dispatch(p, PostWrite, w.params[p].value, goal(p), origin)).w;
    OpenWrite(w, p, goal(p), origin);
    CommitSpreads(w, p, origin, post, links, goal, bound);
    RefreshSpreads(w, post, p, origin, links, goal, bound);
  }

  lemma UnmarkSpreads(w: World, p: nat, w2: World, links: Links, goal: nat -> Value, bound: set<nat>)
    requires Net(w, links, goal, bound) && p < |w.params| && Slot(p, PostWrite) !in w.on
    requires Spread(Mark(w, Slot(p, PostWrite)), w2, links, goal, bound)
    requires Into(links[p], Written(Mark(w, Slot(p, PostWrite)), w2))
    ensures Spread(w, Unmark(w2, Slot(p, PostWrite)), links, goal, bound)
    ensures Into(links[p], Written(w, Unmark(w2, Slot(p, PostWrite))))
  {
  }

  /** The post-write dispatch of `p`. */
  lemma PostSpreads(w: World, p: nat, was: Value, origin: Origin, links: Links, goal: nat -> Value, bound: set<nat>)
    requires Net(w, links, goal, bound) && p < |w.params| && p in bound && Closed(links, bound)
    ensures
      var r := Exec(w, Dispatch(p, PostWrite, was, goal(p), origin));
      && !r.response.Raised?
      && Spread(w, r.w, links, goal, bound)
      && (Slot(p, PostWrite) !in w.on ==> Into(links[p], Written(w, r.w)))
    decreases Free(w), 1, 0, 0
  {
    hide Exec;
    var slot := Slot(p, PostWrite);
    var d := Dispatch(p, PostWrite, was, goal(p), origin);
    DispatchBody(w, p, PostWrite, was, goal(p), origin);
    if slot in w.on {
      StaySpreads(w, links, goal, bound);
    } else {
      MarkUsesSlot(w, slot);
      LoopSpreads(Mark(w, slot), p, 0, true, was, origin, links, goal, bound);
      UnmarkSpreads(w, p, Exec(Mark(w, slot), From(p, PostWrite, 0, true, was, goal(p), origin)).w, links, goal, bound);
    }
  }

  /** Callback `i` of `p` runs; and the state after its end is noted. */
  ghost function Turn(w: World, p: nat, i: nat, ev: Event): Result
    requires p < |w.params| && i < |w.setup.decls[p].callbacks.postWrite|
  {
    Exec(Note(w, Fired(Slot(p, PostWrite), i, ev)), Run(w.setup.decls[p].callbacks.postWrite[i], ev, []))
  }

  ghost function AfterTurn(w: World, p: nat, i: nat, ev: Event): World
    requires p < |w.params| && i < |w.setup.decls[p].callbacks.postWrite|
  {
    Note(Turn(w, p, i, ev).w, Voted(Slot(p, PostWrite), i, true))
  }

  lemma LoopUnfolds(w: World, p: nat, i: nat, ok: bool, was: Value, v: Value, origin: Origin)
    requires p < |w.params| && i < |w.setup.decls[p].callbacks.postWrite|
    requires !Turn(w, p, i, Event(was, v, origin)).response.Raised?
    ensures Exec(w, From(p, PostWrite, i, ok, was, v, origin)) ==
            Exec(AfterTurn(w, p, i, Event(was, v, origin)), From(p, PostWrite, i + 1, ok, was, v, origin))
  {
    hide Exec, Note;
    PostTurnUnfolds(w, p, i, ok, was, v, origin);
  }

  /** What the post-write callbacks of `p` from number `i` on have done. */
  ghost predicate LoopDone(w: World, r: Result, p: nat, i: nat, links: Links, goal: nat -> Value, bound: set<nat>)
    requires p < |links|
  {
    && !r.response.Raised?
    && Spread(w, r.w, links, goal, bound)
    && (forall j :: i <= j < |links[p]| ==> links[p][j] in Written(w, r.w))
  }

  lemma LoopEnds(w: World, p: nat, i: nat, ok: bool, was: Value, v: Value, origin: Origin,
                 links: Links, goal: nat -> Value, bound: set<nat>)
    requires Net(w, links, goal, bound) && p in bound && i == |links[p]|
    ensures LoopDone(w, Exec(w, From(p, PostWrite, i, ok, was, v, origin)), p, i, links, goal, bound)
  {
  }

  lemma LoopJoins(w: World, w2: World, r: Result, p: nat, i: nat, links: Links, goal: nat -> Value, bound: set<nat>)
    requires p < |links| && i < |links[p]|
    requires Spread(w, w2, links, goal, bound) && links[p][i] in Written(w, w2)
    requires LoopDone(w2, r, p, i + 1, links, goal, bound)
    ensures LoopDone(w, r, p, i, links, goal, bound)
  {
    SpreadJoin(w, w2, r.w, links, goal, bound);
  }

  lemma LoopSpreads(w: World, p: nat, i: nat, ok: bool, was: Value, origin: Origin,
                    links: Links, goal: nat -> Value, bound: set<nat>)
    requires Net(w, links, goal, bound) && p < |w.params| && p in bound && Closed(links, bound)
    requires Slot(p, PostWrite) in w.on && i <= |links[p]|
    ensures LoopDone(w, Exec(w, From(p, PostWrite, i, ok, was, goal(p), origin)), p, i, links, goal, bound)
    decreases Free(w), 6, |links[p]| - i, 0
  {
    hide Exec;
    if i == |links[p]| {
      LoopEnds(w, p, i, ok, was, goal(p), origin, links, goal, bound);
    } else {
      var ev := Event(was, goal(p), origin);
      TurnSpreads(w, p, i, ev, links, goal, bound);
      var w2 := AfterTurn(w, p, i, ev);
      LoopSpreads(w2, p, i + 1, ok, was, origin, links, goal, bound);
      LoopJoins(w, w2, Exec(w2, From(p, PostWrite, i + 1, ok, was, goal(p), origin)), p, i, links, goal, bound);
      LoopUnfolds(w, p, i, ok, was, goal(p), origin);
    }
  }

  lemma TurnSpreads(w: World, p: nat, i: nat, ev: Event, links: Links, goal: nat -> Value, bound: set<nat>)
    requires Net(w, links, goal, bound) && p < |w.params| && p in bound && Closed(links, bound)
    requires i < |links[p]| && ev.becomes == goal(p)
    ensures !Turn(w, p, i, ev).response.Raised?
    ensures Spread(w, AfterTurn(w, p, i, ev), links, goal, bound)
    ensures links[p][i] in Written(w, AfterTurn(w, p, i, ev))
    decreases Free(w), 5, 0, 1
  {
    hide Exec;
    RelaySpreads(Note(w, Fired(Slot(p, PostWrite), i, ev)), p, i, ev, links, goal, bound);
    NotesSpread(w, Turn(w, p, i, ev).w, Slot(p, PostWrite), i, ev, links, goal, bound);
  }

  lemma NotesWriteNothing(w: World, w1: World, turn: World, w2: World)
    requires w.log <= w1.log <= turn.log <= w2.log
    requires |w1.log| == |w.log| + 1 && !w1.log[|w.log|].Committed?
    requires |w2.log| == |turn.log| + 1 && !w2.log[|turn.log|].Committed?
    ensures Written(w, w2) == Written(w1, turn)
  {
  }

  /** The notes before and after a turn of the loop write nothing. */
  lemma NotesSpread(w: World, turn: World, slot: Slot, i: nat, ev: Event,
                    links: Links, goal: nat -> Value, bound: set<nat>)
    requires Spread(Note(w, Fired(slot, i, ev)), turn, links, goal, bound)
    ensures
      var w2 := Note(turn, Voted(slot, i, true));
      Spread(w, w2, links, goal, bound) && Written(w, w2) == Written(Note(w, Fired(slot, i, ev)), turn)
  {
    NotesWriteNothing(w, Note(w, Fired(slot, i, ev)), turn, Note(turn, Voted(slot, i, true)));
  }

  /** One callback of `p`, which writes its goal to the parameter it leads to. */
  lemma RelaySpreads(w: World, p: nat, i: nat, ev: Event, links: Links, goal: nat -> Value, bound: set<nat>)
    requires Net(w, links, goal, bound) && p < |w.params| && p in bound && Closed(links, bound)
    requires i < |links[p]| && ev.becomes == goal(p)
    ensures
      var r := Exec(w, Run(w.setup.decls[p].callbacks.postWrite[i], ev, []));
      && !r.response.Raised?
      && Spread(w, r.w, links, goal, bound)
      && links[p][i] in Written(w, r.w)
    decreases Free(w), 5, 0, 0
  {
    hide Exec;
    var cb := w.setup.decls[p].callbacks.postWrite[i];
    assert Forwards(cb, goal, p, links[p][i]);
    var a := cb.next(ev, []);
    SetSpreads(w, a.target, a.origin, links, goal, bound);
    ActBody(w, a);
    var r := Exec(w, Act(a));
    RunBody(w, cb, ev, []);
    RunBody(r.w, cb, ev, [] + [r.response]);
  }

  // ------------------------------------------------------------ convergence

  /** `path` follows the links. */
  predicate IsPath(links: Links, path: seq<nat>) {
    && |path| > 0
    && (forall i :: 0 <= i < |path| ==> path[i] < |links|)
    && (forall i :: 0 < i < |path| ==> path[i] in links[path[i - 1]])
  }

  ghost predicate Reaches(links: Links, p: nat, q: nat) {
    exists path :: IsPath(links, path) && path[0] == p && path[|path| - 1] == q
  }

  /** The members of `bound` that `p` reaches. */
  ghost function ReachSet(links: Links, p: nat, bound: set<nat>): set<nat> {
    set q | q in bound && Reaches(links, p, q)
  }

  lemma ReachSetIsClosed(links: Links, p: nat, bound: set<nat>)
    requires Closed(links, bound) && forall q :: q in bound ==> q < |links|
    ensures Closed(links, ReachSet(links, p, bound))
  {
    forall q, r | q in ReachSet(links, p, bound) && r in links[q]
      ensures r in ReachSet(links, p, bound)
    {
      var path :| IsPath(links, path) && path[0] == p && path[|path| - 1] == q;
      var longer := path + [r];
      assert IsPath(links, longer) && longer[0] == p && longer[|longer| - 1] == r;
    }
  }

  lemma {:induction false} PathStaysInside(links: Links, path: seq<nat>, s: set<nat>)
    requires IsPath(links, path) && Closed(links, s) && path[0] in s
    ensures path[|path| - 1] in s
    decreases |path|
  {
    if |path| > 1 {
      assert path[1] in links[path[0]];
      PathStaysInside(links, path[1..], s);
    }
  }

  /** From a quiet state, writing to `p` its goal terminates, brings every
      parameter that `p` reaches to its goal, and leaves all others alone. The
      parameters outside `net`, a set closed under the links, are arbitrary. */
  lemma CascadeConverges(w: World, p: nat, origin: Origin, caught: bool,
                         links: Links, goal: nat -> Value, net: set<nat>)
    requires Net(w, links, goal, net) && Closed(links, net) && p in net && w.on == {}
    ensures
      var r := Exec(w, Act(Set(p, goal(p), None, origin, caught)));
      && r.response == Ok
      && (forall q :: 0 <= q < |w.params| ==>
            if Reaches(links, p, q) then r.w.params[q].value == goal(q)
            else SameValue(w.params[q], r.w.params[q]))
      && (forall q :: q in net ==> r.w.params[q].lockPwd == None)
  {
    hide Exec;
    var bound := ReachSet(links, p, net);
    assert IsPath(links, [p]);
    assert Reaches(links, p, p);
    ReachSetIsClosed(links, p, net);
    assert Net(w, links, goal, bound);
    SetSpreads(w, p, origin, links, goal, bound);
    SetSpreads(w, p, origin, links, goal, net);
    var r := Exec(w, SetRaw(p, goal(p), None, origin));
    ActBody(w, Set(p, goal(p), None, origin, caught));
    var written := Written(w, r.w);
    assert Closed(links, written);
    forall q: nat | Reaches(links, p, q) ensures q in written {
      var path :| IsPath(links, path) && path[0] == p && path[|path| - 1] == q;
      PathStaysInside(links, path, written);
    }
  }
}
