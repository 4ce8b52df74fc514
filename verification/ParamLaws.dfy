/** Laws of every call of the parameter protocol: what the tags `oncall`, the
    cached flags and the log mean. */
module ParamLaws {
  import opened Values
  import opened ParamMachine
  import opened ParamRule

  // ---------------------------------------------------------- standing law

  /** The cached flags never promise more than the parameter's state allows. */
  predicate FlagsHold(d: Decl, s: Param) {
    && (s.fastWrite ==>
          d.isMutable && s.lockPwd.None? && |d.callbacks.preWrite| == 0 && |d.callbacks.postWrite| == 0)
    && (s.fastRead ==> |d.callbacks.preRead| == 0 && |d.callbacks.postRead| == 0)
  }

  /** The flags hold, and a list that is on the stack has a callback that runs. */
  ghost predicate Healthy(w: World) {
    && (forall q :: 0 <= q < |w.params| ==> FlagsHold(w.setup.decls[q], w.params[q]))
    && (forall s :: s in w.on ==> s.param < |w.params| && |w.setup.decls[s.param].callbacks.Of(s.kind)| > 0)
  }

  /** A list on the stack is not entered again, and a parameter whose pre-write
      list is on the stack is not written. */
  predicate Legal(on: set<Slot>, e: Entry) {
    match e
    case Committed(p, _, _, _) => Slot(p, PreWrite) !in on
    case Restored(_, _) => true
    case _ => e.slot !in on
  }

  predicate SameValue(s: Param, s': Param) {
    s'.value == s.value && s'.valueOrigin == s.valueOrigin
  }

  /** What a call may do, given the lists on the stack when it starts. */
  ghost predicate Respects(w: World, w': World) {
    && Frame(w, w')
    && (forall j :: |w.log| <= j < |w'.log| ==> Legal(w.on, w'.log[j]))
    && (forall q :: 0 <= q < |w.params| && Slot(q, PreWrite) in w.on ==> SameValue(w.params[q], w'.params[q]))
  }

  ghost function Standing(): Law {
    Law((w: World) => Healthy(w), (w: World, w': World) => Respects(w, w'), _ => true, None, _ => false)
  }

  lemma RespectsIsTransitive(a: World, b: World, c: World)
    requires Respects(a, b) && Respects(b, c)
    ensures Respects(a, c)
  {
  }

  lemma HealthyPut(w: World, p: nat, s: Param)
    requires Healthy(w) && p < |w.params| && FlagsHold(w.setup.decls[p], s)
    ensures Healthy(Put(w, p, s))
  {
  }

  lemma CommitIsHealthy(w: World, p: nat, v: Value, origin: Origin)
    requires Healthy(w) && p < |w.params|
    ensures Healthy(Commit(w, p, v, origin))
  {
  }

  lemma MarkIsHealthy(w: World, s: Slot)
    requires Healthy(w) && s.param < |w.params| && |w.setup.decls[s.param].callbacks.Of(s.kind)| > 0
    ensures Healthy(Mark(w, s))
  {
  }

  lemma NoteIsHealthy(w: World, e: Entry)
    requires Healthy(w)
    ensures Healthy(Note(w, e))
  {
  }

  lemma StandingPreorder()
    ensures Preorder(Standing())
  {
    forall a: World, b: World, c: World | Respects(a, b) && Respects(b, c)
      ensures Respects(a, c)
    {
      RespectsIsTransitive(a, b, c);
    }
  }

  lemma StandingTags()
    ensures HoldsOfTags(Standing())
  {
    forall w: World, s: Slot | Healthy(w) && s.param < |w.params| && |w.setup.decls[s.param].callbacks.Of(s.kind)| > 0
      ensures Healthy(Mark(w, s))
    {
    }
    forall w: World, s: Slot | Healthy(w) ensures Healthy(Unmark(w, s)) {
    }
    forall w: World, w': World, s: Slot | Frame(w, w') && s in w.on && Respects(w, w')
      ensures Respects(Unmark(w, s), Unmark(w', s))
    {
      UnmarkRespects(w, w', s);
    }
  }

  lemma UnmarkRespects(w: World, w': World, s: Slot)
    requires s in w.on && Respects(w, w')
    ensures Respects(Unmark(w, s), Unmark(w', s))
  {
  }

  lemma StandingNotes()
    ensures HoldsOfNotes(Standing())
  {
    hide Healthy, Respects;
    forall w: World, e: Entry | Healthy(w) && InLoop(w, e)
      ensures Healthy(Note(w, e)) && Respects(Unmark(w, e.slot), Unmark(Note(w, e), e.slot))
    {
      NoteIsHealthy(w, e);
      NoteRespects(w, e);
    }
  }

  lemma NoteRespects(w: World, e: Entry)
    requires InLoop(w, e)
    ensures Respects(Unmark(w, e.slot), Unmark(Note(w, e), e.slot))
  {
  }

  lemma StandingRestores()
    ensures HoldsOfRestores(Standing())
  {
  }

  lemma StandingCommits()
    ensures HoldsOfCommits(Standing())
  {
    forall w: World, p: nat, v: Value, o: Origin | Healthy(w) && p < |w.params| && Slot(p, PreWrite) !in w.on
      ensures Healthy(Commit(w, p, v, o)) && Respects(w, Commit(w, p, v, o))
    {
      HealthyPut(w, p, w.params[p].(value := v, valueOrigin := o));
    }
    forall w: World, p: nat, v: Value | Healthy(w) && p < |w.params| && w.setup.fastPaths && w.params[p].fastWrite
      ensures Healthy(CommitFast(w, p, v)) && Respects(w, CommitFast(w, p, v))
    {
      HealthyPut(w, p, w.params[p].(value := v));
    }
  }

  lemma StandingFlags()
    ensures HoldsOfFlags(Standing())
  {
  }

  lemma StandingLocks()
    ensures HoldsOfLocks(Standing())
  {
    forall w: World, p: nat, k: Option<Key> | Healthy(w) && p < |w.params|
      ensures Healthy(LockParam(w, p, k).w) && Respects(w, LockParam(w, p, k).w)
    {
      HealthyPut(w, p, LockParam(w, p, k).w.params[p]);
    }
    forall w: World, p: nat, k: Option<Key> | Healthy(w) && p < |w.params|
      ensures Healthy(UnlockParam(w, p, k).w) && Respects(w, UnlockParam(w, p, k).w)
    {
      HealthyPut(w, p, UnlockParam(w, p, k).w.params[p]);
    }
  }

  lemma StandingIsSound()
    ensures Sound(Standing())
  {
    StandingPreorder();
    StandingTags();
    StandingNotes();
    StandingRestores();
    StandingCommits();
    StandingFlags();
    StandingLocks();
  }

  /** Every call keeps the flags true to the state, enters no list that is on the
      stack, and writes no parameter whose pre-write list is on the stack. */
  lemma EveryCallRespects(w: World, c: Call)
    requires Healthy(w) && InRange(w, c) && (c.From? ==> Slot(c.param, c.kind) in w.on)
    ensures Healthy(Exec(w, c).w)
    ensures Respects(Seen(w, c), Seen(Exec(w, c).w, c))
  {
    StandingIsSound();
    assert Applies(Standing(), w, c) by {
      assert CallbacksMay(Standing(), w.setup.decls);
    }
    EveryCallObeys(Standing(), w, c);
  }

  // ------------------------------------------------- parts without callbacks

  /** A dispatch over an empty list does nothing. */
  lemma EmptyDispatch(w: World, p: nat, kind: Kind, was: Value, v: Value, origin: Origin)
    requires p < |w.params| && Slot(p, kind) !in w.on && |w.setup.decls[p].callbacks.Of(kind)| == 0
    ensures Exec(w, Dispatch(p, kind, was, v, origin)) == Result(w, Ok)
  {
    var slot := Slot(p, kind);
    var c := From(p, kind, 0, true, was, v, origin);
    DispatchBody(w, p, kind, was, v, origin);
    FromBody(Mark(w, slot), p, kind, 0, true, was, v, origin);
    assert Unmark(Mark(w, slot), slot) == w;
  }

  /** A write that no callback watches is one commit. */
  lemma PlainStore(w: World, p: nat, v: Value, origin: Origin)
    requires Healthy(w) && p < |w.params|
    requires |w.setup.decls[p].callbacks.preWrite| == 0 && |w.setup.decls[p].callbacks.postWrite| == 0
    ensures Exec(w, Store(p, v, origin)) == Result(Commit(w, p, v, origin), Ok)
  {
    StoreBody(w, p, v, origin);
    EmptyDispatch(w, p, PreWrite, v, v, origin);
    EmptyDispatch(Commit(w, p, v, origin), p, PostWrite, w.params[p].value, v, origin);
  }

  // --------------------------------------------- what one dispatch leaves

  /** The firings of one list, oldest first. */
  function Fires(log: seq<Entry>, slot: Slot): seq<Entry> {
    if |log| == 0 then []
    else
      var e := log[|log| - 1];
      Fires(log[..|log| - 1], slot) + (if e.Fired? && e.slot == slot then [e] else [])
  }

  /** The verdicts given in one list, oldest first. */
  function Votes(log: seq<Entry>, slot: Slot): seq<bool> {
    if |log| == 0 then []
    else
      var e := log[|log| - 1];
      Votes(log[..|log| - 1], slot) + (if e.Voted? && e.slot == slot then [e.ok] else [])
  }

  /** The payload `e` that a callback of list `kind` may get in a dispatch that
      began with `ev`. A write list tells all its callbacks the same; a read list
      tells each the value that it finds. */
  predicate Told(kind: Kind, ev: Event, e: Event) {
    if kind.PreWrite? || kind.PostWrite? then e == ev else e.was == e.becomes && e.origin == ev.origin
  }

  /** Do these entries fire the callbacks of a list in order, from number `i` on? */
  ghost predicate IsRow(row: seq<Entry>, slot: Slot, i: nat, ev: Event) {
    forall k :: 0 <= k < |row| ==>
      row[k].Fired? && row[k].slot == slot && row[k].index == i + k && Told(slot.kind, ev, row[k].event)
  }

  /** Callbacks 0 up to `n` of a write list, each with the payload `ev`. */
  function Row(slot: Slot, n: nat, ev: Event): seq<Entry> {
    seq(n, k requires 0 <= k => Fired(slot, k, ev))
  }

  lemma WriteRow(row: seq<Entry>, slot: Slot, ev: Event)
    requires IsRow(row, slot, 0, ev) && (slot.kind.PreWrite? || slot.kind.PostWrite?)
    ensures row == Row(slot, |row|, ev)
  {
  }

  predicate AllYes(votes: seq<bool>) {
    forall k :: 0 <= k < |votes| ==> votes[k]
  }

  lemma NoteReads(w: World, e: Entry, slot: Slot)
    ensures Fires(Note(w, e).log, slot) == Fires(w.log, slot) + (if e.Fired? && e.slot == slot then [e] else [])
    ensures Votes(Note(w, e).log, slot) == Votes(w.log, slot) + (if e.Voted? && e.slot == slot then [e.ok] else [])
  {
  }

  /** A list on the stack stays silent while calls run inside it. */
  lemma {:induction false} SilentList(on: set<Slot>, log: seq<Entry>, log': seq<Entry>, slot: Slot)
    requires slot in on && log <= log'
    requires forall j :: |log| <= j < |log'| ==> Legal(on, log'[j])
    ensures Fires(log', slot) == Fires(log, slot)
    ensures Votes(log', slot) == Votes(log, slot)
  {
    if |log| == |log'| {
      assert log == log';
    } else {
      SilentList(on, log, log'[..|log'| - 1], slot);
      assert Legal(on, log'[|log'| - 1]);
    }
  }

  /** Nothing has written parameter `p` on the way from `w` to `w'`. */
  ghost predicate Untouched(w: World, w': World, p: nat)
    requires p < |w.params|
  {
    && Frame(w, w')
    && SameValue(w.params[p], w'.params[p])
    && (forall j :: |w.log| <= j < |w'.log| && w'.log[j].Committed? ==> w'.log[j].param != p)
  }

  lemma RunInside(w: World, slot: Slot, cb: Callback, ev: Event)
    requires Healthy(w) && slot in w.on
    ensures
      var w' := Exec(w, Run(cb, ev, [])).w;
      && Healthy(w')
      && Fires(w'.log, slot) == Fires(w.log, slot)
      && Votes(w'.log, slot) == Votes(w.log, slot)
      && (slot.kind.PreWrite? ==> Untouched(w, w', slot.param))
  {
    EveryCallRespects(w, Run(cb, ev, []));
    var w' := Exec(w, Run(cb, ev, [])).w;
    SilentList(w.on, w.log, w'.log, slot);
  }

  /** What a loop over callbacks `i` up to `n` of a list adds to the firings and
      verdicts of that list. An exit by a throw leaves a shorter row. */
  ghost predicate Adds(fires: seq<Entry>, votes: seq<bool>, fires': seq<Entry>, votes': seq<bool>,
                       response: Response, slot: Slot, i: nat, n: nat, ok: bool, ev: Event)
  {
    && fires <= fires' && votes <= votes'
    && |fires'| - |fires| <= n - i
    && IsRow(fires'[|fires|..], slot, i, ev)
    && (!response.Raised? ==>
          && |fires'| - |fires| == n - i == |votes'| - |votes|
          && (response.Ok? <==> ok && AllYes(votes'[|votes|..])))
  }

  lemma RowGrows(fires: seq<Entry>, fires': seq<Entry>, slot: Slot, i: nat, ev: Event, ev': Event)
    requires fires + [Fired(slot, i, ev)] <= fires' && IsRow(fires'[|fires| + 1..], slot, i + 1, ev')
    requires Told(slot.kind, ev, ev) && Told(slot.kind, ev, ev')
    ensures fires <= fires' && IsRow(fires'[|fires|..], slot, i, ev)
  {
    var row, rest := fires'[|fires|..], fires'[|fires| + 1..];
    assert row[0] == fires'[|fires|] == Fired(slot, i, ev);
    forall k | 0 < k < |row| ensures row[k] == rest[k - 1] {
    }
  }

  lemma VotesGrow(votes: seq<bool>, votes': seq<bool>, vote: bool)
    requires votes + [vote] <= votes'
    ensures votes <= votes'
    ensures AllYes(votes'[|votes|..]) <==> vote && AllYes(votes'[|votes| + 1..])
  {
    var row, rest := votes'[|votes|..], votes'[|votes| + 1..];
    assert row[0] == votes'[|votes|] == vote;
    assert forall k :: 0 < k < |row| ==> row[k] == rest[k - 1];
    assert forall k :: 0 <= k < |rest| ==> rest[k] == row[k + 1];
  }

  lemma AddsOneMore(fires: seq<Entry>, votes: seq<bool>, fires': seq<Entry>, votes': seq<bool>,
                    response: Response, slot: Slot, i: nat, n: nat, ok: bool, vote: bool, ev: Event, ev': Event)
    requires i < n && Told(slot.kind, ev, ev) && Told(slot.kind, ev, ev')
    requires Adds(fires + [Fired(slot, i, ev)], votes + [vote], fires', votes',
                  response, slot, i + 1, n, ok && vote, ev')
    ensures Adds(fires, votes, fires', votes', response, slot, i, n, ok, ev)
  {
    RowGrows(fires, fires', slot, i, ev, ev');
    VotesGrow(votes, votes', vote);
  }

  ghost predicate LoopAdds(w: World, r: Result, slot: Slot, i: nat, n: nat, ok: bool, ev: Event)
  {
    && Healthy(r.w)
    && Adds(Fires(w.log, slot), Votes(w.log, slot), Fires(r.w.log, slot), Votes(r.w.log, slot),
            r.response, slot, i, n, ok, ev)
  }

  /** One turn of the loop adds one firing, and one verdict unless it throws. */
  lemma TurnAdds(w: World, slot: Slot, i: nat, cb: Callback, ev: Event, vote: bool)
    requires Healthy(w) && slot in w.on
    ensures
      var turn := Exec(Note(w, Fired(slot, i, ev)), Run(cb, ev, [])).w;
      var w2 := Note(turn, Voted(slot, i, vote));
      && Healthy(turn) && Healthy(w2)
      && Fires(turn.log, slot) == Fires(w2.log, slot) == Fires(w.log, slot) + [Fired(slot, i, ev)]
      && Votes(turn.log, slot) == Votes(w.log, slot)
      && Votes(w2.log, slot) == Votes(w.log, slot) + [vote]
      && (slot.kind.PreWrite? ==> slot.param < |w.params| && SameValue(w.params[slot.param], w2.params[slot.param]))
  {
    var w1 := Note(w, Fired(slot, i, ev));
    NoteReads(w, Fired(slot, i, ev), slot);
    RunInside(w1, slot, cb, ev);
    NoteReads(Exec(w1, Run(cb, ev, [])).w, Voted(slot, i, vote), slot);
  }

  /** The loop over a list fires its callbacks once each and in order, however they
      re-enter the protocol; only a throw stops it early. */
  lemma {:induction false} LoopFires(
    w: World, p: nat, kind: Kind, i: nat, ok: bool, was: Value, v: Value, origin: Origin)
    requires Healthy(w) && p < |w.params| && Slot(p, kind) in w.on
    requires i <= |w.setup.decls[p].callbacks.Of(kind)|
    ensures LoopAdds(w, Exec(w, From(p, kind, i, ok, was, v, origin)), Slot(p, kind), i,
                     |w.setup.decls[p].callbacks.Of(kind)|, ok, EventFor(w.params[p], kind, was, v, origin))
    decreases |w.setup.decls[p].callbacks.Of(kind)| - i
  {
    hide Exec, Adds, Healthy;
    var vec := w.setup.decls[p].callbacks.Of(kind);
    var slot := Slot(p, kind);
    var ev := EventFor(w.params[p], kind, was, v, origin);
    if i == |vec| {
      FromBody(w, p, kind, i, ok, was, v, origin);
      NothingAdded(w, slot, i, ok, ev);
    } else {
      FromUnfolds(w, p, kind, i, ok, was, v, origin);
      var r := Exec(w, From(p, kind, i, ok, was, v, origin));
      var turn := Exec(Note(w, Fired(slot, i, ev)), Run(vec[i], ev, []));
      var vote := kind.PreWrite? ==> turn.response.Ok?;
      var w2 := Note(turn.w, Voted(slot, i, vote));
      TurnAdds(w, slot, i, vec[i], ev, vote);
      if !turn.response.Raised? && (vote || !w.setup.throws) {
        LoopFires(w2, p, kind, i + 1, ok && vote, was, v, origin);
        LoopJoins(w, w2, r, slot, i, |vec|, ok, vote, ev, EventFor(w2.params[p], kind, was, v, origin));
      } else {
        assert r == Result(if turn.response.Raised? then turn.w else w2, Raised);
        TurnThrows(w, r, slot, i, |vec|, ok, ev);
      }
    }
  }

  lemma NothingAdded(w: World, slot: Slot, n: nat, ok: bool, ev: Event)
    requires Healthy(w)
    ensures LoopAdds(w, Result(w, if ok then Ok else No), slot, n, n, ok, ev)
  {
  }

  lemma TurnThrows(w: World, r: Result, slot: Slot, i: nat, n: nat, ok: bool, ev: Event)
    requires i < n && r.response.Raised? && Healthy(r.w)
    requires Fires(r.w.log, slot) == Fires(w.log, slot) + [Fired(slot, i, ev)]
    requires Votes(w.log, slot) <= Votes(r.w.log, slot) && Told(slot.kind, ev, ev)
    ensures LoopAdds(w, r, slot, i, n, ok, ev)
  {
  }

  lemma LoopJoins(w: World, w2: World, r: Result, slot: Slot, i: nat, n: nat,
                  ok: bool, vote: bool, ev: Event, ev': Event)
    requires i < n && LoopAdds(w2, r, slot, i + 1, n, ok && vote, ev')
    requires Told(slot.kind, ev, ev) && Told(slot.kind, ev, ev')
    requires Fires(w2.log, slot) == Fires(w.log, slot) + [Fired(slot, i, ev)]
    requires Votes(w2.log, slot) == Votes(w.log, slot) + [vote]
    ensures LoopAdds(w, r, slot, i, n, ok, ev)
  {
    AddsOneMore(Fires(w.log, slot), Votes(w.log, slot), Fires(r.w.log, slot), Votes(r.w.log, slot),
                r.response, slot, i, n, ok, vote, ev, ev');
  }

  lemma UntouchedJoins(a: World, b: World, c: World, p: nat)
    requires p < |a.params| && Untouched(a, b, p) && Untouched(b, c, p)
    ensures Untouched(a, c, p)
  {
  }

  /** One turn of a pre-write loop writes nothing. */
  lemma TurnLeavesUntouched(w: World, p: nat, i: nat, cb: Callback, ev: Event, vote: bool)
    requires Healthy(w) && p < |w.params| && Slot(p, PreWrite) in w.on
    ensures
      var slot := Slot(p, PreWrite);
      var turn := Exec(Note(w, Fired(slot, i, ev)), Run(cb, ev, [])).w;
      var w2 := Note(turn, Voted(slot, i, vote));
      Untouched(w, turn, p) && Untouched(w, w2, p) && Healthy(w2)
  {
    hide Exec, Healthy;
    var slot := Slot(p, PreWrite);
    var w1 := Note(w, Fired(slot, i, ev));
    NoteIsHealthy(w, Fired(slot, i, ev));
    RunInside(w1, slot, cb, ev);
    var turn := Exec(w1, Run(cb, ev, [])).w;
    NoteIsHealthy(turn, Voted(slot, i, vote));
    UntouchedJoins(w, w1, turn, p);
    UntouchedJoins(w, turn, Note(turn, Voted(slot, i, vote)), p);
  }

  /** While the pre-write list of `p` is on the stack, `p` is not written. */
  lemma {:induction false} LoopLeavesUntouched(
    w: World, p: nat, i: nat, ok: bool, was: Value, v: Value, origin: Origin)
    requires Healthy(w) && p < |w.params| && Slot(p, PreWrite) in w.on
    ensures Untouched(w, Exec(w, From(p, PreWrite, i, ok, was, v, origin)).w, p)
    decreases |w.setup.decls[p].callbacks.preWrite| - i
  {
    hide Exec, Healthy, SameValue;
    var vec := w.setup.decls[p].callbacks.preWrite;
    assert vec == w.setup.decls[p].callbacks.Of(PreWrite);
    var slot := Slot(p, PreWrite);
    if i >= |vec| {
      FromEnds(w, p, PreWrite, i, ok, was, v, origin);
      NothingWritten(w, p);
    } else {
      FromUnfolds(w, p, PreWrite, i, ok, was, v, origin);
      var ev := EventFor(w.params[p], PreWrite, was, v, origin);
      var turn := Exec(Note(w, Fired(slot, i, ev)), Run(vec[i], ev, []));
      var vote := turn.response.Ok?;
      var w2 := Note(turn.w, Voted(slot, i, vote));
      TurnLeavesUntouched(w, p, i, vec[i], ev, vote);
      if !turn.response.Raised? && (vote || !w.setup.throws) {
        LoopLeavesUntouched(w2, p, i + 1, ok && vote, was, v, origin);
        UntouchedJoins(w, w2, Exec(w2, From(p, PreWrite, i + 1, ok && vote, was, v, origin)).w, p);
      }
    }
  }

  lemma NothingWritten(w: World, p: nat)
    requires p < |w.params|
    ensures Untouched(w, w, p)
  {
  }
}
