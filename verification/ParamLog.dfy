/** The log of a run explains the state at its end, and what the callbacks were
    told on the way. */
module ParamLog {
  import opened Values
  import opened ParamMachine
  import opened ParamRule
  import opened ParamLaws
  import opened ParamRuns

  /** Parameter `p` after the writes in `log`, when it was `start` before; only the
      value and its origin are followed. */
  function Replay(log: seq<Entry>, p: nat, start: Param): Param {
    if |log| == 0 then start
    else
      var e := log[|log| - 1];
      if e.Committed? && e.param == p then start.(value := e.becomes, valueOrigin := e.origin)
      else Replay(log[..|log| - 1], p, start)
  }

  /** Did this entry, noted after `before`, tell what was then the case? */
  ghost predicate TellsTruth(before: seq<Entry>, e: Entry, start: seq<Param>) {
    match e
    case Fired(slot, _, ev) =>
      slot.param < |start| && Truthful(Replay(before, slot.param, start[slot.param]), slot.kind, ev)
    case Committed(p, was, _, _) => p < |start| && was == Replay(before, p, start[p]).value
    case _ => true
  }

  ghost predicate AllTrue(log: seq<Entry>, start: seq<Param>) {
    forall j :: 0 <= j < |log| ==> TellsTruth(log[..j], log[j], start)
  }

  /** Every value is the last one written. So is the origin of a value, unless the
      fast path of `set_value` may have left an older one. */
  ghost predicate Explained(w: World, start: seq<Param>) {
    && |start| == |w.params|
    && AllTrue(w.log, start)
    && (forall q :: 0 <= q < |w.params| ==>
          var s := Replay(w.log, q, start[q]);
          w.params[q].value == s.value && (!w.setup.fastPaths ==> w.params[q].valueOrigin == s.valueOrigin))
  }

  ghost function Accounting(start: seq<Param>): Law {
    Law((w: World) => Explained(w, start), (w: World, w': World) => true, _ => true, None, _ => false)
  }

  lemma OneMoreTrue(log: seq<Entry>, e: Entry, start: seq<Param>)
    requires AllTrue(log, start) && TellsTruth(log, e, start)
    ensures AllTrue(log + [e], start)
  {
    var log' := log + [e];
    forall j | 0 <= j < |log'| ensures TellsTruth(log'[..j], log'[j], start) {
      assert log'[..j] == log[..j];
      if j == |log| { assert log[..j] == log; }
    }
  }

  lemma NoteExplained(w: World, e: Entry, start: seq<Param>)
    requires Explained(w, start) && !e.Committed? && TellsTruth(w.log, e, start)
    ensures Explained(Note(w, e), start)
  {
    OneMoreTrue(w.log, e, start);
    assert Note(w, e).log[..|w.log|] == w.log;
  }

  lemma CommitExplained(w: World, p: nat, v: Value, origin: Origin, start: seq<Param>)
    requires Explained(w, start) && p < |w.params|
    ensures Explained(Commit(w, p, v, origin), start)
    ensures w.setup.fastPaths && origin == w.setup.decls[p].originator ==> Explained(CommitFast(w, p, v), start)
  {
    var e := Committed(p, w.params[p].value, v, origin);
    OneMoreTrue(w.log, e, start);
    assert (w.log + [e])[..|w.log|] == w.log;
  }

  lemma AccountingCommits(start: seq<Param>)
    ensures HoldsOfCommits(Accounting(start))
  {
    hide Explained;
    forall w: World, p: nat, v: Value, o: Origin | Explained(w, start) && p < |w.params|
      ensures Explained(Commit(w, p, v, o), start)
    {
      CommitExplained(w, p, v, o, start);
    }
    forall w: World, p: nat, v: Value | Explained(w, start) && p < |w.params| && w.setup.fastPaths
      ensures Explained(CommitFast(w, p, v), start)
    {
      CommitExplained(w, p, v, w.setup.decls[p].originator, start);
    }
  }

  lemma AccountingNotes(start: seq<Param>)
    ensures HoldsOfNotes(Accounting(start))
    ensures HoldsOfRestores(Accounting(start))
  {
    forall w: World, e: Entry | Explained(w, start) && InLoop(w, e) ensures Explained(Note(w, e), start) {
      NoteExplained(w, e, start);
    }
    forall w: World, p: nat | Explained(w, start) && p in w.setup.presets ensures Explained(Restore(w, p), start) {
      NoteExplained(w, Restored(p, w.setup.presets[p].origin), start);
    }
  }

  lemma SameExplained(w: World, w': World, start: seq<Param>)
    requires Explained(w, start) && w'.log == w.log && w'.setup == w.setup && |w'.params| == |w.params|
    requires forall q :: 0 <= q < |w.params| ==> SameValue(w.params[q], w'.params[q])
    ensures Explained(w', start)
  {
    hide AllTrue, Replay;
  }

  lemma AccountingTags(start: seq<Param>)
    ensures HoldsOfTags(Accounting(start))
  {
    hide Explained;
    forall w: World, s: Slot | Explained(w, start)
      ensures Explained(Mark(w, s), start) && Explained(Unmark(w, s), start)
    {
      SameExplained(w, Mark(w, s), start);
      SameExplained(w, Unmark(w, s), start);
    }
  }

  lemma AccountingFlags(start: seq<Param>)
    ensures HoldsOfFlags(Accounting(start))
  {
    hide Explained;
    forall w: World, p: nat, o: Origin | Explained(w, start) && p < |w.params|
      ensures Explained(RefreshFastWrite(w, p, o), start)
    {
      SameExplained(w, RefreshFastWrite(w, p, o), start);
    }
    forall w: World, p: nat | Explained(w, start) && p < |w.params|
      ensures Explained(RefreshFastRead(w, p), start)
    {
      SameExplained(w, RefreshFastRead(w, p), start);
    }
  }

  lemma AccountingLocks(start: seq<Param>)
    ensures HoldsOfLocks(Accounting(start))
  {
    hide Explained;
    forall w: World, p: nat, k: Option<Key> | Explained(w, start) && p < |w.params|
      ensures Explained(LockParam(w, p, k).w, start) && Explained(UnlockParam(w, p, k).w, start)
    {
      SameExplained(w, LockParam(w, p, k).w, start);
      SameExplained(w, UnlockParam(w, p, k).w, start);
    }
  }

  lemma AccountingIsSound(start: seq<Param>)
    ensures Sound(Accounting(start))
  {
    hide Explained;
    AccountingNotes(start);
    AccountingCommits(start);
    AccountingTags(start);
    AccountingFlags(start);
    AccountingLocks(start);
  }

  lemma StepExplained(w: World, op: Op, start: seq<Param>)
    requires Explained(w, start)
    ensures Explained(Step(w, op), start)
  {
    hide Exec;
    if op.Do? {
      AccountingIsSound(start);
      assert CallbacksMay(Accounting(start), w.setup.decls);
      EveryCallObeys(Accounting(start), w, Act(op.action));
    }
  }

  /** Over every run the log accounts for every value, and without fast paths for
      every origin. Each payload and each commit named the value of that moment. */
  lemma {:induction false} LogExplainsRun(w: World, ops: seq<Op>, start: seq<Param>)
    requires Explained(w, start)
    ensures Explained(RunAll(w, ops), start)
    decreases |ops|
  {
    if |ops| > 0 {
      StepExplained(w, ops[0], start);
      LogExplainsRun(Step(w, ops[0]), ops[1..], start);
    }
  }
}
