/** `broker`: private brokers that pass exposed names up to their parent. */
module BrokerChain {
  import opened Values
  import opened ParamMachine
  import opened ConsumingBroker

  /** A broker with its `expose` set. A broker without parent is the global one. */
  datatype Node = Node(state: State, expose: set<string>, parent: Option<nat>)

  /** All brokers of a program, in the order of their creation. A parent exists
      before its children. */
  ghost predicate Ordered(bs: seq<Node>) {
    forall b :: 0 <= b < |bs| ==> ParentBefore(bs, b)
  }

  predicate ParentBefore(bs: seq<Node>, b: nat)
    requires b < |bs|
  {
    bs[b].parent.Some? ==> bs[b].parent.value < b
  }

  predicate SendsUp(bs: seq<Node>, b: nat, n: string)
    requires b < |bs|
  {
    n in bs[b].expose && bs[b].parent.Some?
  }

  /** An operation on name `n` through broker `b`, as the methods forward it. */
  function Forward(bs: seq<Node>, b: nat, op: Op): (cs: seq<Node>)
    requires Ordered(bs) && b < |bs|
    ensures |cs| == |bs|
    decreases b
  {
    if SendsUp(bs, b, op.name) then
      assert ParentBefore(bs, b);
      Forward(bs, bs[b].parent.value, op)
    else bs[b := bs[b].(state := Apply(bs[b].state, op))]
  }

  /** A question about name `n` through broker `b`: `has_preset_value`,
      `get_preset_cci_value` and `get_value_origin` forward it alike. */
  function Ask<A>(bs: seq<Node>, b: nat, n: string, question: (State, string) -> A): A
    requires Ordered(bs) && b < |bs|
    decreases b
  {
    if SendsUp(bs, b, n) then
      assert ParentBefore(bs, b);
      Ask(bs, bs[b].parent.value, n, question)
    else question(bs[b].state, n)
  }

  /** `get_preset_value_origin` is not overridden: it never looks up. */
  function AskPresetOrigin(bs: seq<Node>, b: nat, n: string): Origin
    requires b < |bs|
  {
    GetPresetOrigin(bs[b].state, n)
  }

  /** From `b` upward, the first broker that is global or does not expose `n`. */
  ghost predicate IsOwner(bs: seq<Node>, b: nat, n: string, path: seq<nat>) {
    && |path| > 0 && path[0] == b
    && (forall i :: 0 <= i < |path| ==> path[i] < |bs|)
    && (forall i :: 0 <= i < |path| - 1 ==> n in bs[path[i]].expose && bs[path[i]].parent == Some(path[i + 1]))
    && (n in bs[path[|path| - 1]].expose ==> bs[path[|path| - 1]].parent.None?)
  }

  function PathUp(bs: seq<Node>, b: nat, n: string): (path: seq<nat>)
    requires Ordered(bs) && b < |bs|
    ensures IsOwner(bs, b, n, path)
    decreases b
  {
    if SendsUp(bs, b, n) then
      assert ParentBefore(bs, b);
      [b] + PathUp(bs, bs[b].parent.value, n)
    else [b]
  }

  function OwnerOf(bs: seq<Node>, b: nat, n: string): (o: nat)
    requires Ordered(bs) && b < |bs|
    ensures o < |bs| && !SendsUp(bs, o, n)
  {
    var path := PathUp(bs, b, n);
    path[|path| - 1]
  }

  lemma OwnerStep(bs: seq<Node>, b: nat, n: string)
    requires Ordered(bs) && b < |bs|
    ensures SendsUp(bs, b, n) ==> ParentBefore(bs, b) && OwnerOf(bs, b, n) == OwnerOf(bs, bs[b].parent.value, n)
    ensures !SendsUp(bs, b, n) ==> OwnerOf(bs, b, n) == b
  {
  }

  /** A name that is not exposed stays, and so does every name at a global broker;
      an exposed one belongs to whoever owns it for the parent. */
  lemma OwnerByFields(bs: seq<Node>, b: nat, n: string)
    requires Ordered(bs) && b < |bs|
    ensures n !in bs[b].expose || bs[b].parent.None? ==> OwnerOf(bs, b, n) == b
    ensures n in bs[b].expose && bs[b].parent.Some? ==>
              bs[b].parent.value < b && OwnerOf(bs, b, n) == OwnerOf(bs, bs[b].parent.value, n)
  {
    OwnerStep(bs, b, n);
  }

  lemma RestOfPath(bs: seq<Node>, b: nat, n: string, path: seq<nat>)
    requires IsOwner(bs, b, n, path) && |path| > 1
    ensures IsOwner(bs, path[1], n, path[1..])
  {
    var rest := path[1..];
    forall i | 0 <= i < |rest| - 1 ensures n in bs[rest[i]].expose && bs[rest[i]].parent == Some(rest[i + 1]) {
      assert rest[i] == path[i + 1] && rest[i + 1] == path[i + 1 + 1];
    }
  }

  /** The owner is the end of the only path upward. */
  lemma {:induction false} OwnerIsUnique(bs: seq<Node>, b: nat, n: string, path: seq<nat>)
    requires Ordered(bs) && b < |bs| && IsOwner(bs, b, n, path)
    ensures path[|path| - 1] == OwnerOf(bs, b, n)
    decreases |path|
  {
    hide OwnerOf, PathUp;
    OwnerStep(bs, b, n);
    if |path| > 1 {
      assert n in bs[path[0]].expose && bs[path[0]].parent == Some(path[0 + 1]);
      RestOfPath(bs, b, n, path);
      OwnerIsUnique(bs, bs[b].parent.value, n, path[1..]);
    }
  }

  /** Every operation acts exactly at the owner, and no other broker changes. */
  lemma {:induction false} ForwardActsAtOwner(bs: seq<Node>, b: nat, op: Op)
    requires Ordered(bs) && b < |bs|
    ensures
      var o := OwnerOf(bs, b, op.name);
      Forward(bs, b, op) == bs[o := bs[o].(state := Apply(bs[o].state, op))]
    decreases b
  {
    OwnerStep(bs, b, op.name);
    if SendsUp(bs, b, op.name) { ForwardActsAtOwner(bs, bs[b].parent.value, op); }
  }

  lemma {:induction false} AskReachesOwner<A>(bs: seq<Node>, b: nat, n: string, question: (State, string) -> A)
    requires Ordered(bs) && b < |bs|
    ensures Ask(bs, b, n, question) == question(bs[OwnerOf(bs, b, n)].state, n)
    decreases b
  {
    OwnerStep(bs, b, n);
    if SendsUp(bs, b, n) { AskReachesOwner(bs, bs[b].parent.value, n, question); }
  }

  lemma AskThree(bs: seq<Node>, b: nat, n: string)
    requires Ordered(bs) && b < |bs|
    ensures
      var s := bs[OwnerOf(bs, b, n)].state;
      && Ask(bs, b, n, GetPreset) == GetPreset(s, n)
      && Ask(bs, b, n, HasPreset) == HasPreset(s, n)
      && Ask(bs, b, n, GetPresetOrigin) == GetPresetOrigin(s, n)
  {
    AskReachesOwner(bs, b, n, GetPreset);
    AskReachesOwner(bs, b, n, HasPreset);
    AskReachesOwner(bs, b, n, GetPresetOrigin);
  }

  /** A younger broker makes no difference to what an older one does or knows. */
  lemma {:induction false} YoungerIsIgnored<A>(
    bs: seq<Node>, x: Node, b: nat, op: Op, n: string, question: (State, string) -> A)
    requires Ordered(bs) && Ordered(bs + [x]) && b < |bs|
    ensures Forward(bs + [x], b, op) == Forward(bs, b, op) + [x]
    ensures Ask(bs + [x], b, n, question) == Ask(bs, b, n, question)
    ensures OwnerOf(bs + [x], b, n) == OwnerOf(bs, b, n)
    decreases b
  {
    assert (bs + [x])[b] == bs[b] && ParentBefore(bs, b);
    OwnerStep(bs, b, n);
    OwnerStep(bs + [x], b, n);
    if bs[b].parent.Some? {
      YoungerIsIgnored(bs, x, bs[b].parent.value, op, n, question);
    }
  }

  ghost predicate SameRoutes(bs: seq<Node>, cs: seq<Node>) {
    && |cs| == |bs|
    && (forall b :: 0 <= b < |bs| ==> cs[b].expose == bs[b].expose && cs[b].parent == bs[b].parent)
  }

  lemma {:induction false} SameOwners(bs: seq<Node>, cs: seq<Node>, b: nat, n: string)
    requires Ordered(bs) && Ordered(cs) && SameRoutes(bs, cs) && b < |bs|
    ensures OwnerOf(bs, b, n) == OwnerOf(cs, b, n)
    decreases b
  {
    OwnerStep(bs, b, n);
    OwnerStep(cs, b, n);
    if SendsUp(bs, b, n) { SameOwners(bs, cs, bs[b].parent.value, n); }
  }

  lemma ForwardKeepsRoutes(bs: seq<Node>, b: nat, op: Op)
    requires Ordered(bs) && b < |bs|
    ensures SameRoutes(bs, Forward(bs, b, op)) && Ordered(Forward(bs, b, op))
  {
    ForwardActsAtOwner(bs, b, op);
    var cs := Forward(bs, b, op);
    forall c | 0 <= c < |cs| ensures ParentBefore(cs, c) {
      assert ParentBefore(bs, c);
    }
  }

  // ------------------------------------------------ what one operation shows

  /** An operation leaves what is known about every other name as it was, through
      every broker. */
  lemma OtherNamesStay(bs: seq<Node>, b: nat, op: Op, c: nat, m: string)
    requires Ordered(bs) && b < |bs| && c < |bs| && m != op.name
    ensures Ordered(Forward(bs, b, op))
    ensures Ask(Forward(bs, b, op), c, m, GetPreset) == Ask(bs, c, m, GetPreset)
    ensures Ask(Forward(bs, b, op), c, m, HasPreset) == Ask(bs, c, m, HasPreset)
    ensures Ask(Forward(bs, b, op), c, m, GetPresetOrigin) == Ask(bs, c, m, GetPresetOrigin)
  {
    var cs := Forward(bs, b, op);
    ForwardActsAtOwner(bs, b, op);
    ForwardKeepsRoutes(bs, b, op);
    SameOwners(bs, cs, c, m);
    AskThree(bs, c, m);
    AskThree(cs, c, m);
  }

  /** A preset that is set through one broker is read back through exactly the
      brokers that have the same owner for its name; the others still give what
      they gave before. */
  lemma SetIsReadBackByOwner(bs: seq<Node>, b: nat, c: nat, n: string, v: Value, o: Origin)
    requires Ordered(bs) && b < |bs| && c < |bs| && n !in bs[OwnerOf(bs, b, n)].state.locked
    ensures Ordered(Forward(bs, b, DoSetPreset(n, v, o)))
    ensures
      var cs := Forward(bs, b, DoSetPreset(n, v, o));
      if OwnerOf(bs, c, n) == OwnerOf(bs, b, n) then
        Ask(cs, c, n, HasPreset) && Ask(cs, c, n, GetPreset) == v && Ask(cs, c, n, GetPresetOrigin) == o
      else
        && Ask(cs, c, n, HasPreset) == Ask(bs, c, n, HasPreset)
        && Ask(cs, c, n, GetPreset) == Ask(bs, c, n, GetPreset)
        && Ask(cs, c, n, GetPresetOrigin) == Ask(bs, c, n, GetPresetOrigin)
  {
    var op := DoSetPreset(n, v, o);
    var cs := Forward(bs, b, op);
    ForwardActsAtOwner(bs, b, op);
    ForwardKeepsRoutes(bs, b, op);
    SameOwners(bs, cs, c, n);
    AskThree(bs, c, n);
    AskThree(cs, c, n);
  }

  // ----------------------------------------------------------- whole runs

  /** An operation through some broker. */
  datatype Through = Through(broker: nat, op: Op)

  function ForwardAll(bs: seq<Node>, ops: seq<Through>): seq<Node>
    requires Ordered(bs) && forall x :: x in ops ==> x.broker < |bs|
    decreases |ops|
  {
    if |ops| == 0 then bs
    else
      assert ops[0] in ops;
      ForwardKeepsRoutes(bs, ops[0].broker, ops[0].op);
      ForwardAll(Forward(bs, ops[0].broker, ops[0].op), ops[1..])
  }

  /** With the `expose` sets fixed, a broker holds nothing under a name that it
      passes up. */
  ghost predicate NothingHeld(s: State, n: string) {
    n !in s.params && n !in s.unused && n !in s.used && n !in s.origins && n !in s.locked
  }

  ghost predicate PassesUpCleanly(bs: seq<Node>) {
    forall b, n :: 0 <= b < |bs| && SendsUp(bs, b, n) ==> NothingHeld(bs[b].state, n)
  }

  ghost predicate Sane(bs: seq<Node>) {
    && Ordered(bs)
    && PassesUpCleanly(bs)
    && (forall b :: 0 <= b < |bs| ==> Consistent(bs[b].state))
  }

  lemma ApplyTouchesOneName(s: State, op: Op, n: string)
    requires NothingHeld(s, n) && n != op.name
    ensures NothingHeld(Apply(s, op), n)
  {
  }

  lemma ForwardKeepsSane(bs: seq<Node>, b: nat, op: Op)
    requires Sane(bs) && b < |bs|
    ensures Sane(Forward(bs, b, op)) && SameRoutes(bs, Forward(bs, b, op))
  {
    var cs := Forward(bs, b, op);
    ForwardActsAtOwner(bs, b, op);
    ForwardKeepsRoutes(bs, b, op);
    var o := OwnerOf(bs, b, op.name);
    ApplyRefines(bs[o].state, op);
    forall c, n | 0 <= c < |cs| && SendsUp(cs, c, n) ensures NothingHeld(cs[c].state, n) {
      assert SendsUp(bs, c, n);
      if c == o { ApplyTouchesOneName(bs[o].state, op, n); }
    }
  }

  lemma {:induction false} RunKeepsSane(bs: seq<Node>, ops: seq<Through>)
    requires Sane(bs) && forall x :: x in ops ==> x.broker < |bs|
    ensures Sane(ForwardAll(bs, ops)) && SameRoutes(bs, ForwardAll(bs, ops))
    decreases |ops|
  {
    if |ops| > 0 {
      assert ops[0] in ops;
      ForwardKeepsSane(bs, ops[0].broker, ops[0].op);
      RunKeepsSane(Forward(bs, ops[0].broker, ops[0].op), ops[1..]);
    }
  }

  /** Once a name is locked through some broker, no run of operations through any
      brokers changes its preset as seen from there. */
  lemma {:induction false} LockedForTheChain(bs: seq<Node>, ops: seq<Through>, b: nat, n: string)
    requires Sane(bs) && b < |bs| && n in bs[OwnerOf(bs, b, n)].state.locked
    requires forall x :: x in ops ==> x.broker < |bs|
    ensures Sane(ForwardAll(bs, ops)) && |ForwardAll(bs, ops)| == |bs|
    ensures Ask(ForwardAll(bs, ops), b, n, GetPreset) == Ask(bs, b, n, GetPreset)
    ensures Ask(ForwardAll(bs, ops), b, n, HasPreset) == Ask(bs, b, n, HasPreset)
    ensures Ask(ForwardAll(bs, ops), b, n, GetPresetOrigin) == Ask(bs, b, n, GetPresetOrigin)
    decreases |ops|
  {
    if |ops| > 0 {
      assert ops[0] in ops;
      var c, op := ops[0].broker, ops[0].op;
      var cs := Forward(bs, c, op);
      ForwardKeepsSane(bs, c, op);
      ForwardActsAtOwner(bs, c, op);
      SameOwners(bs, cs, b, n);
      ApplyKeepsLocked(bs[OwnerOf(bs, b, n)].state, op, n);
      AskThree(bs, b, n);
      AskThree(cs, b, n);
      LockedForTheChain(cs, ops[1..], b, n);
    }
  }

  // --------------------------------------------------- the missing override

  /** All brokers at the start of the program. */
  ghost predicate Unused(bs: seq<Node>) {
    Ordered(bs) && forall b :: 0 <= b < |bs| ==> bs[b].state == NEW_STATE
  }

  predicate Allowed(bs: seq<Node>, ops: seq<Through>) {
    forall x :: x in ops ==> x.broker < |bs|
  }

  /** Was the name locked at broker `o` by one of these operations? */
  predicate LockedBy(bs: seq<Node>, ops: seq<Through>, o: nat, n: string)
    requires Ordered(bs) && Allowed(bs, ops)
  {
    exists x :: x in ops && x.op == DoLockPreset(n) && OwnerOf(bs, x.broker, n) == o
  }

  /** The history of a name at its owner: the last set of the name through any
      broker with that owner, before the name was locked there. */
  function LastSet(bs: seq<Node>, ops: seq<Through>, o: nat, n: string): Option<Preset>
    requires Ordered(bs) && Allowed(bs, ops)
    decreases |ops|
  {
    if |ops| == 0 then None
    else
      var x, before := ops[|ops| - 1], ops[..|ops| - 1];
      if x.op.DoSetPreset? && x.op.name == n && OwnerOf(bs, x.broker, n) == o && !LockedBy(bs, before, o, n)
      then Some(Preset(x.op.value, x.op.origin))
      else LastSet(bs, before, o, n)
  }

  lemma {:induction false} ForwardAllSnoc(bs: seq<Node>, ops: seq<Through>, x: Through)
    requires Ordered(bs) && Allowed(bs, ops + [x]) && x.broker < |bs|
    ensures Ordered(ForwardAll(bs, ops)) && |ForwardAll(bs, ops)| == |bs|
    ensures ForwardAll(bs, ops + [x]) == Forward(ForwardAll(bs, ops), x.broker, x.op)
    decreases |ops|
  {
    if |ops| == 0 {
      assert ops + [x] == [x] && [x][1..] == [];
    } else {
      assert ops[0] in ops && (ops + [x])[0] == ops[0];
      ForwardKeepsRoutes(bs, ops[0].broker, ops[0].op);
      assert (ops + [x])[1..] == ops[1..] + [x];
      ForwardAllSnoc(Forward(bs, ops[0].broker, ops[0].op), ops[1..], x);
    }
  }

  /** What the owner's registries say of a name. */
  ghost predicate Holds(s: State, n: string, preset: Option<Preset>, isLocked: bool) {
    && Consistent(s)
    && (n in s.locked <==> isLocked)
    && (if n in Presets(s) then preset == Some(Presets(s)[n]) else preset == None)
  }

  lemma SetHolds(s: State, op: Op, n: string, preset: Option<Preset>, isLocked: bool)
    requires Holds(s, n, preset, isLocked)
    ensures Holds(Apply(s, op), n,
                  if op.DoSetPreset? && op.name == n && !isLocked then Some(Preset(op.value, op.origin)) else preset,
                  isLocked || op == DoLockPreset(n))
  {
    ApplyRefines(s, op);
  }

  /** Over every run from the start, the preset and the origin that an owner has
      for a name are those of the last set before the name was locked there. */
  lemma {:induction false} HistoryDecides(bs: seq<Node>, ops: seq<Through>, o: nat, n: string)
    requires Unused(bs) && Allowed(bs, ops) && o < |bs|
    ensures |ForwardAll(bs, ops)| == |bs|
    ensures Holds(ForwardAll(bs, ops)[o].state, n, LastSet(bs, ops, o, n), LockedBy(bs, ops, o, n))
    decreases |ops|
  {
    if |ops| > 0 {
      var x, before := ops[|ops| - 1], ops[..|ops| - 1];
      assert ops == before + [x];
      HistoryDecides(bs, before, o, n);
      ForwardAllSnoc(bs, before, x);
      UnusedIsSane(bs);
      RunKeepsSane(bs, before);
      var cs := ForwardAll(bs, before);
      ForwardActsAtOwner(cs, x.broker, x.op);
      SameOwners(bs, cs, x.broker, x.op.name);
      SetHolds(cs[o].state, x.op, n, LastSet(bs, before, o, n), LockedBy(bs, before, o, n));
      OneLockMore(bs, before, x, o, n);
    }
  }

  lemma OneLockMore(bs: seq<Node>, before: seq<Through>, x: Through, o: nat, n: string)
    requires Ordered(bs) && Allowed(bs, before + [x])
    ensures Allowed(bs, before) && x.broker < |bs|
    ensures LockedBy(bs, before + [x], o, n) <==>
            LockedBy(bs, before, o, n) || (x.op == DoLockPreset(n) && OwnerOf(bs, x.broker, n) == o)
  {
  }

  lemma UnusedIsSane(bs: seq<Node>)
    requires Unused(bs)
    ensures Sane(bs)
  {
  }

  /** What both origin queries answer after a run. */
  lemma OriginAnswers(bs: seq<Node>, ops: seq<Through>, b: nat, n: string)
    requires Unused(bs) && Allowed(bs, ops) && b < |bs|
    ensures
      var cs := ForwardAll(bs, ops);
      var last := LastSet(bs, ops, OwnerOf(bs, b, n), n);
      && Ordered(cs) && |cs| == |bs|
      && Ask(cs, b, n, GetPresetOrigin) == (if last.Some? then last.value.origin else UNKNOWN_ORIGIN)
      && (Ask(cs, b, n, HasPreset) <==> last.Some?)
      && AskPresetOrigin(cs, b, n) == if SendsUp(bs, b, n) then UNKNOWN_ORIGIN else Ask(cs, b, n, GetPresetOrigin)
  {
    var cs, o := ForwardAll(bs, ops), OwnerOf(bs, b, n);
    UnusedIsSane(bs);
    RunKeepsSane(bs, ops);
    HistoryDecides(bs, ops, o, n);
    SameOwners(bs, cs, b, n);
    AskThree(cs, b, n);
    OwnerStep(bs, b, n);
    ApplyRefines(cs[o].state, DoLockPreset(n));
    assert SendsUp(bs, b, n) ==> SendsUp(cs, b, n) && NothingHeld(cs[b].state, n);
  }

  /** The origin of a preset, asked through a broker after any run, is the one
      that the owner knows exactly if the broker does not pass the name up, or the
      name was never set before it was locked, or the set that counts came from
      an unknown originator. */
  lemma PresetOriginIsLocal(bs: seq<Node>, ops: seq<Through>, b: nat, n: string)
    requires Unused(bs) && Allowed(bs, ops) && b < |bs|
    ensures
      var cs := ForwardAll(bs, ops);
      var last := LastSet(bs, ops, OwnerOf(bs, b, n), n);
      && Ordered(cs) && |cs| == |bs|
      && (AskPresetOrigin(cs, b, n) == Ask(cs, b, n, GetPresetOrigin)
          <==> !SendsUp(bs, b, n) || last.None? || last.value.origin == UNKNOWN_ORIGIN)
  {
    OriginAnswers(bs, ops, b, n);
  }

  /** Every preset is set by somebody known. */
  predicate OriginsKnown(ops: seq<Through>) {
    forall x :: x in ops && x.op.DoSetPreset? ==> x.op.origin != UNKNOWN_ORIGIN
  }

  lemma {:induction false} LastSetIsKnown(bs: seq<Node>, ops: seq<Through>, o: nat, n: string)
    requires Ordered(bs) && Allowed(bs, ops) && OriginsKnown(ops)
    ensures LastSet(bs, ops, o, n).Some? ==> LastSet(bs, ops, o, n).value.origin != UNKNOWN_ORIGIN
    decreases |ops|
  {
    if |ops| > 0 {
      assert ops[|ops| - 1] in ops;
      LastSetIsKnown(bs, ops[..|ops| - 1], o, n);
    }
  }

  /** When known originators set all presets, the local answer is right exactly if
      the broker does not pass the name up or there is no preset of that name. */
  lemma PresetOriginIsLostUpwards(bs: seq<Node>, ops: seq<Through>, b: nat, n: string)
    requires Unused(bs) && Allowed(bs, ops) && OriginsKnown(ops) && b < |bs|
    ensures
      var cs := ForwardAll(bs, ops);
      && Ordered(cs) && |cs| == |bs|
      && (AskPresetOrigin(cs, b, n) == Ask(cs, b, n, GetPresetOrigin)
          <==> !SendsUp(bs, b, n) || !Ask(cs, b, n, HasPreset))
  {
    OriginAnswers(bs, ops, b, n);
    LastSetIsKnown(bs, ops, OwnerOf(bs, b, n), n);
  }

  /** Two brokers are enough: the child exposes a name, somebody sets its preset
      through the child, and the child does not know who. */
  lemma PresetOriginCanBeWrong(n: string, v: Value, o: Origin) returns (bs: seq<Node>, ops: seq<Through>)
    requires o != UNKNOWN_ORIGIN
    ensures Unused(bs) && |bs| == 2 && Allowed(bs, ops) && ops == [Through(1, DoSetPreset(n, v, o))]
    ensures Ordered(ForwardAll(bs, ops)) && |ForwardAll(bs, ops)| == 2
    ensures Ask(ForwardAll(bs, ops), 1, n, GetPresetOrigin) == o
    ensures AskPresetOrigin(ForwardAll(bs, ops), 1, n) == UNKNOWN_ORIGIN
  {
    bs := [Node(NEW_STATE, {}, None), Node(NEW_STATE, {n}, Some(0))];
    ops := [Through(1, DoSetPreset(n, v, o))];
    assert ops[0] in ops && ops[..0] == [];
    OriginAnswers(bs, ops, 1, n);
    assert OwnerOf(bs, 1, n) == 0;
    assert LastSet(bs, ops, 0, n) == Some(Preset(v, o));
  }

  // ------------------------------------------------- lookup and enumeration

  /** `get_param_handle`: up when exposed, else here, else up. */
  function Lookup(bs: seq<Node>, b: nat, n: string): Option<nat>
    requires Ordered(bs) && b < |bs|
    decreases b
  {
    assert ParentBefore(bs, b);
    if SendsUp(bs, b, n) then Lookup(bs, bs[b].parent.value, n)
    else if n in bs[b].state.params then Some(bs[b].state.params[n])
    else if bs[b].parent.Some? then Lookup(bs, bs[b].parent.value, n)
    else None
  }

  datatype Listed = Listed(name: string, param: nat)

  /** The parameters of one broker, each once. Their order is left open. */
  ghost function Listing(m: map<string, nat>): seq<Listed> {
    if |m| == 0 then []
    else
      var n :| n in m;
      [Listed(n, m[n])] + Listing(m - {n})
  }

  /** `get_param_handles`: the broker's own parameters, then those of its parent. */
  ghost function Enumerate(bs: seq<Node>, b: nat): seq<Listed>
    requires Ordered(bs) && b < |bs|
    decreases b
  {
    assert ParentBefore(bs, b);
    Listing(bs[b].state.params)
    + (if bs[b].parent.Some? then Enumerate(bs, bs[b].parent.value) else [])
  }

  /** The first entry with that name. */
  function FirstNamed(list: seq<Listed>, n: string): Option<nat> {
    if |list| == 0 then None
    else if list[0].name == n then Some(list[0].param)
    else FirstNamed(list[1..], n)
  }

  lemma {:induction false} FirstNamedJoin(a: seq<Listed>, b: seq<Listed>, n: string)
    ensures FirstNamed(a + b, n) == if FirstNamed(a, n).Some? then FirstNamed(a, n) else FirstNamed(b, n)
  {
    if |a| == 0 {
      assert a + b == b;
    } else {
      assert (a + b)[1..] == a[1..] + b;
      FirstNamedJoin(a[1..], b, n);
    }
  }

  lemma {:induction false} ListingFinds(m: map<string, nat>, n: string)
    ensures FirstNamed(Listing(m), n) == if n in m then Some(m[n]) else None
    decreases |m|
  {
    if |m| > 0 {
      var list := Listing(m);
      var k := list[0].name;
      assert list == [Listed(k, m[k])] + Listing(m - {k});
      assert list[1..] == Listing(m - {k});
      ListingFinds(m - {k}, n);
    }
  }

  /** Looking a name up gives the parameter of the first entry of that name in the
      enumeration, and fails exactly when there is none. */
  lemma {:induction false} LookupIsFirstListed(bs: seq<Node>, b: nat, n: string)
    requires Sane(bs) && b < |bs|
    ensures Lookup(bs, b, n) == FirstNamed(Enumerate(bs, b), n)
    decreases b
  {
    assert ParentBefore(bs, b);
    var own := Listing(bs[b].state.params);
    var above := if bs[b].parent.Some? then Enumerate(bs, bs[b].parent.value) else [];
    FirstNamedJoin(own, above, n);
    ListingFinds(bs[b].state.params, n);
    if bs[b].parent.Some? { LookupIsFirstListed(bs, bs[b].parent.value, n); }
    if SendsUp(bs, b, n) { assert NothingHeld(bs[b].state, n); }
  }

  /** The broker and all above it, whatever they expose. */
  ghost predicate IsLineage(bs: seq<Node>, b: nat, line: seq<nat>) {
    && |line| > 0 && line[0] == b
    && (forall i :: 0 <= i < |line| ==> line[i] < |bs|)
    && (forall i :: 0 <= i < |line| - 1 ==> bs[line[i]].parent == Some(line[i + 1]))
    && bs[line[|line| - 1]].parent == None
  }

  ghost predicate NearestNamed(bs: seq<Node>, line: seq<nat>, n: string, i: nat)
    requires forall k :: 0 <= k < |line| ==> line[k] < |bs|
  {
    i < |line| && n in bs[line[i]].state.params && forall k :: 0 <= k < i ==> n !in bs[line[k]].state.params
  }

  /** A lookup gives the parameter of that name in the nearest broker upward that
      has one, and fails exactly when none has. */
  lemma {:induction false} LookupFindsNearest(bs: seq<Node>, b: nat, n: string, line: seq<nat>)
    requires Sane(bs) && b < |bs| && IsLineage(bs, b, line)
    ensures match Lookup(bs, b, n)
            case Some(p) => exists i: nat :: NearestNamed(bs, line, n, i) && bs[line[i]].state.params[n] == p
            case None => forall i :: 0 <= i < |line| ==> n !in bs[line[i]].state.params
    decreases |line|
  {
    assert ParentBefore(bs, b);
    if SendsUp(bs, b, n) { assert NothingHeld(bs[b].state, n); }
    if n in bs[b].state.params {
      assert NearestNamed(bs, line, n, 0);
    } else if bs[b].parent.Some? {
      assert |line| > 1;
      var up := line[1..];
      LookupFindsNearest(bs, line[1], n, up);
      if Lookup(bs, b, n).Some? {
        var i: nat :| NearestNamed(bs, up, n, i) && bs[up[i]].state.params[n] == Lookup(bs, b, n).value;
        assert NearestNamed(bs, line, n, i + 1);
      } else {
        forall i | 0 <= i < |line| ensures n !in bs[line[i]].state.params {
          if i > 0 { assert line[i] == up[i - 1]; }
        }
      }
    } else {
      assert |line| == 1;
    }
  }
}
