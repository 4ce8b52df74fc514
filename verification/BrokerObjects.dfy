/** Private brokers as objects, and the registry that finds the broker of a place
    in the object hierarchy. */
module BrokerObjects {
  import opened Values
  import opened ParamMachine
  import opened ConsumingBroker
  import opened BrokerChain

  /** `broker`, with its `consuming_broker` part as `base`. The parent is chosen
      at construction, so it is older: `rank` counts the brokers above. */
  class PrivateBroker {
    const base: PlainBroker
    var expose: set<string>
    const parent: PrivateBroker?
    ghost const rank: nat
    ghost const chain: set<PrivateBroker> // this broker and those above it
    ghost const bases: set<PlainBroker>   // and their registries

    constructor (up: PrivateBroker?, mayThrow: bool)
      requires up != null ==> up.Valid()
      ensures Valid() && parent == up && expose == {}
      ensures fresh(base) && base.Contents() == NEW_STATE
    {
      ghost var above := if up == null then {} else up.bases;
      base := new PlainBroker(mayThrow);
      expose := {};
      parent := up;
      rank := if up == null then 0 else up.rank + 1;
      chain := {this} + if up == null then {} else up.chain;
      bases := {base} + above;
    }

    /** No two brokers of a chain share their registries. */
    ghost predicate Valid()
      decreases rank
    {
      if parent == null then rank == 0 && chain == {this} && bases == {base}
      else
        && rank == parent.rank + 1 && parent.Valid() && base !in parent.bases
        && chain == {this} + parent.chain && bases == {base} + parent.bases
    }

    /** The chain as `BrokerChain` sees it: the oldest broker first, this one last. */
    ghost function Nodes(): (bs: seq<Node>)
      requires Valid()
      reads chain, bases
      ensures |bs| == rank + 1
      decreases rank
    {
      (if parent == null then [] else parent.Nodes()) + [Last()]
    }

    ghost function Last(): Node
      requires Valid()
      reads this, base
    {
      Node(base.Contents(), expose, if parent == null then None else Some(rank - 1))
    }

    predicate SendToParent(n: string)
      reads this
    {
      n in expose && parent != null
    }

    /** The base of the first broker upward that is global or does not expose `n`. */
    ghost function Owner(n: string): (o: PlainBroker)
      requires Valid()
      reads chain
      ensures o in bases
      decreases rank
    {
      if SendToParent(n) then parent.Owner(n) else base
    }

    /** The owner by the fields: a name that is not exposed stays here, an exposed one
        goes to the parent, if there is one. */
    lemma OwnerByFields(n: string)
      requires Valid()
      ensures n !in expose || parent == null ==> Owner(n) == base
      ensures n in expose && parent != null ==> Owner(n) == parent.Owner(n)
    {
    }

    /** The chain is in order, and passes names up where this broker does. */
    lemma NodesAreOrdered()
      requires Valid()
      ensures Ordered(Nodes())
      ensures forall n :: SendsUp(Nodes(), rank, n) <==> SendToParent(n)
      decreases rank
    {
      if parent != null {
        parent.NodesAreOrdered();
      }
      forall b | 0 <= b < |Nodes()| ensures ParentBefore(Nodes(), b) {
        if b < rank {
          assert ParentBefore(parent.Nodes(), b);
        }
      }
    }

    /** The owner of a name among the objects is the one of the chain. */
    lemma OwnersAgree(n: string)
      requires Valid()
      ensures Ordered(Nodes()) && Nodes()[OwnerOf(Nodes(), rank, n)].state == Owner(n).Contents()
      decreases rank
    {
      hide OwnerOf, PathUp;
      NodesAreOrdered();
      OwnerStep(Nodes(), rank, n);
      if SendToParent(n) {
        parent.OwnersAgree(n);
        assert Nodes() == parent.Nodes() + [Last()];
        YoungerIsIgnored(parent.Nodes(), Last(), rank - 1, DoLockPreset(n), n, GetPreset);
      }
    }

    /** An operation through this broker that the parent carries out. */
    lemma PassedUp(before: seq<Node>, op: Op)
      requires Valid() && parent != null
      requires Ordered(before + [Last()]) && |before| == rank && SendsUp(before + [Last()], rank, op.name)
      requires Ordered(before) && parent.Nodes() == Forward(before, rank - 1, op)
      ensures Nodes() == Forward(before + [Last()], rank, op)
    {
      YoungerIsIgnored(before, Last(), rank - 1, op, op.name, GetPreset);
    }

    /** An operation that this broker carries out itself. */
    lemma DoneHere(before: seq<Node>, was: Node, op: Op)
      requires Valid() && Ordered(before + [was]) && |before| == rank && !SendsUp(before + [was], rank, op.name)
      requires before == Above()
      requires Last() == was.(state := Apply(was.state, op))
      ensures Nodes() == Forward(before + [was], rank, op)
    {
    }

    ghost function Above(): seq<Node>
      requires Valid()
      reads chain, bases
    {
      if parent == null then [] else parent.Nodes()
    }

    /** The methods change the owner's registries and nothing else: they do to the
        chain what `Forward` does. */
    method SetPresetValue(n: string, v: Value, o: Origin) returns (r: Response)
      requires Valid()
      modifies Owner(n)
      ensures Owner(n) == old(Owner(n))
      ensures Owner(n).Contents() == SetPreset(old(Owner(n).Contents()), n, v, o)
      ensures r.Ok? <==> n !in old(Owner(n).Contents()).locked
      ensures Ordered(old(Nodes())) && Nodes() == Forward(old(Nodes()), rank, DoSetPreset(n, v, o))
      decreases rank
    {
      NodesAreOrdered();
      ghost var above, last := Above(), Last();
      if SendToParent(n) {
        parent.NodesAreOrdered();
        r := parent.SetPresetValue(n, v, o);
        PassedUp(above, DoSetPreset(n, v, o));
      } else {
        r := base.SetPresetValue(n, v, o);
        DoneHere(above, last, DoSetPreset(n, v, o));
      }
    }

    method LockPresetValue(n: string)
      requires Valid()
      modifies Owner(n)
      ensures Owner(n) == old(Owner(n))
      ensures Owner(n).Contents() == LockPreset(old(Owner(n).Contents()), n)
      ensures Ordered(old(Nodes())) && Nodes() == Forward(old(Nodes()), rank, DoLockPreset(n))
      decreases rank
    {
      NodesAreOrdered();
      ghost var above, last := Above(), Last();
      if SendToParent(n) {
        parent.NodesAreOrdered();
        parent.LockPresetValue(n);
        PassedUp(above, DoLockPreset(n));
      } else {
        base.LockPresetValue(n);
        DoneHere(above, last, DoLockPreset(n));
      }
    }

    method Add(n: string, p: nat)
      requires Valid() && n !in Owner(n).Contents().params
      modifies Owner(n)
      ensures Owner(n) == old(Owner(n))
      ensures Owner(n).Contents() == AddParam(old(Owner(n).Contents()), n, p)
      ensures Ordered(old(Nodes())) && Nodes() == Forward(old(Nodes()), rank, DoAddParam(n, p))
      decreases rank
    {
      NodesAreOrdered();
      ghost var above, last := Above(), Last();
      if SendToParent(n) {
        parent.NodesAreOrdered();
        parent.Add(n, p);
        PassedUp(above, DoAddParam(n, p));
      } else {
        base.Add(n, p);
        DoneHere(above, last, DoAddParam(n, p));
      }
    }

    method Remove(n: string)
      requires Valid()
      modifies Owner(n)
      ensures Owner(n) == old(Owner(n))
      ensures Owner(n).Contents() == RemoveParam(old(Owner(n).Contents()), n)
      ensures Ordered(old(Nodes())) && Nodes() == Forward(old(Nodes()), rank, DoRemoveParam(n))
      decreases rank
    {
      NodesAreOrdered();
      ghost var above, last := Above(), Last();
      if SendToParent(n) {
        parent.NodesAreOrdered();
        parent.Remove(n);
        PassedUp(above, DoRemoveParam(n));
      } else {
        base.Remove(n);
        DoneHere(above, last, DoRemoveParam(n));
      }
    }

    /** `has_preset_value` and `get_preset_cci_value` answer as the chain does. */
    method LookupPreset(n: string) returns (found: bool, v: Value)
      requires Valid() && Consistent(Owner(n).Contents())
      ensures Ordered(Nodes())
      ensures found == Ask(Nodes(), rank, n, HasPreset)
      ensures v == Ask(Nodes(), rank, n, GetPreset)
      decreases rank
    {
      if SendToParent(n) {
        found, v := parent.LookupPreset(n);
        NodesAreOrdered();
        parent.NodesAreOrdered();
        YoungerIsIgnored(parent.Nodes(), Last(), rank - 1, DoLockPreset(n), n, HasPreset);
        YoungerIsIgnored(parent.Nodes(), Last(), rank - 1, DoLockPreset(n), n, GetPreset);
      } else {
        found, v := base.LookupPreset(n);
        NodesAreOrdered();
        ApplyRefines(base.Contents(), DoLockPreset(n));
      }
    }

    /** `get_preset_value_origin` looks into this broker only. */
    method PresetOrigin(n: string) returns (o: Origin)
      requires Valid()
      ensures o == AskPresetOrigin(Nodes(), rank, n)
    {
      o := if n in base.origins then base.origins[n] else UNKNOWN_ORIGIN;
    }
  }

  // ---------------------------------------------------------- the manager

  /** The object hierarchy: the parent of each object, created before it. A place
      is an object, or none for outside the hierarchy. */
  type Tree = seq<Option<nat>>

  predicate IsTree(tree: Tree) {
    forall x :: 0 <= x < |tree| && tree[x].Some? ==> tree[x].value < x
  }

  /** The places from `place` up to the outside of the hierarchy. */
  function PlacesUp(tree: Tree, place: Option<nat>): seq<Option<nat>>
    requires IsTree(tree) && (place.Some? ==> place.value < |tree|)
    decreases if place.Some? then place.value + 1 else 0
  {
    if place.None? then [None] else [place] + PlacesUp(tree, tree[place.value])
  }

  lemma PlacesStep(tree: Tree, place: Option<nat>)
    requires IsTree(tree) && (place.Some? ==> place.value < |tree|)
    ensures |PlacesUp(tree, place)| > 0 && PlacesUp(tree, place)[0] == place
    ensures if place.None? then PlacesUp(tree, place) == [None]
            else PlacesUp(tree, place)[1..] == PlacesUp(tree, tree[place.value])
  {
  }

  /** Those places: the place itself, then each time the parent object of the one
      before, and the outside last. */
  lemma {:induction false} PlacesLeadOut(tree: Tree, place: Option<nat>, i: nat)
    requires IsTree(tree) && (place.Some? ==> place.value < |tree|) && i < |PlacesUp(tree, place)|
    ensures
      var places := PlacesUp(tree, place);
      && places[0] == place && places[|places| - 1] == None
      && (i + 1 < |places| ==> places[i].Some? && places[i].value < |tree| && places[i + 1] == tree[places[i].value])
    decreases if place.Some? then place.value + 1 else 0
  {
    if place.Some? {
      PlacesLeadOut(tree, tree[place.value], if i == 0 then 0 else i - 1);
    }
  }

  /** `b` is registered at some place of `places`, and at no nearer place is any. */
  ghost predicate IsNearest(brokers: map<Option<nat>, nat>, places: seq<Option<nat>>, b: nat) {
    exists i: nat :: NearestAt(brokers, places, b, i)
  }

  ghost predicate NearestAt(brokers: map<Option<nat>, nat>, places: seq<Option<nat>>, b: nat, i: nat) {
    && i < |places| && places[i] in brokers && brokers[places[i]] == b
    && (forall j :: 0 <= j < i ==> places[j] !in brokers)
  }

  ghost predicate NoneOf(brokers: map<Option<nat>, nat>, places: seq<Option<nat>>) {
    forall i :: 0 <= i < |places| ==> places[i] !in brokers
  }

  class Manager {
    const tree: Tree
    var brokers: map<Option<nat>, nat>

    constructor (hierarchy: Tree)
      ensures tree == hierarchy && brokers == map[]
    {
      tree, brokers := hierarchy, map[];
    }

    /** `get_broker`: the broker registered nearest above the place. It gives none
        exactly when no broker is registered up to the outside; the program is
        then aborted. */
    method GetBroker(place: Option<nat>) returns (r: Option<nat>)
      requires IsTree(tree) && (place.Some? ==> place.value < |tree|)
      ensures r.Some? ==> IsNearest(brokers, PlacesUp(tree, place), r.value)
      ensures r.None? ==> NoneOf(brokers, PlacesUp(tree, place))
    {
      hide PlacesUp;
      var org: Option<nat> := place;
      ghost var i := 0;
      ghost var places := PlacesUp(tree, place);
      PlacesStep(tree, place);
      while true
        invariant org.Some? ==> org.value < |tree|
        invariant i < |places| && places[i..] == PlacesUp(tree, org)
        invariant forall j :: 0 <= j < i ==> places[j] !in brokers
        decreases if org.Some? then org.value + 1 else 0
      {
        PlacesStep(tree, org);
        assert places[i] == places[i..][0] == org;
        if org in brokers {
          assert NearestAt(brokers, places, brokers[org], i);
          return Some(brokers[org]);
        }
        if org.None? {
          assert places[i..] == [None];
          assert |places| == i + 1;
          return None;
        }
        assert places[i + 1..] == places[i..][1..];
        org := tree[org.value];
        PlacesStep(tree, org);
        i := i + 1;
      }
    }

    /** `register_broker`: the first broker of a place stays its broker. */
    method RegisterBroker(place: Option<nat>, b: nat) returns (winner: nat)
      modifies this
      ensures brokers == if place in old(brokers) then old(brokers) else old(brokers)[place := b]
      ensures place in brokers && winner == brokers[place]
    {
      if place !in brokers {
        brokers := brokers[place := b];
      }
      winner := brokers[place];
    }
  }

  // ---------------------------------------- how chains come into existence

  /** The brokers created so far, and the registry. */
  datatype World = World(nodes: seq<Node>, brokers: map<Option<nat>, nat>)

  /** `Create` constructs a broker at a place; its parent is what the manager finds
      from there, and a broker outside the hierarchy is global. Without any broker
      above, the search aborts. */
  datatype Event =
    | Create(place: Option<nat>)
    | Register(place: Option<nat>, broker: nat)

  ghost function Found(brokers: map<Option<nat>, nat>, places: seq<Option<nat>>): Option<nat> {
    if |places| == 0 then None
    else if places[0] in brokers then Some(brokers[places[0]])
    else Found(brokers, places[1..])
  }

  ghost function Happen(tree: Tree, w: World, e: Event): World
    requires IsTree(tree)
  {
    match e
    case Create(place) =>
      if place.None? then w.(nodes := w.nodes + [Node(NEW_STATE, {}, None)])
      else if place.value >= |tree| then w
      else
        var up := Found(w.brokers, PlacesUp(tree, place));
        if up.None? then w else w.(nodes := w.nodes + [Node(NEW_STATE, {}, up)])
    case Register(place, b) =>
      if b >= |w.nodes| || place in w.brokers then w else w.(brokers := w.brokers[place := b])
  }

  ghost function HappenAll(tree: Tree, w: World, events: seq<Event>): World
    requires IsTree(tree)
    decreases |events|
  {
    if |events| == 0 then w else HappenAll(tree, Happen(tree, w, events[0]), events[1..])
  }

  ghost predicate Grown(w: World) {
    && Sane(w.nodes)
    && (forall place :: place in w.brokers ==> w.brokers[place] < |w.nodes|)
  }

  lemma {:induction false} FoundIsRegistered(brokers: map<Option<nat>, nat>, places: seq<Option<nat>>)
    ensures Found(brokers, places).Some? ==> IsNearest(brokers, places, Found(brokers, places).value)
    ensures Found(brokers, places).None? ==> NoneOf(brokers, places)
    decreases |places|
  {
    if |places| > 0 {
      FoundIsRegistered(brokers, places[1..]);
      if places[0] in brokers {
        assert NearestAt(brokers, places, brokers[places[0]], 0);
      } else if Found(brokers, places).Some? {
        var b := Found(brokers, places).value;
        var i: nat :| NearestAt(brokers, places[1..], b, i);
        assert NearestAt(brokers, places, b, i + 1) by {
          forall j | 0 <= j < i + 1 ensures places[j] !in brokers {
            if j > 0 { assert places[1..][j - 1] !in brokers; }
          }
        }
      }
    }
  }

  /** A new broker exposes nothing, holds nothing, and has as parent the broker that
      is registered nearest above its place; outside the hierarchy it has none. */
  lemma CreateFindsParent(tree: Tree, w: World, place: Option<nat>)
    requires IsTree(tree) && (place.Some? ==> place.value < |tree|)
    ensures
      var w' := Happen(tree, w, Create(place));
      var places := PlacesUp(tree, place);
      && w'.brokers == w.brokers
      && if place.Some? && NoneOf(w.brokers, places) then w'.nodes == w.nodes
         else
           && |w'.nodes| == |w.nodes| + 1 && w'.nodes[..|w.nodes|] == w.nodes
           && w'.nodes[|w.nodes|].state == State(map[], map[], map[], map[], {})
           && w'.nodes[|w.nodes|].expose == {}
           && var up := w'.nodes[|w.nodes|].parent;
              if place.None? then up.None? else up.Some? && IsNearest(w.brokers, places, up.value)
  {
    var places := PlacesUp(tree, place);
    FoundIsRegistered(w.brokers, places);
    if Found(w.brokers, places).Some? {
      var i: nat :| NearestAt(w.brokers, places, Found(w.brokers, places).value, i);
      assert places[i] in w.brokers;
    }
  }

  /** Registering a broker makes it the one of its place, unless there is one. */
  lemma FirstRegisteredStays(tree: Tree, w: World, place: Option<nat>, b: nat)
    requires IsTree(tree) && b < |w.nodes|
    ensures
      var w' := Happen(tree, w, Register(place, b));
      && w'.nodes == w.nodes && place in w'.brokers
      && w'.brokers == w.brokers[place := if place in w.brokers then w.brokers[place] else b]
  {
  }

  lemma HappenKeepsGrown(tree: Tree, w: World, e: Event)
    requires IsTree(tree) && Grown(w)
    ensures Grown(Happen(tree, w, e))
    ensures forall place :: place in w.brokers ==>
              place in Happen(tree, w, e).brokers && Happen(tree, w, e).brokers[place] == w.brokers[place]
  {
    var w' := Happen(tree, w, e);
    if e.Create? && e.place.Some? && e.place.value < |tree| {
      var places := PlacesUp(tree, e.place);
      FoundIsRegistered(w.brokers, places);
      if Found(w.brokers, places).Some? {
        var b := Found(w.brokers, places).value;
        var i: nat :| NearestAt(w.brokers, places, b, i);
      }
    }
    forall b | 0 <= b < |w'.nodes| ensures ParentBefore(w'.nodes, b) {
      if b < |w.nodes| { assert ParentBefore(w.nodes, b); }
    }
    forall b, n | 0 <= b < |w'.nodes| && SendsUp(w'.nodes, b, n) ensures NothingHeld(w'.nodes[b].state, n) {
      assert b < |w.nodes| && SendsUp(w.nodes, b, n);
    }
  }

  /** However brokers are created and registered, every chain leads to older
      brokers only, and a registered broker keeps its place. */
  lemma {:induction false} ChainsAreWellFounded(tree: Tree, w: World, events: seq<Event>)
    requires IsTree(tree) && Grown(w)
    ensures Grown(HappenAll(tree, w, events))
    ensures forall place :: place in w.brokers ==>
              place in HappenAll(tree, w, events).brokers
              && HappenAll(tree, w, events).brokers[place] == w.brokers[place]
    decreases |events|
  {
    if |events| > 0 {
      HappenKeepsGrown(tree, w, events[0]);
      ChainsAreWellFounded(tree, Happen(tree, w, events[0]), events[1..]);
    }
  }
}
