/** The synchronisers of examples 11 and 12: a hub parameter and spokes, where a
    write to any of them is passed on through the hub to all the others. */
module ParamStars {
  import opened Values
  import opened ParamMachine
  import opened ParamRule
  import opened ParamLaws
  import opened ParamOutcomes
  import opened ParamRuns
  import opened ParamSync

  /** A spoke, with the conversions from the hub to it and back. */
  datatype Spoke = Spoke(member: nat, out: Value -> Value, back: Value -> Value)

  datatype Star = Star(hub: nat, spokes: seq<Spoke>, origin: Origin)

  /** The callback that `sc_bind` makes from `untyped_post_write_callback`. */
  function Relay(owner: Origin, target: nat, convert: Value -> Value): Callback {
    Callback(target, owner, _ => 1,
             (ev: Event, _) => Set(target, convert(ev.becomes), None, owner, false), (_, _) => true)
  }

  /** `synchValues`: bring the spoke to the hub's value, then connect both ways. */
  function Synch(w: World, hub: nat, s: Spoke, origin: Origin): (r: Result)
    requires hub < |w.params| && s.member < |w.params|
    ensures |r.w.params| == |w.params|
  {
    var got := Exec(w, Act(Get(hub, origin, false)));
    if !got.response.Val? then got
    else
      var put := Exec(got.w, Act(Set(s.member, s.out(got.response.value), None, origin, false)));
      if put.response.Raised? then put
      else
        var w1 := RegisterCallback(put.w, hub, PostWrite, Relay(origin, s.member, s.out));
        Result(RegisterCallback(w1, s.member, PostWrite, Relay(origin, hub, s.back)), Ok)
  }

  predicate Fits(star: Star, n: nat) {
    star.hub < n && forall i :: 0 <= i < |star.spokes| ==> star.spokes[i].member < n
  }

  /** The loop of the constructor, after `k` spokes. */
  function SynchAll(w: World, star: Star, k: nat): (r: Result)
    requires Fits(star, |w.params|) && k <= |star.spokes|
    ensures |r.w.params| == |w.params|
  {
    if k == 0 then Result(w, Ok)
    else
      var r := SynchAll(w, star, k - 1);
      if r.response.Ok? then Synch(r.w, star.hub, star.spokes[k - 1], star.origin) else r
  }

  /** One turn of the constructor for two parameters without callbacks: the spoke
      is written in the synchroniser's name, and each gets one callback. */
  lemma BareSynch(w: World, hub: nat, s: Spoke, origin: Origin)
    requires Healthy(w) && w.on == {} && hub < |w.params| && s.member < |w.params| && hub != s.member
    requires PlainReads(w.setup.decls[hub]) && PlainWrite(w.setup.decls[s.member])
    requires w.setup.decls[s.member].isMutable && w.params[s.member].lockPwd.None?
    ensures
      var r := Synch(w, hub, s, origin);
      var here, there := w.setup.decls[hub].callbacks, w.setup.decls[s.member].callbacks;
      && r.response == Ok
      && r.w.params[hub].value == w.params[hub].value && r.w.params[hub].valueOrigin == w.params[hub].valueOrigin
      && r.w.params[s.member].value == s.out(w.params[hub].value) && r.w.params[s.member].valueOrigin == origin
      && r.w.setup.decls[hub].callbacks == here.(postWrite := here.postWrite + [Relay(origin, s.member, s.out)])
      && r.w.setup.decls[s.member].callbacks == there.(postWrite := there.postWrite + [Relay(origin, hub, s.back)])
  {
    hide Exec, Healthy;
    OpenRead(w, hub, origin);
    var w1 := RefreshFastRead(w, hub);
    StandingFlags();
    assert Standing().inv(w) && Standing().inv(w1);
    SetOutcome(w1, s.member, s.out(w.params[hub].value), None, origin, false);
  }

  /** Such a callback writes in the name of the synchroniser what the conversion
      makes of the new value. */
  lemma RelayWritesAsOwner(w: World, p: nat, target: nat, owner: Origin, convert: Value -> Value,
                           v: Value, origin: Origin, caught: bool)
    requires Healthy(w) && w.on == {} && p < |w.params| && target < |w.params| && p != target
    requires w.setup.decls[p].isMutable && w.params[p].lockPwd.None?
    requires |w.setup.decls[p].callbacks.preWrite| == 0
    requires w.setup.decls[p].callbacks.postWrite == [Relay(owner, target, convert)]
    requires w.setup.decls[target].isMutable && w.params[target].lockPwd.None? && PlainWrite(w.setup.decls[target])
    ensures
      var r := Exec(w, Act(Set(p, v, None, origin, caught)));
      && r.response == Ok && |r.w.params| == |w.params|
      && r.w.params[p].value == v && r.w.params[p].valueOrigin == origin
      && r.w.params[target].value == convert(v) && r.w.params[target].valueOrigin == owner
  {
    hide Exec, Healthy;
    var was, slot := w.params[p].value, Slot(p, PostWrite);
    CommitIsHealthy(w, p, v, origin);
    var w1 := Commit(w, p, v, origin);
    DispatchBody(w1, p, PostWrite, was, v, origin);
    var w2 := Mark(w1, slot);
    MarkIsHealthy(w1, slot);
    var ev, cb := Event(was, v, origin), w.setup.decls[p].callbacks.postWrite[0];
    NoteIsHealthy(w2, Fired(slot, 0, ev));
    var w3 := Note(w2, Fired(slot, 0, ev));
    RunBody(w3, cb, ev, []);
    SetOutcome(w3, target, convert(v), None, owner, false);
    var written := Exec(w3, Act(Set(target, convert(v), None, owner, false)));
    RunBody(written.w, cb, ev, [] + [written.response]);
    PostTurnUnfolds(w2, p, 0, true, was, v, origin);
    FromEnds(Note(written.w, Voted(slot, 0, true)), p, PostWrite, 1, true, was, v, origin);
    OpenWrite(w, p, v, origin);
    ActBody(w, Set(p, v, None, origin, caught));
  }

  // ------------------------------------------------------ growing networks

  /** What the parameters of a network should have, for each of the states `G`
      that the network can be in. */
  type Goals<!G> = G -> nat -> Value

  /** A quiet network, whatever its state: post-write callbacks of its members lead
      to members only, and pass on what the state requires. */
  ghost predicate Nets<G(!new)>(w: World, links: Links, goals: Goals<G>, net: set<nat>) {
    && w.on == {} && |links| == |w.params|
    && Closed(links, net) && (forall q :: q in net ==> q < |links|)
    && forall x: G :: Net(w, links, goals(x), net)
  }

  predicate PlainReads(d: Decl) {
    |d.callbacks.preRead| == 0 && |d.callbacks.postRead| == 0
  }

  /** A read without read callbacks. */
  lemma OpenRead(w: World, p: nat, origin: Origin)
    requires p < |w.params| && w.on == {} && PlainReads(w.setup.decls[p])
    ensures Exec(w, Act(Get(p, origin, false))) == Result(RefreshFastRead(w, p), Val(w.params[p].value))
  {
    hide Exec;
    var v := w.params[p].value;
    EmptyDispatch(w, p, PreRead, v, v, origin);
    EmptyDispatch(w, p, PostRead, v, v, origin);
    FetchBody(w, p, origin);
    ActBody(w, Get(p, origin, false));
  }

  /** From `w` to `w'` the parameters that `p` reaches came to their goals, and the
      others kept value and origin. */
  ghost predicate Reached(w: World, w': World, links: Links, goal: nat -> Value, p: nat) {
    && |w'.params| == |w.params|
    && forall q :: 0 <= q < |w.params| ==>
         if Reaches(links, p, q) then w'.params[q].value == goal(q) else SameValue(w.params[q], w'.params[q])
  }

  /** A write to a member brings what it reaches to the new state, and the network
      is quiet again. */
  lemma WriteReaches<G(!new)>(w: World, p: nat, origin: Origin, links: Links, goals: Goals<G>, net: set<nat>, x: G)
    requires Nets(w, links, goals, net) && p in net
    ensures
      var r := Exec(w, Act(Set(p, goals(x)(p), None, origin, false)));
      && r.response == Ok && r.w.setup == w.setup
      && Nets(r.w, links, goals, net) && Reached(w, r.w, links, goals(x), p)
  {
    hide Exec;
    assert Net(w, links, goals(x), net);
    CascadeConverges(w, p, origin, false, links, goals(x), net);
    var r := Exec(w, Act(Set(p, goals(x)(p), None, origin, false)));
    forall y: G ensures Net(r.w, links, goals(y), net) {
      assert Net(w, links, goals(y), net);
    }
  }

  /** One more callback of a member that passes on what every state requires. */
  lemma RegisterGrows<G(!new)>(w: World, links: Links, goals: Goals<G>, net: set<nat>, q: nat, r: nat, cb: Callback)
    requires Nets(w, links, goals, net) && q in net && r in net
    requires forall x: G :: Forwards(cb, goals(x), q, r)
    ensures Nets(RegisterCallback(w, q, PostWrite, cb), links[q := links[q] + [r]], goals, net)
  {
    forall x: G ensures Net(RegisterCallback(w, q, PostWrite, cb), links[q := links[q] + [r]], goals(x), net) {
      NetGrows(w, links, goals(x), net, q, r, cb);
    }
  }

  lemma NetGrows(w: World, links: Links, goal: nat -> Value, net: set<nat>, q: nat, r: nat, cb: Callback)
    requires Net(w, links, goal, net) && q in net && r in net && Forwards(cb, goal, q, r)
    ensures q < |links| && Net(RegisterCallback(w, q, PostWrite, cb), links[q := links[q] + [r]], goal, net)
  {
  }

  // -------------------------------------------------- growing a star

  /** Do the conversions of this spoke pass on what every state requires? */
  ghost predicate Fitting<G(!new)>(hub: nat, s: Spoke, goals: Goals<G>) {
    forall x: G :: s.out(goals(x)(hub)) == goals(x)(s.member) && s.back(goals(x)(s.member)) == goals(x)(hub)
  }

  lemma RelayForwards<G(!new)>(owner: Origin, q: nat, r: nat, convert: Value -> Value, goals: Goals<G>)
    requires forall x: G :: convert(goals(x)(q)) == goals(x)(r)
    ensures forall x: G :: Forwards(Relay(owner, r, convert), goals(x), q, r)
  {
  }

  function Joined(links: Links, hub: nat, member: nat): Links
    requires hub < |links| && member < |links|
  {
    var there := links[hub := links[hub] + [member]];
    there[member := there[member] + [hub]]
  }

  /** One turn of the constructor, in any network and for any member of it, the hub
      itself or one that is connected already. */
  lemma SynchJoins<G(!new)>(w: World, hub: nat, s: Spoke, origin: Origin,
                            links: Links, goals: Goals<G>, net: set<nat>, x: G)
    requires Nets(w, links, goals, net) && hub in net && s.member in net
    requires PlainReads(w.setup.decls[hub]) && Fitting(hub, s, goals)
    requires s.out(w.params[hub].value) == goals(x)(s.member)
    ensures
      var r := Synch(w, hub, s, origin);
      && r.response == Ok && Reached(w, r.w, links, goals(x), s.member)
      && Nets(r.w, Joined(links, hub, s.member), goals, net) && PlainReads(r.w.setup.decls[hub])
  {
    hide Exec, Net;
    OpenRead(w, hub, origin);
    var w1 := RefreshFastRead(w, hub);
    FlagIsNoLink(w, hub, links, goals, net);
    WriteReaches(w1, s.member, origin, links, goals, net, x);
    var w2 := Exec(w1, Act(Set(s.member, goals(x)(s.member), None, origin, false))).w;
    RelayForwards(origin, hub, s.member, s.out, goals);
    RelayForwards(origin, s.member, hub, s.back, goals);
    RegisterGrows(w2, links, goals, net, hub, s.member, Relay(origin, s.member, s.out));
    var w3 := RegisterCallback(w2, hub, PostWrite, Relay(origin, s.member, s.out));
    RegisterGrows(w3, links[hub := links[hub] + [s.member]], goals, net, s.member, hub, Relay(origin, hub, s.back));
  }

  lemma FlagIsNoLink<G(!new)>(w: World, p: nat, links: Links, goals: Goals<G>, net: set<nat>)
    requires Nets(w, links, goals, net) && p < |w.params|
    ensures Nets(RefreshFastRead(w, p), links, goals, net)
  {
  }

  /** The links after `k` turns of the constructor. */
  ghost function StarLinks(links: Links, star: Star, k: nat): (all: Links)
    requires Fits(star, |links|) && k <= |star.spokes|
    ensures |all| == |links|
  {
    if k == 0 then links else Joined(StarLinks(links, star, k - 1), star.hub, star.spokes[k - 1].member)
  }

  ghost function Members(star: Star): set<nat> {
    {star.hub} + set i | 0 <= i < |star.spokes| :: star.spokes[i].member
  }

  /** The states fit all spokes, and the hub's first value leads to state `x`. */
  ghost predicate Suits<G(!new)>(star: Star, goals: Goals<G>, first: Value, x: G) {
    forall i :: 0 <= i < |star.spokes| ==>
      Fitting(star.hub, star.spokes[i], goals) && star.spokes[i].out(first) == goals(x)(star.spokes[i].member)
  }

  /** After `k` turns: the hub has its first value still or that of state `x`, the
      spokes so far have that of state `x`, and whatever else changed has it too. */
  ghost predicate Brought(w: World, w': World, star: Star, k: nat, goal: nat -> Value, net: set<nat>)
    requires Fits(star, |w.params|) && k <= |star.spokes|
  {
    && |w'.params| == |w.params|
    && (forall i :: 0 <= i < k ==> w'.params[star.spokes[i].member].value == goal(star.spokes[i].member))
    && (forall q :: 0 <= q < |w.params| ==>
          w'.params[q].value == w.params[q].value || w'.params[q].value == goal(q))
    && (forall q :: 0 <= q < |w.params| && q !in net ==> SameValue(w.params[q], w'.params[q]))
  }

  /** The constructor connects the hub with every spoke, in any network of callbacks
      that suits, even if a parameter is listed twice: each turn may set off the
      callbacks of the turns before, and all end in the state of the hub. */
  lemma {:induction false} SynchAllJoins<G(!new)>(w: World, star: Star, k: nat,
                                                 links: Links, goals: Goals<G>, net: set<nat>, x: G)
    requires Nets(w, links, goals, net) && Members(star) <= net && k <= |star.spokes|
    requires PlainReads(w.setup.decls[star.hub]) && Suits(star, goals, w.params[star.hub].value, x)
    ensures Fits(star, |w.params|)
    ensures
      var r := SynchAll(w, star, k);
      && r.response == Ok && Nets(r.w, StarLinks(links, star, k), goals, net)
      && PlainReads(r.w.setup.decls[star.hub])
      && Brought(w, r.w, star, k, goals(x), net)
  {
    hide Exec, Net, Brought, Reached, Joined;
    MembersFit(star, net, |w.params|);
    if k > 0 {
      SynchAllJoins(w, star, k - 1, links, goals, net, x);
      var w1 := SynchAll(w, star, k - 1).w;
      var s := star.spokes[k - 1];
      var here := StarLinks(links, star, k - 1);
      assert Fitting(star.hub, s, goals);
      HubLeadsOn(w, w1, star, k - 1, goals, net, x);
      SynchJoins(w1, star.hub, s, star.origin, here, goals, net, x);
      BroughtOn(w, w1, Synch(w1, star.hub, s, star.origin).w, star, k - 1, here, goals(x), net);
    } else {
      NothingBrought(w, star, goals(x), net);
    }
  }

  lemma MembersFit(star: Star, net: set<nat>, n: nat)
    requires Members(star) <= net && forall q :: q in net ==> q < n
    ensures Fits(star, n) && star.hub in net
    ensures forall i :: 0 <= i < |star.spokes| ==> star.spokes[i].member in net
  {
    assert star.hub in Members(star);
    forall i | 0 <= i < |star.spokes| ensures star.spokes[i].member in net {
      assert star.spokes[i].member in Members(star);
    }
  }

  lemma HubLeadsOn<G(!new)>(w: World, w': World, star: Star, k: nat, goals: Goals<G>, net: set<nat>, x: G)
    requires Fits(star, |w.params|) && k < |star.spokes| && Brought(w, w', star, k, goals(x), net)
    requires Suits(star, goals, w.params[star.hub].value, x)
    ensures star.spokes[k].out(w'.params[star.hub].value) == goals(x)(star.spokes[k].member)
  {
  }

  lemma NothingBrought(w: World, star: Star, goal: nat -> Value, net: set<nat>)
    requires Fits(star, |w.params|)
    ensures Brought(w, w, star, 0, goal, net)
  {
  }

  lemma BroughtOn(w: World, w1: World, w2: World, star: Star, k: nat, links: Links, goal: nat -> Value, net: set<nat>)
    requires Fits(star, |w.params|) && k < |star.spokes| && Brought(w, w1, star, k, goal, net)
    requires |links| == |w.params| && Closed(links, net) && star.spokes[k].member in net
    requires Reached(w1, w2, links, goal, star.spokes[k].member)
    ensures Brought(w, w2, star, k + 1, goal, net)
  {
    var m := star.spokes[k].member;
    assert Reaches(links, m, m) by { assert IsPath(links, [m]); }
    forall q | 0 <= q < |w.params| && q !in net ensures SameValue(w.params[q], w2.params[q]) {
      NetIsClosed(links, net, m, q);
    }
  }

  lemma NetIsClosed(links: Links, net: set<nat>, p: nat, q: nat)
    requires Closed(links, net) && p in net && q !in net
    ensures !Reaches(links, p, q)
  {
    if Reaches(links, p, q) {
      var path :| IsPath(links, path) && path[0] == p && path[|path| - 1] == q;
      PathStaysInside(links, path, net);
    }
  }

  // --------------------------------------------------------- convergence

  /** The hub is linked with every spoke, both ways. */
  ghost predicate HasStar(links: Links, star: Star) {
    && star.hub < |links|
    && forall i :: 0 <= i < |star.spokes| ==>
         var m := star.spokes[i].member;
         m < |links| && m in links[star.hub] && star.hub in links[m]
  }

  lemma {:induction false} StarIsLinked(links: Links, star: Star, k: nat)
    requires Fits(star, |links|) && k <= |star.spokes|
    ensures
      var all := StarLinks(links, star, k);
      && (forall q, m :: 0 <= q < |links| && m in links[q] ==> m in all[q])
      && forall i :: 0 <= i < k ==> star.spokes[i].member in all[star.hub] && star.hub in all[star.spokes[i].member]
  {
    if k > 0 {
      StarIsLinked(links, star, k - 1);
      JoinedLinks(StarLinks(links, star, k - 1), star.hub, star.spokes[k - 1].member);
    }
  }

  lemma JoinedLinks(links: Links, hub: nat, member: nat)
    requires hub < |links| && member < |links|
    ensures
      var all := Joined(links, hub, member);
      && (forall q, m :: 0 <= q < |links| && m in links[q] ==> m in all[q])
      && member in all[hub] && hub in all[member]
  {
  }

  lemma StarReaches(links: Links, star: Star, p: nat, q: nat)
    requires HasStar(links, star) && p in Members(star) && q in Members(star)
    ensures Reaches(links, p, q)
  {
    var hub := star.hub;
    assert p == hub || hub in links[p];
    assert q == hub || q in links[hub];
    if p == q {
      assert IsPath(links, [p]);
    } else if p == hub || q == hub {
      assert IsPath(links, [p, q]) && [p, q][1] == q;
    } else {
      assert IsPath(links, [p, hub, q]) && [p, hub, q][2] == q;
    }
  }

  /** Writing its value of a state to any member of a star, hub or spoke, brings all
      members to that state, and changes nothing outside the network. */
  lemma StarConverges<G(!new)>(w: World, star: Star, links: Links, goals: Goals<G>, net: set<nat>, x: G,
                               p: nat, origin: Origin)
    requires Nets(w, links, goals, net) && HasStar(links, star) && Members(star) <= net && p in Members(star)
    ensures
      var r := Exec(w, Act(Set(p, goals(x)(p), None, origin, false)));
      && r.response == Ok && |r.w.params| == |w.params| && Nets(r.w, links, goals, net)
      && (forall q :: 0 <= q < |w.params| && q in Members(star) ==> r.w.params[q].value == goals(x)(q))
      && (forall q :: 0 <= q < |w.params| && q !in net ==> SameValue(w.params[q], r.w.params[q]))
  {
    hide Exec, Net;
    WriteReaches(w, p, origin, links, goals, net, x);
    forall q | 0 <= q < |w.params| && q in Members(star) ensures Reaches(links, p, q) {
      StarReaches(links, star, p, q);
    }
    forall q | 0 <= q < |w.params| && q !in net ensures !Reaches(links, p, q) {
      NetIsClosed(links, net, p, q);
    }
  }

  /** Parameters without callbacks are a network of no links: where a program can
      start. */
  lemma BareIsNet<G(!new)>(w: World, goals: Goals<G>, net: set<nat>)
    requires w.on == {} && forall q :: q in net ==> q < |w.params|
    requires forall q :: q in net ==>
               && w.setup.decls[q].isMutable && w.params[q].lockPwd == None
               && |w.setup.decls[q].callbacks.preWrite| == 0 && |w.setup.decls[q].callbacks.postWrite| == 0
    ensures Nets(w, seq<seq<nat>>(|w.params|, _ => []), goals, net)
  {
  }

  // ------------------------------------------------------------ example 11

  /** The star of example 11 copies values. */
  ghost predicate Copies(star: Star) {
    forall i, v: Value :: 0 <= i < |star.spokes| ==> star.spokes[i].out(v) == v && star.spokes[i].back(v) == v
  }

  /** Everybody has the value. */
  function Equal(): Goals<Value> {
    (v: Value) => (q: nat) => v
  }

  datatype Write = Write(member: nat, value: Value, origin: Origin)

  function WriteAll(w: World, writes: seq<Write>): World
    decreases |writes|
  {
    if |writes| == 0 then w
    else
      var x := writes[0];
      WriteAll(Exec(w, Act(Set(x.member, x.value, None, x.origin, false))).w, writes[1..])
  }

  ghost predicate AllHave(w: World, star: Star, v: Value) {
    forall q :: q in Members(star) && q < |w.params| ==> w.params[q].value == v
  }

  /** After the constructor of example 11 all members have the hub's value, whatever
      copying callbacks they had before, and even if some are listed twice. */
  lemma CopiesStartEqual(w: World, star: Star, links: Links, net: set<nat>)
    requires Nets(w, links, Equal(), net) && Members(star) <= net && Copies(star)
    requires star.hub < |w.params| && PlainReads(w.setup.decls[star.hub])
    ensures Fits(star, |w.params|)
    ensures
      var r := SynchAll(w, star, |star.spokes|);
      var all := StarLinks(links, star, |star.spokes|);
      && r.response == Ok && Nets(r.w, all, Equal(), net) && HasStar(all, star)
      && AllHave(r.w, star, w.params[star.hub].value)
  {
    hide Exec, Net;
    var v := w.params[star.hub].value;
    SynchAllJoins(w, star, |star.spokes|, links, Equal(), net, v);
    StarIsLinked(links, star, |star.spokes|);
  }

  /** Over every sequence of writes to its members, all parameters of the star of
      example 11 are equal: they have the value that was written last. */
  lemma {:induction false} CopiesStayEqual(
    w: World, star: Star, links: Links, net: set<nat>, writes: seq<Write>, v: Value)
    requires Nets(w, links, Equal(), net) && HasStar(links, star) && Members(star) <= net && AllHave(w, star, v)
    requires forall i :: 0 <= i < |writes| ==> writes[i].member in Members(star)
    ensures Nets(WriteAll(w, writes), links, Equal(), net)
    ensures AllHave(WriteAll(w, writes), star, if |writes| == 0 then v else writes[|writes| - 1].value)
    decreases |writes|
  {
    hide Exec, Net;
    if |writes| > 0 {
      var x := writes[0];
      StarConverges(w, star, links, Equal(), net, x.value, x.member, x.origin);
      var w' := Exec(w, Act(Set(x.member, x.value, None, x.origin, false))).w;
      CopiesStayEqual(w', star, links, net, writes[1..], x.value);
    }
  }

  // ------------------------------------------------------------ example 12

  /** `get_number`, `writtendouble` around a multiplication; anything but a number
      would stop the program. */
  function Scale(c: real): Value -> Value {
    (v: Value) => if v.Real? then Real(v.r * c) else if v.Int? then Real(v.i as real * c) else v
  }

  /** The star of example 12, when each parameter has a factor by its unit: one for
      the hub, none zero. */
  ghost predicate Scales(star: Star, factor: nat -> real) {
    && factor(star.hub) == 1.0
    && (forall i, v: Value :: 0 <= i < |star.spokes| ==>
          var f := factor(star.spokes[i].member);
          && f != 0.0
          && star.spokes[i].out(v) == Scale(f)(v)
          && star.spokes[i].back(v) == Scale(1.0 / f)(v))
  }

  /** Everybody has its multiple of the number. */
  function Multiples(factor: nat -> real): Goals<real> {
    (x: real) => (q: nat) => Real(x * factor(q))
  }

  lemma DivideBack(x: real, f: real)
    requires f != 0.0
    ensures (x * f) * (1.0 / f) == x
    ensures (x * (1.0 / f)) * f == x
  {
  }

  /** The value is this number, in either kind. */
  predicate IsNumber(v: Value, x: real) {
    v == Real(x) || (v.Int? && v.i as real == x)
  }

  lemma MultiplesSuit(star: Star, factor: nat -> real, first: Value, x: real)
    requires Scales(star, factor) && IsNumber(first, x)
    ensures Suits(star, Multiples(factor), first, x)
  {
    forall i | 0 <= i < |star.spokes|
      ensures Fitting(star.hub, star.spokes[i], Multiples(factor))
      ensures star.spokes[i].out(first) == Multiples(factor)(x)(star.spokes[i].member)
    {
      var s := star.spokes[i];
      assert s.out(first) == Scale(factor(s.member))(first);
      forall y: real
        ensures s.out(Multiples(factor)(y)(star.hub)) == Multiples(factor)(y)(s.member)
        ensures s.back(Multiples(factor)(y)(s.member)) == Multiples(factor)(y)(star.hub)
      {
        ConvertsBack(star, factor, i, y);
      }
    }
  }

  lemma ConvertsBack(star: Star, factor: nat -> real, i: nat, y: real)
    requires Scales(star, factor) && i < |star.spokes|
    ensures
      var s := star.spokes[i];
      && s.out(Multiples(factor)(y)(star.hub)) == Multiples(factor)(y)(s.member)
      && s.back(Multiples(factor)(y)(s.member)) == Multiples(factor)(y)(star.hub)
  {
  }

  /** Each spoke is its multiple of the number that the hub has. */
  ghost predicate Scaled(w: World, star: Star, factor: nat -> real, x: real) {
    && star.hub < |w.params| && IsNumber(w.params[star.hub].value, x)
    && forall i :: 0 <= i < |star.spokes| && star.spokes[i].member < |w.params| ==>
         IsNumber(w.params[star.spokes[i].member].value, x * factor(star.spokes[i].member))
  }

  /** After the constructor of example 12 the star is scaled. */
  lemma ScalesStartScaled(w: World, star: Star, links: Links, factor: nat -> real, net: set<nat>, x: real)
    requires Nets(w, links, Multiples(factor), net) && Members(star) <= net && Scales(star, factor)
    requires star.hub < |w.params| && PlainReads(w.setup.decls[star.hub]) && IsNumber(w.params[star.hub].value, x)
    ensures Fits(star, |w.params|)
    ensures
      var r := SynchAll(w, star, |star.spokes|);
      var all := StarLinks(links, star, |star.spokes|);
      && r.response == Ok && Nets(r.w, all, Multiples(factor), net) && HasStar(all, star)
      && Scaled(r.w, star, factor, x)
  {
    hide Exec, Net, Brought, Suits, Scales, Scaled, StarLinks;
    MultiplesSuit(star, factor, w.params[star.hub].value, x);
    SynchAllJoins(w, star, |star.spokes|, links, Multiples(factor), net, x);
    StarIsLinked(links, star, |star.spokes|);
    BroughtIsScaled(w, SynchAll(w, star, |star.spokes|).w, star, factor, net, x);
  }

  lemma BroughtIsScaled(w: World, w': World, star: Star, factor: nat -> real, net: set<nat>, x: real)
    requires Fits(star, |w.params|) && Scales(star, factor) && IsNumber(w.params[star.hub].value, x)
    requires Brought(w, w', star, |star.spokes|, Multiples(factor)(x), net)
    ensures Scaled(w', star, factor, x)
  {
  }

  lemma GoalsAreScaled(w: World, star: Star, factor: nat -> real, x: real)
    requires Fits(star, |w.params|) && Scales(star, factor)
    requires forall q :: 0 <= q < |w.params| && q in Members(star) ==> w.params[q].value == Multiples(factor)(x)(q)
    ensures Scaled(w, star, factor, x)
  {
  }

  /** A write of `y` to any member brings the hub to `y` divided by that member's
      factor and every spoke to its multiple of that; the written member keeps `y`,
      although the cascade may write it again. */
  lemma WriteScalesAll(w: World, star: Star, links: Links, factor: nat -> real, net: set<nat>,
                       p: nat, y: real, origin: Origin)
    requires Nets(w, links, Multiples(factor), net) && HasStar(links, star) && Members(star) <= net
    requires Scales(star, factor) && p in Members(star)
    ensures factor(p) != 0.0
    ensures
      var r := Exec(w, Act(Set(p, Real(y), None, origin, false)));
      && r.response == Ok && |r.w.params| == |w.params| && Nets(r.w, links, Multiples(factor), net)
      && Scaled(r.w, star, factor, y * (1.0 / factor(p)))
      && p < |w.params| && r.w.params[p].value == Real(y)
  {
    hide Exec, Net, Scales, Scaled;
    FactorIsNotZero(star, factor, p);
    var x := y * (1.0 / factor(p));
    DivideBack(y, factor(p));
    assert Multiples(factor)(x)(p) == Real(y);
    StarConverges(w, star, links, Multiples(factor), net, x, p, origin);
    MembersFit(star, net, |w.params|);
    GoalsAreScaled(Exec(w, Act(Set(p, Real(y), None, origin, false))).w, star, factor, x);
  }

  lemma FactorIsNotZero(star: Star, factor: nat -> real, p: nat)
    requires Scales(star, factor) && p in Members(star)
    ensures factor(p) != 0.0
  {
    if p != star.hub {
      var i :| 0 <= i < |star.spokes| && star.spokes[i].member == p;
      assert star.spokes[i].out(Null) == Scale(factor(star.spokes[i].member))(Null);
    }
  }

  // -------------------------------------------------- the conversion factors

  /** `multiplyWithConversionFactor`, on the endings of the two names. */
  function Factor(from: string, to: string): real {
    if from == "_Hz" && to == "_Hz" then 1.0
    else if from == "_Hz" && to == "_KHz" then 0.001
    else if from == "_Hz" && to == "_MHz" then 0.000001
    else if from == "_KHz" && to == "_Hz" then 1000.0
    else if from == "_KHz" && to == "_KHz" then 1.0
    else if from == "_KHz" && to == "_MHz" then 0.001
    else if from == "_MHz" && to == "_Hz" then 1000000.0
    else if from == "_MHz" && to == "_KHz" then 1000.0
    else if from == "_MHz" && to == "_MHz" then 1.0
    else 0.0
  }

  predicate IsUnit(s: string) {
    s == "_Hz" || s == "_KHz" || s == "_MHz"
  }

  /** How many Hertz a unit is. */
  function Hertz(unit: string): real {
    if unit == "_Hz" then 1.0 else if unit == "_KHz" then 1000.0 else 1000000.0
  }

  /** The table is the ratio of the units. */
  lemma FactorsAreRatios(a: string, b: string)
    requires IsUnit(a) && IsUnit(b)
    ensures Factor(a, b) == Hertz(a) / Hertz(b)
  {
  }

  /** The table is a conversion between units: it composes, its inverse is the
      opposite conversion, and it is zero exactly outside the known units. */
  lemma FactorsCompose(a: string, b: string, c: string)
    ensures Factor(a, b) != 0.0 <==> IsUnit(a) && IsUnit(b)
    ensures IsUnit(a) && IsUnit(b) && IsUnit(c) ==> Factor(a, b) * Factor(b, c) == Factor(a, c)
    ensures IsUnit(a) && IsUnit(b) ==> 1.0 / Factor(a, b) == Factor(b, a)
  {
  }
}
