/** Reference counts of callback implementations and generic adapters. */
module CallbackRefs {

  /** The signature of a callback; a typed one can wrap the generic one. */
  datatype Signature = Generic(kind: nat) | Typed(kind: nat, argument: nat)

  predicate Wraps(outer: Signature, inner: Signature) {
    outer.Typed? && inner == Generic(outer.kind)
  }

  /** A callback with the adapters around it: what cloning reproduces. */
  datatype Layers = Plain(signature: Signature) | Around(signature: Signature, inner: Layers)

  // ---------------------------------------------------------- bookkeeping

  /** What the counts are about: the callbacks made so far, those not deleted
      yet, where each holder points, and the shares that nobody gives back. */
  datatype Book = Book(
    nodes: set<CallbackNode>,
    live: set<CallbackNode>,
    points: map<Holder, CallbackNode?>,
    lost: multiset<CallbackNode>
  )

  ghost function Pointing(b: Book, n: CallbackNode): set<Holder> {
    set h | h in b.points && b.points[h] == n
  }

  ghost function Wrapping(b: Book, n: CallbackNode): set<CallbackNode> {
    set m | m in b.live && m.func == n
  }

  /** The owners and handles on a callback, the adapters around it that still
      exist, and its lost shares. */
  ghost function Count(b: Book, n: CallbackNode): nat {
    |Pointing(b, n)| + |Wrapping(b, n)| + b.lost[n]
  }

  /** A callback exists as long as somebody has a share in it. */
  ghost predicate Sound(b: Book) {
    && b.live <= b.nodes
    && (forall n :: n in b.nodes ==> (n in b.live <==> Count(b, n) > 0))
    && Shaped(b)
  }

  ghost predicate Shaped(b: Book) {
    && (forall n :: n in b.nodes ==> WellMade(n) && (n.func != null ==> n.func in b.nodes))
    && (forall h :: h in b.points && b.points[h] != null ==> b.points[h] in b.nodes)
    && (forall n :: n in b.lost ==> n in b.nodes)
  }

  ghost predicate WellMade(n: CallbackNode) {
    if n.func == null then n.layers == Plain(n.signature)
    else n.func.rank < n.rank && n.layers == Around(n.signature, n.func.layers)
  }

  /** No share is lost. */
  ghost predicate Exact(b: Book) {
    b.lost == multiset{}
  }

  lemma PointsElsewhere(b: Book, h: Holder, c: CallbackNode?, n: CallbackNode)
    requires h !in b.points
    ensures Count(b.(points := b.points[h := c]), n) == Count(b, n) + if n == c then 1 else 0
  {
    var after := b.(points := b.points[h := c]);
    assert Wrapping(after, n) == Wrapping(b, n);
    assert Pointing(after, n) == Pointing(b, n) + if n == c then {h} else {};
  }

  lemma PointsNoMore(b: Book, h: Holder, n: CallbackNode)
    requires h in b.points
    ensures Count(b.(points := b.points - {h}), n) + (if b.points[h] == n then 1 else 0) == Count(b, n)
  {
    var after := b.(points := b.points - {h});
    assert Wrapping(after, n) == Wrapping(b, n);
    assert Pointing(b, n) == Pointing(after, n) + if b.points[h] == n then {h} else {};
  }

  lemma Dies(b: Book, m: CallbackNode, n: CallbackNode)
    requires m in b.live
    ensures Count(b.(live := b.live - {m}), n) + (if m.func == n then 1 else 0) == Count(b, n)
  {
    var after := b.(live := b.live - {m});
    assert Pointing(after, n) == Pointing(b, n);
    assert Wrapping(b, n) == Wrapping(after, n) + if m.func == n then {m} else {};
  }

  ghost function Born(b: Book, c: CallbackNode): Book {
    b.(nodes := b.nodes + {c}, live := b.live + {c}, lost := b.lost + multiset{c})
  }

  lemma IsBorn(b: Book, c: CallbackNode, n: CallbackNode)
    requires c !in b.live
    ensures Count(Born(b, c), n) == Count(b, n) + (if c.func == n then 1 else 0) + (if c == n then 1 else 0)
  {
    var after := Born(b, c);
    assert Pointing(after, n) == Pointing(b, n);
    assert after.lost[n] == b.lost[n] + if c == n then 1 else 0;
    if c.func == n {
      assert Wrapping(after, n) == Wrapping(b, n) + {c};
    } else {
      assert Wrapping(after, n) == Wrapping(b, n);
    }
  }

  /** Nobody can have a share in a callback before it is made. */
  lemma NothingYet(b: Book, c: CallbackNode)
    requires Shaped(b) && b.live <= b.nodes && c !in b.nodes
    ensures Count(b, c) == 0
  {
  }

  lemma BirthIsSound(b: Book, c: CallbackNode)
    requires Sound(b) && c !in b.nodes
    requires WellMade(c) && (c.func != null ==> c.func in b.live)
    ensures Sound(Born(b, c)) && Count(Born(b, c), c) == 1
    ensures forall n :: n in b.nodes ==> Count(Born(b, c), n) == Count(b, n) + if c.func == n then 1 else 0
  {
    var after := Born(b, c);
    NothingYet(b, c);
    IsBorn(b, c, c);
    forall n | n in b.nodes ensures Count(after, n) == Count(b, n) + if c.func == n then 1 else 0 {
      IsBorn(b, c, n);
    }
  }

  /** The book after `c` and perhaps other callbacks were made, each with the
      one share it was born with, which nobody has taken yet. */
  ghost predicate Grown(b: Book, after: Book, c: CallbackNode) {
    && Sound(after) && after.points == b.points && b.nodes <= after.nodes
    && c in after.nodes - b.nodes && Count(after, c) == 1
    && after.lost == b.lost + multiset(after.nodes - b.nodes)
  }

  lemma GrowsOnce(b: Book, c: CallbackNode)
    requires Sound(b) && c !in b.nodes && c.func == null && WellMade(c)
    ensures Grown(b, Born(b, c), c) && Born(b, c).nodes - b.nodes == {c}
  {
    hide Count;
    BirthIsSound(b, c);
  }

  lemma GrowsAgain(b: Book, most: Book, inner: CallbackNode, c: CallbackNode)
    requires Grown(b, most, inner) && c !in most.nodes && c.func == inner && WellMade(c)
    ensures Grown(b, Born(most, c), c) && inner in Born(most, c).nodes - b.nodes
  {
    hide Count;
    BirthIsSound(most, c);
    assert Born(most, c).nodes - b.nodes == (most.nodes - b.nodes) + {c};
  }

  /** A callback is not deleted while an adapter around it exists. */
  lemma WrappedIsLive(b: Book, m: CallbackNode)
    requires Sound(b) && m in b.live
    ensures m.func != null ==> m.func in b.live
  {
    if m.func != null {
      assert m in Wrapping(b, m.func);
    }
  }

  // ------------------------------------------------------------ callbacks

  ghost predicate Counted(b: Book)
    reads b.nodes
  {
    forall n :: n in b.nodes ==> n.refcnt == Count(b, n)
  }

  /** The counts are right but for one share too many in `c`. */
  ghost predicate CountedBut(b: Book, c: CallbackNode)
    reads b.nodes
  {
    forall n :: n in b.nodes ==> n.refcnt == Count(b, n) + if n == c then 1 else 0
  }

  /** `callback_impl`, or `callback_generic_adapt` when `func` is set. */
  class CallbackNode {
    const signature: Signature
    const func: CallbackNode?
    var refcnt: nat
    ghost const rank: nat // an adapter ranks above what it wraps
    ghost const layers: Layers

    constructor Impl(signature: Signature)
      ensures this.signature == signature && func == null && refcnt == 1 && WellMade(this)
    {
      this.signature := signature;
      func := null;
      rank, layers := 0, Plain(signature);
      refcnt := 1;
    }

    constructor Adapt(signature: Signature, f: CallbackNode)
      modifies f
      ensures this.signature == signature && func == f && refcnt == 1 && WellMade(this)
      ensures f.refcnt == old(f.refcnt) + 1
    {
      this.signature := signature;
      func := f;
      rank, layers := f.rank + 1, Around(signature, f.layers);
      refcnt := 1;
      new;
      f.Acquire();
    }

    method Acquire()
      modifies this
      ensures refcnt == old(refcnt) + 1
    {
      refcnt := refcnt + 1;
    }

    /** Drops one share. The last one deletes this, and what this wraps loses a
        share in turn: in the end exactly the callbacks with a share exist. */
    method Release(ghost b: Book) returns (ghost after: Book)
      requires Shaped(b) && b.live <= b.nodes && this in b.live
      requires CountedBut(b, this)
      requires forall n :: n in b.nodes && n != this ==> (n in b.live <==> Count(b, n) > 0)
      modifies b.nodes
      ensures after == b.(live := after.live) && after.live <= b.live
      ensures Sound(after) && Counted(after)
      decreases rank
    {
      hide Count;
      refcnt := refcnt - 1;
      after := b;
      if refcnt == 0 {
        after := b.(live := b.live - {this});
        forall n ensures Count(after, n) + (if func == n then 1 else 0) == Count(b, n) {
          Dies(b, this, n);
        }
        if func != null {
          after := func.Release(after);
        }
      }
    }

    /** The maker of this drops the share that this was born with. */
    method GiveUp(ghost b: Book) returns (ghost after: Book)
      requires Sound(b) && Counted(b) && this in b.nodes && this in b.lost
      modifies b.nodes
      ensures after == b.(lost := b.lost - multiset{this}, live := after.live)
      ensures Sound(after) && Counted(after)
    {
      ghost var less := b.(lost := b.lost - multiset{this});
      forall n | n in b.nodes ensures Count(b, n) == Count(less, n) + if n == this then 1 else 0 {
        assert Pointing(less, n) == Pointing(b, n) && Wrapping(less, n) == Wrapping(b, n);
      }
      after := Release(less);
    }

    /** The callback at the bottom: what two handles are compared by. */
    function Get(ghost b: Book): (inner: CallbackNode)
      requires Sound(b) && this in b.live
      ensures inner in b.live && inner.func == null
      decreases rank
    {
      WrappedIsLive(b, this);
      if func == null then this else func.Get(b)
    }

    /** A copy of the whole stack. */
    method Clone(ghost b: Book) returns (c: CallbackNode, ghost after: Book)
      requires Sound(b) && Counted(b) && this in b.nodes
      ensures c.layers == layers && c.refcnt == 1
      ensures Grown(b, after, c) && Counted(after) && fresh(after.nodes - b.nodes)
      ensures func == null <==> after.nodes - b.nodes == {c}
      decreases rank, 1
    {
      hide Count;
      if func == null {
        c := new CallbackNode.Impl(signature);
        GrowsOnce(b, c);
        BirthIsSound(b, c);
        after := Born(b, c);
      } else {
        c, after := CloneAdapter(b);
      }
    }

    /** The new adapter takes a share of its own in the inner copy, so the share
        that copy was born with is lost. */
    method CloneAdapter(ghost b: Book) returns (c: CallbackNode, ghost after: Book)
      requires Sound(b) && Counted(b) && this in b.nodes && func != null
      ensures c.layers == layers && c.refcnt == 1
      ensures Grown(b, after, c) && Counted(after) && fresh(after.nodes - b.nodes)
      ensures after.nodes - b.nodes != {c}
      decreases rank, 0
    {
      hide Count;
      var inner, most := func.Clone(b);
      c := AdaptIn(signature, inner, most);
      GrowsAgain(b, most, inner, c);
      after := Born(most, c);
      assert inner != c && inner in after.nodes - b.nodes;
    }
  }

  method AdaptIn(signature: Signature, f: CallbackNode, ghost b: Book) returns (c: CallbackNode)
    requires Sound(b) && Counted(b) && f in b.live
    modifies f
    ensures fresh(c) && c.signature == signature && c.func == f && WellMade(c) && c.refcnt == 1
    ensures Sound(Born(b, c)) && Counted(Born(b, c))
  {
    hide Count;
    c := new CallbackNode.Adapt(signature, f);
    BirthIsSound(b, c);
    assert forall n :: n in b.nodes ==> n != c && n.refcnt == Count(b, n) + if n == f then 1 else 0;
  }

  /** All holders and callbacks; only contracts look at it. */
  class Heap {
    ghost var book: Book

    ghost constructor ()
      ensures Valid() && book == Book({}, {}, map[], multiset{})
    {
      book := Book({}, {}, map[], multiset{});
    }

    /** Every count is exactly the number of shares. */
    ghost predicate Valid()
      reads this, book.nodes, book.points.Keys
    {
      && Sound(book) && Counted(book)
      && (forall h :: h in book.points ==> h.cb == book.points[h])
    }
  }

  // the book after each operation

  ghost function Pointed(b: Book, h: Holder, c: CallbackNode?): Book {
    b.(points := b.points[h := c])
  }

  /** The share that `c` was born with goes to the holder. */
  ghost function Taken(b: Book, h: Holder, c: CallbackNode): Book {
    Pointed(b, h, c).(lost := b.lost - multiset{c})
  }

  lemma TakenCounts(b: Book, h: Holder, c: CallbackNode)
    requires Sound(b) && h !in b.points && c in b.nodes && c in b.lost
    ensures Sound(Taken(b, h, c))
    ensures forall n :: n in b.nodes ==> Count(Taken(b, h, c), n) == Count(b, n)
  {
    forall n | n in b.nodes ensures Count(Taken(b, h, c), n) == Count(b, n) {
      PointsElsewhere(b, h, c, n);
      assert Wrapping(Taken(b, h, c), n) == Wrapping(b, n);
      assert Pointing(Taken(b, h, c), n) == Pointing(Pointed(b, h, c), n);
    }
  }

  /** A new callback in the hands of a new holder. */
  ghost function Made(b: Book, h: Holder, c: CallbackNode): Book {
    b.(nodes := b.nodes + {c}, live := b.live + {c}, points := b.points[h := c])
  }

  lemma MadeIsTaken(b: Book, h: Holder, c: CallbackNode)
    requires Sound(Born(b, c)) && h !in b.points && c !in b.nodes
    ensures Sound(Made(b, h, c))
    ensures forall n :: n in Made(b, h, c).nodes ==> Count(Made(b, h, c), n) == Count(Born(b, c), n)
  {
    hide Count;
    TakenCounts(Born(b, c), h, c);
    assert b.lost + multiset{c} - multiset{c} == b.lost;
    assert Made(b, h, c) == Taken(Born(b, c), h, c);
  }

  lemma PointedIsSound(b: Book, h: Holder, c: CallbackNode?)
    requires Sound(b) && h !in b.points && (c != null ==> c in b.live)
    ensures Sound(Pointed(b, h, c))
    ensures forall n :: n in b.nodes ==> Count(Pointed(b, h, c), n) == Count(b, n) + if n == c then 1 else 0
  {
    hide Count;
    forall n | n in b.nodes ensures Count(Pointed(b, h, c), n) == Count(b, n) + if n == c then 1 else 0 {
      PointsElsewhere(b, h, c, n);
    }
  }

  lemma LostIsLive(b: Book, n: CallbackNode)
    requires Sound(b) && n in b.lost
    ensures n in b.live
  {
  }

  lemma HeldIsLive(b: Book, h: Holder)
    requires Sound(b) && h in b.points
    ensures b.points[h] != null ==> b.points[h] in b.live
  {
    if b.points[h] != null {
      assert h in Pointing(b, b.points[h]);
    }
  }

  lemma UnpointedCounts(b: Book, h: Holder)
    requires Sound(b) && h in b.points
    ensures
      var after := b.(points := b.points - {h});
      && Shaped(after)
      && forall n :: n in b.nodes ==> Count(b, n) == Count(after, n) + if b.points[h] == n then 1 else 0
  {
    hide Count;
    var after := b.(points := b.points - {h});
    forall n | n in b.nodes ensures Count(b, n) == Count(after, n) + if b.points[h] == n then 1 else 0 {
      PointsNoMore(b, h, n);
    }
  }

  ghost function Swapped(b: Book, h: Holder, k: Holder): Book
    requires h in b.points && k in b.points
  {
    b.(points := b.points[h := b.points[k]][k := b.points[h]])
  }

  lemma SwappedIsSound(b: Book, h: Holder, k: Holder)
    requires Sound(b) && h in b.points && k in b.points
    ensures Sound(Swapped(b, h, k))
    ensures forall n :: n in b.nodes ==> Count(Swapped(b, h, k), n) == Count(b, n)
  {
    hide Count;
    var without := b.(points := b.points - {h} - {k});
    if h == k {
      assert Swapped(b, h, k) == b;
    } else {
      forall n | n in b.nodes ensures Count(Swapped(b, h, k), n) == Count(b, n) {
        PointsNoMore(b, h, n);
        PointsNoMore(b.(points := b.points - {h}), k, n);
        PointsElsewhere(without, h, b.points[k], n);
        PointsElsewhere(Pointed(without, h, b.points[k]), k, b.points[h], n);
        assert Pointed(Pointed(without, h, b.points[k]), k, b.points[h]) == Swapped(b, h, k);
      }
    }
  }

  lemma Repointed(b: Book, dropped: Book, h: Holder, c: CallbackNode?)
    requires dropped == b.(points := b.points - {h}, live := dropped.live)
    ensures Pointed(dropped, h, c) == Pointed(b, h, c).(live := dropped.live)
  {
  }

  lemma RepointedTwice(b: Book, h: Holder, c: CallbackNode?, d: CallbackNode?)
    ensures Pointed(Pointed(b, h, c), h, d) == Pointed(b, h, d)
  {
  }

  lemma GivenUp(b: Book, h: Holder, c: CallbackNode, live: set<CallbackNode>)
    ensures
      var after := Pointed(Born(b, c), h, c);
      after.(lost := after.lost - multiset{c}, live := live) == Made(b, h, c).(live := live)
  {
  }

  /** Which callbacks exist is settled by the holders and the lost shares. */
  lemma {:induction false} SameLive(b: Book, other: Book, n: CallbackNode, top: nat)
    requires Sound(b) && Sound(other) && other == b.(live := other.live)
    requires forall m :: m in b.nodes ==> m.rank <= top
    requires n in b.nodes
    ensures n in b.live <==> n in other.live
    decreases top - n.rank
  {
    assert Pointing(b, n) == Pointing(other, n);
    forall m | m in b.nodes && m.func == n ensures m in b.live <==> m in other.live {
      SameLive(b, other, m, top);
    }
    assert Wrapping(b, n) == Wrapping(other, n);
  }

  lemma {:induction false} TopRank(nodes: set<CallbackNode>) returns (top: nat)
    ensures forall m :: m in nodes ==> m.rank <= top
  {
    top := 0;
    if nodes != {} {
      var c :| c in nodes;
      var rest := TopRank(nodes - {c});
      top := if c.rank > rest then c.rank else rest;
    }
  }

  lemma LiveIsSettled(b: Book, other: Book)
    requires Sound(b) && Sound(other) && other == b.(live := other.live)
    ensures b == other
  {
    var top := TopRank(b.nodes);
    forall n | n in b.nodes ensures n in b.live <==> n in other.live {
      SameLive(b, other, n, top);
    }
    assert b.live == other.live;
  }

  /** Is `n` what `r` points to, or wrapped in it at any depth? */
  ghost predicate Below(b: Book, r: CallbackNode, n: CallbackNode)
    requires Shaped(b) && r in b.nodes
    decreases r.rank
  {
    r == n || (r.func != null && Below(b, r.func, n))
  }

  /** A root of what must exist: a holder's callback or one with a lost share. */
  ghost predicate Root(b: Book, r: CallbackNode) {
    r in b.lost || exists h :: h in b.points && b.points[h] == r
  }

  lemma {:induction false} BelowWrapped(b: Book, r: CallbackNode, m: CallbackNode)
    requires Shaped(b) && r in b.nodes && Below(b, r, m) && m in b.nodes && m.func != null
    ensures Below(b, r, m.func)
    decreases r.rank
  {
    if r != m {
      BelowWrapped(b, r.func, m);
    }
  }

  lemma {:induction false} BelowIsLive(b: Book, r: CallbackNode, n: CallbackNode)
    requires Sound(b) && r in b.live && Below(b, r, n)
    ensures n in b.live
    decreases r.rank
  {
    WrappedIsLive(b, r);
    if r != n {
      BelowIsLive(b, r.func, n);
    }
  }

  lemma {:induction false} LiveHasRoot(b: Book, n: CallbackNode, top: nat) returns (r: CallbackNode)
    requires Sound(b) && n in b.live && forall m :: m in b.nodes ==> m.rank <= top
    ensures r in b.nodes && Root(b, r) && Below(b, r, n)
    decreases top - n.rank
  {
    if h :| h in Pointing(b, n) {
      r := n;
    } else if m :| m in Wrapping(b, n) {
      r := LiveHasRoot(b, m, top);
      BelowWrapped(b, r, m);
    } else {
      assert Pointing(b, n) == {} && Wrapping(b, n) == {};
      r := n;
    }
  }

  lemma RootIsLive(b: Book, r: CallbackNode)
    requires Sound(b) && Root(b, r)
    ensures r in b.live
  {
    if r in b.lost {
      LostIsLive(b, r);
    } else {
      var h :| h in b.points && b.points[h] == r;
      HeldIsLive(b, h);
    }
  }

  /** A callback exists exactly while a holder points to it or to an adapter
      stacked on it, or a clone has lost a share in it or in such an adapter. */
  lemma ExistsWhileShared(b: Book, n: CallbackNode)
    requires Sound(b) && n in b.nodes
    ensures n in b.live <==> exists r :: r in b.nodes && Root(b, r) && Below(b, r, n)
  {
    if n in b.live {
      var top := TopRank(b.nodes);
      var r := LiveHasRoot(b, n, top);
    }
    if r :| r in b.nodes && Root(b, r) && Below(b, r, n) {
      RootIsLive(b, r);
      BelowIsLive(b, r, n);
    }
  }

  /** When the last holder is gone everything is deleted, unless a clone of an
      adapter has lost a share: such a callback is never deleted. */
  lemma LastHolderGone(b: Book)
    requires Sound(b) && b.points == map[]
    ensures b.live == {} <==> Exact(b)
  {
    if Exact(b) {
      forall n | n in b.live ensures false {
        ExistsWhileShared(b, n);
      }
    } else {
      var n :| n in b.lost;
      LostIsLive(b, n);
    }
  }

  // the allocations behind the constructors of `cci_callback`

  method NewImpl(signature: Signature, ghost h: Holder, ghost b: Book) returns (c: CallbackNode)
    requires Sound(b) && Counted(b) && h !in b.points
    ensures fresh(c) && c.signature == signature && c.func == null
    ensures Sound(Made(b, h, c)) && Counted(Made(b, h, c))
  {
    hide Count;
    c := new CallbackNode.Impl(signature);
    BirthIsSound(b, c);
    MadeIsTaken(b, h, c);
  }

  method NewAdapter(signature: Signature, f: CallbackNode, ghost h: Holder, ghost b: Book) returns (c: CallbackNode)
    requires Sound(b) && Counted(b) && h !in b.points && f in b.live
    modifies f
    ensures fresh(c) && c.signature == signature && c.func == f
    ensures Sound(Made(b, h, c)) && Counted(Made(b, h, c))
  {
    hide Count;
    c := AdaptIn(signature, f, b);
    MadeIsTaken(b, h, c);
  }

  /** A copying constructor's pointer: a clone, or nothing for nothing. */
  method CloneFor(that: Holder, ghost h: Holder, ghost b: Book) returns (c: CallbackNode?, ghost after: Book)
    requires Sound(b) && Counted(b) && h !in b.points
    requires that in b.points && that.cb == b.points[that]
    ensures Sound(after) && Counted(after) && Copied(b, after, h, that) && c == after.points[h]
    ensures fresh(after.nodes - b.nodes)
  {
    hide Count;
    HeldIsLive(b, that);
    c := null;
    if that.cb == null {
      PointedIsSound(b, h, null);
      after := Pointed(b, h, null);
    } else {
      ghost var grown;
      c, grown := that.cb.Clone(b);
      TakenCounts(grown, h, c);
      TakenIsCopied(b, grown, c, h, that);
      after := Taken(grown, h, c);
    }
  }

  /** The one pointer of a `cci_callback` or of a handle. */
  class Holder {
    var cb: CallbackNode?

    /** A callback made from a functor. */
    constructor FromFunctor(signature: Signature, ghost heap: Heap)
      requires heap.Valid()
      modifies heap
      ensures heap.Valid() && cb != null && fresh(cb) && heap.book == Made(old(heap.book), this, cb)
      ensures cb.signature == signature && cb.func == null
    {
      cb := null;
      new;
      hide Count;
      cb := NewImpl(signature, this, heap.book);
      heap.book := Made(heap.book, this, cb);
    }

    /** A typed callback made from a generic one: an adapter around it. */
    constructor Adapted(signature: Signature, that: Holder, ghost heap: Heap)
      requires heap.Valid() && that in heap.book.points
      requires that.cb != null && Wraps(signature, that.cb.signature)
      modifies heap, heap.book.nodes
      ensures heap.Valid() && cb != null && fresh(cb) && heap.book == Made(old(heap.book), this, cb)
      ensures cb.func == old(that.cb) && cb.signature == signature
    {
      cb := null;
      new;
      hide Count;
      ghost var b := heap.book;
      HeldIsLive(b, that);
      var c := NewAdapter(signature, that.cb, this, b);
      cb, heap.book := c, Made(b, this, c);
      assert forall h :: h in b.points ==> h.cb == b.points[h];
    }

    /** A handle on what a callback or another handle points to. */
    constructor Share(that: Holder, ghost heap: Heap)
      requires heap.Valid() && that in heap.book.points
      modifies heap, heap.book.nodes
      ensures heap.Valid() && heap.book == Pointed(old(heap.book), this, old(that.cb))
    {
      cb := null;
      new;
      hide Count;
      HeldIsLive(heap.book, that);
      Take(that.cb, heap);
    }

    /** Points to a callback and takes a share in it. */
    method Take(c: CallbackNode?, ghost heap: Heap)
      requires heap.Valid() && this !in heap.book.points
      requires c != null ==> c in heap.book.live
      modifies heap, heap.book.nodes, this
      ensures heap.Valid() && heap.book == Pointed(old(heap.book), this, c) && cb == c
    {
      hide Count;
      cb := c;
      if cb != null {
        cb.Acquire();
      }
      PointedIsSound(heap.book, this, c);
      heap.book := Pointed(heap.book, this, c);
    }

    /** The end of a holder, or of what it points to: its share goes back, and
        what nobody shares any more is deleted. */
    method Drop(ghost heap: Heap)
      requires heap.Valid() && this in heap.book.points
      modifies heap, heap.book.nodes
      ensures heap.Valid()
      ensures heap.book == old(heap.book).(points := old(heap.book.points) - {this}, live := heap.book.live)
    {
      ghost var b := heap.book;
      ghost var left := b.(points := b.points - {this});
      UnpointedCounts(b, this);
      HeldIsLive(b, this);
      if cb != null {
        left := cb.Release(left);
      }
      heap.book := left;
    }

    /** Points to another callback, which its share at birth keeps alive. */
    method Reset(c: CallbackNode?, ghost heap: Heap)
      requires heap.Valid() && this in heap.book.points
      requires c != null ==> c in heap.book.nodes && c in heap.book.lost
      modifies heap, heap.book.nodes, this
      ensures heap.Valid() && cb == c
      ensures heap.book == Pointed(old(heap.book), this, c).(live := heap.book.live)
    {
      hide Count;
      ghost var b := heap.book;
      Drop(heap);
      if c != null {
        LostIsLive(heap.book, c);
      }
      ghost var dropped := heap.book;
      Take(c, heap);
      Repointed(b, dropped, this, c);
    }

    method Clear(ghost heap: Heap)
      requires heap.Valid() && this in heap.book.points
      modifies heap, heap.book.nodes, this
      ensures heap.Valid() && cb == null
      ensures heap.book == Pointed(old(heap.book), this, null).(live := heap.book.live)
    {
      hide Count;
      Reset(null, heap);
    }

    /** A typed handle made from any handle: the same callback if the signature
        matches, an adapter of its own if the callback at the bottom is generic,
        nothing otherwise. */
    constructor Recover(signature: Signature, that: Holder, ghost heap: Heap)
      requires heap.Valid() && that in heap.book.points
      modifies heap, heap.book.nodes
      ensures heap.Valid() && Recovered(old(heap.book), heap.book, signature, this, old(that.cb))
      ensures fresh(heap.book.nodes - old(heap.book.nodes))
    {
      cb := null;
      new;
      hide Count;
      ghost var b := heap.book;
      HeldIsLive(b, that);
      Take(that.cb, heap);
      if cb != null && cb.signature != signature {
        Convert(signature, heap);
        ConvertedIsRecovered(b, heap.book, signature, this, that.cb, cb);
      }
    }

    /** The second half of that constructor: the signature does not match. */
    method Convert(signature: Signature, ghost heap: Heap)
      requires heap.Valid() && this in heap.book.points && cb != null
      modifies heap, heap.book.nodes, this
      ensures heap.Valid() && (cb != null ==> fresh(cb))
      ensures Converted(old(heap.book), heap.book, signature, this, old(cb), cb)
    {
      hide Count;
      HeldIsLive(heap.book, this);
      var inner := cb.Get(heap.book);
      if Wraps(signature, inner.signature) {
        Rewrap(signature, inner, heap);
      } else {
        Reset(null, heap);
      }
    }

    method Rewrap(signature: Signature, inner: CallbackNode, ghost heap: Heap)
      requires heap.Valid() && this in heap.book.points && inner in heap.book.live
      modifies heap, heap.book.nodes, this
      ensures heap.Valid() && cb != null && fresh(cb) && cb.func == inner && cb.signature == signature
      ensures heap.book == Made(old(heap.book), this, cb).(live := heap.book.live) && cb in heap.book.live
    {
      hide Count;
      ghost var b := heap.book;
      var c := AdaptIn(signature, inner, b);
      heap.book := Born(b, c);
      assert heap.Valid();
      Reset(c, heap);
      ReleaseMaker(c, heap);
      GivenUp(b, this, c, heap.book.live);
      HeldIsLive(heap.book, this);
    }

    static method ReleaseMaker(c: CallbackNode, ghost heap: Heap)
      requires heap.Valid() && c in heap.book.nodes && c in heap.book.lost
      modifies heap, heap.book.nodes
      ensures heap.Valid()
      ensures heap.book == old(heap.book).(lost := old(heap.book.lost) - multiset{c}, live := heap.book.live)
    {
      heap.book := c.GiveUp(heap.book);
    }

    method Swap(that: Holder, ghost heap: Heap)
      requires heap.Valid() && this in heap.book.points && that in heap.book.points
      modifies heap, this, that
      ensures heap.Valid() && heap.book == Swapped(old(heap.book), this, that)
    {
      hide Count;
      SwappedIsSound(heap.book, this, that);
      var t := cb;
      cb := that.cb;
      that.cb := t;
      heap.book := Swapped(heap.book, this, that);
    }

    /** Copying a callback clones what it points to. */
    constructor CopyCallback(that: Holder, ghost heap: Heap)
      requires heap.Valid() && that in heap.book.points
      modifies heap
      ensures heap.Valid() && Copied(old(heap.book), heap.book, this, that)
      ensures fresh(heap.book.nodes - old(heap.book.nodes))
    {
      cb := null;
      new;
      hide Count;
      TakeCopy(that, heap);
    }

    method TakeCopy(that: Holder, ghost heap: Heap)
      requires heap.Valid() && this !in heap.book.points && that in heap.book.points
      modifies heap, this
      ensures heap.Valid() && Copied(old(heap.book), heap.book, this, that)
      ensures fresh(heap.book.nodes - old(heap.book.nodes))
    {
      hide Count, Sound, IsCopyOf;
      ghost var after;
      cb, after := CloneFor(that, this, heap.book);
      heap.book := after;
    }

    /** Assignment takes its argument by value: copy, swap, drop the copy. */
    method AssignCallback(that: Holder, ghost heap: Heap)
      requires heap.Valid() && this in heap.book.points && that in heap.book.points
      modifies heap, heap.book.nodes, this
      ensures heap.Valid() && Copied(old(heap.book), heap.book, this, that)
      ensures fresh(heap.book.nodes - old(heap.book.nodes))
    {
      hide Count;
      ghost var b := heap.book;
      var copy := new Holder.CopyCallback(that, heap);
      ghost var copied := heap.book;
      copy.Swap(this, heap);
      copy.Drop(heap);
      CopySwappedIn(b, copied, copy, that, this, heap.book.live);
    }

    method AssignHandle(that: Holder, ghost heap: Heap)
      requires heap.Valid() && this in heap.book.points && that in heap.book.points
      modifies heap, heap.book.nodes, this
      ensures heap.Valid()
      ensures heap.book == Pointed(old(heap.book), this, old(that.cb)).(live := heap.book.live)
    {
      hide Count;
      ghost var b := heap.book;
      var copy := new Holder.Share(that, heap);
      copy.Swap(this, heap);
      copy.Drop(heap);
      SwappedIn(b.points, copy, that.cb, this);
    }
  }

  /** Copying loses a share exactly when an adapter is copied. */
  lemma OnlyAdaptersLose(b: Book, after: Book, h: Holder, that: Holder)
    requires Shaped(b) && that in b.points && Copied(b, after, h, that)
    ensures after.lost == b.lost <==> b.points[that] == null || b.points[that].func == null
  {
  }

  lemma TakenIsCopied(b: Book, grown: Book, c: CallbackNode, h: Holder, that: Holder)
    requires Shaped(b) && Grown(b, grown, c) && h !in b.points && that in b.points && b.points[that] != null
    requires c.layers == b.points[that].layers
    requires b.points[that].func == null <==> grown.nodes - b.nodes == {c}
    ensures Copied(b, Taken(grown, h, c), h, that)
  {
  }

  lemma SwappedIn(points: map<Holder, CallbackNode?>, copy: Holder, c: CallbackNode?, h: Holder)
    requires copy !in points && h in points
    ensures points[copy := c][copy := points[h]][h := c] - {copy} == points[h := c]
  {
  }

  /** The handle `h` pointed to `was`: now it has its own adapter around what was
      at the bottom, or nothing if that has another signature still. */
  ghost predicate Converted(b: Book, after: Book, signature: Signature, h: Holder,
                            was: CallbackNode, now: CallbackNode?)
    requires Sound(b)
  {
    was in b.live &&
    var inner := was.Get(b);
    if Wraps(signature, inner.signature) then
      && now != null && now !in b.nodes && now.func == inner && now.signature == signature
      && now in after.live && after == Made(b, h, now).(live := after.live)
    else
      now == null && after == Pointed(b, h, null).(live := after.live)
  }

  ghost predicate Recovered(b: Book, after: Book, signature: Signature, h: Holder, was: CallbackNode?)
    requires Sound(b)
  {
    if was == null then after == Pointed(b, h, null) else
      && was in b.live
      && if was.signature == signature then after == Pointed(b, h, was)
         else if Wraps(signature, was.Get(b).signature) then
           && h in after.points && after.points[h] != null && after.points[h] !in b.nodes
           && after.points[h].func == was.Get(b) && after.points[h].signature == signature
           && after == Made(b, h, after.points[h])
         else after == Pointed(b, h, null)
  }

  lemma {:induction false} GetSame(m: CallbackNode, b: Book, other: Book)
    requires Sound(b) && Sound(other) && m in b.live && m in other.live
    ensures m.Get(b) == m.Get(other)
    decreases m.rank
  {
    WrappedIsLive(b, m);
    WrappedIsLive(other, m);
    if m.func != null {
      GetSame(m.func, b, other);
    }
  }

  lemma ConvertedIsRecovered(b: Book, after: Book, signature: Signature, h: Holder,
                             was: CallbackNode, now: CallbackNode?)
    requires Sound(b) && Sound(after) && h !in b.points && was in b.live && was.signature != signature
    requires Sound(Pointed(b, h, was)) && Converted(Pointed(b, h, was), after, signature, h, was, now)
    ensures Recovered(b, after, signature, h, was)
  {
    GetSame(was, b, Pointed(b, h, was));
    if Wraps(signature, was.Get(b).signature) {
      RepointedTwice(b, h, was, now);
      AdapterIsSettled(b, after, h, now);
    } else {
      RepointedTwice(b, h, was, null);
      PointedIsSound(b, h, null);
      LiveIsSettled(Pointed(b, h, null), after);
    }
  }

  lemma AdapterIsSettled(b: Book, after: Book, h: Holder, c: CallbackNode)
    requires Sound(b) && Sound(after) && h !in b.points && c !in b.nodes && c.func != null && c.func in b.live
    requires after == Made(b, h, c).(live := after.live)
    ensures after == Made(b, h, c)
  {
    assert c in after.nodes;
    BirthIsSound(b, c);
    MadeIsTaken(b, h, c);
    LiveIsSettled(Made(b, h, c), after);
  }

  lemma CopySwappedIn(b: Book, copied: Book, copy: Holder, that: Holder, h: Holder, live: set<CallbackNode>)
    requires that in b.points && h in b.points && copy !in b.points
    requires Shaped(b) && Copied(b, copied, copy, that)
    ensures
      var swapped := Swapped(copied, copy, h);
      Copied(b, swapped.(points := swapped.points - {copy}, live := live), h, that)
  {
  }

  /** Holder `h` has its own copy of what `that` points to. Of the callbacks made
      for it, each one but the topmost keeps a share that nobody gives back. */
  ghost predicate Copied(b: Book, after: Book, h: Holder, that: Holder)
    requires that in b.points && b.points[that] in b.nodes + {null}
  {
    && h in after.points && after.points == b.points[h := after.points[h]]
    && if b.points[that] == null then after == Pointed(b, h, null).(live := after.live)
       else IsCopyOf(b, after, after.points[h], b.points[that])
  }

  ghost predicate IsCopyOf(b: Book, after: Book, c: CallbackNode?, m: CallbackNode) {
    && c != null && c in after.nodes - b.nodes && b.nodes <= after.nodes && c.layers == m.layers
    && after.lost == b.lost + multiset(after.nodes - b.nodes - {c})
    && (after.nodes - b.nodes == {c} <==> m.func == null)
  }

  // ----------------------------------------------------------------- runs

  /** What a program does with its callbacks and handles, by position. */
  datatype Op =
    | MakeCallback(signature: Signature)
    | MakeAdapter(signature: Signature, of: nat)
    | MakeHandle(of: nat)
    | MakeTypedHandle(signature: Signature, of: nat)
    | CopyOf(of: nat)
    | AssignCopy(to: nat, of: nat)
    | AssignSame(to: nat, of: nat)
    | Exchange(to: nat, of: nat)
    | Empty(of: nat)
    | End(of: nat)

  ghost predicate Slots(holders: seq<Holder>, b: Book) {
    && (forall i :: 0 <= i < |holders| ==> holders[i] in b.points)
    && (forall h :: h in b.points ==> h in holders)
    && (forall i, j :: 0 <= i < j < |holders| ==> holders[i] != holders[j])
  }

  /** A moment of a run: the holders that there are, and the book. */
  datatype Moment = Moment(holders: seq<Holder>, book: Book)

  ghost predicate Fine(m: Moment) {
    Sound(m.book) && Slots(m.holders, m.book)
  }

  const START := Moment([], Book({}, {}, map[], multiset{}))

  /** Does the operation name holders that there are? */
  predicate InReach(op: Op, n: nat) {
    && (!op.MakeCallback? ==> op.of < n)
    && (op.AssignCopy? || op.AssignSame? || op.Exchange? ==> op.to < n)
  }

  /** Does the operation copy a callback that is an adapter? */
  ghost predicate CopiesAdapter(op: Op, m: Moment)
    requires Fine(m)
  {
    && InReach(op, |m.holders|) && (op.CopyOf? || op.AssignCopy?)
    && var c := m.book.points[m.holders[op.of]];
       c != null && c.func != null
  }

  /** One more holder: a new one, at the end. */
  ghost predicate OneMore(m: Moment, m': Moment) {
    && |m'.holders| == |m.holders| + 1 && m'.holders[..|m.holders|] == m.holders
    && m'.holders[|m.holders|] !in m.book.points
  }

  /** A new callback around `f`, or around nothing, in the hands of `h`. */
  ghost predicate Makes(b: Book, after: Book, h: Holder, signature: Signature, f: CallbackNode?) {
    && h in after.points && after.points[h] != null && after.points[h] !in b.nodes
    && after.points[h].signature == signature && after.points[h].func == f
    && after == Made(b, h, after.points[h])
  }

  /** What the operation does, from one moment to the next. What no longer has a
      share is gone afterwards, since every book is sound. An operation on a
      holder that there is not, or an adapter of what cannot be adapted, does
      nothing: no program can say that. */
  ghost predicate Does(op: Op, m: Moment, m': Moment)
    requires Fine(m)
  {
    && Fine(m')
    && if !InReach(op, |m.holders|) then m' == m
       else if op.MakeCallback? || op.MakeAdapter? || op.MakeHandle? || op.MakeTypedHandle? || op.CopyOf? then
         if op.MakeAdapter? && !CanAdapt(op, m) then m' == m
         else OneMore(m, m') && Creates(op, m, m'.book, m'.holders[|m.holders|])
       else if op.End? then
         && m'.holders == m.holders[..op.of] + m.holders[op.of + 1..]
         && m'.book == m.book.(points := m.book.points - {m.holders[op.of]}, live := m'.book.live)
       else m'.holders == m.holders && Moves(op, m, m'.book)
  }

  ghost predicate CanAdapt(op: Op, m: Moment)
    requires Fine(m) && op.MakeAdapter? && op.of < |m.holders|
  {
    var c := m.book.points[m.holders[op.of]];
    c != null && Wraps(op.signature, c.signature)
  }

  ghost predicate Creates(op: Op, m: Moment, after: Book, h: Holder)
    requires Fine(m) && InReach(op, |m.holders|)
  {
    match op
    case MakeCallback(signature) => Makes(m.book, after, h, signature, null)
    case MakeAdapter(signature, i) => Makes(m.book, after, h, signature, m.book.points[m.holders[i]])
    case MakeHandle(i) => after == Pointed(m.book, h, m.book.points[m.holders[i]])
    case MakeTypedHandle(signature, i) => Recovered(m.book, after, signature, h, m.book.points[m.holders[i]])
    case CopyOf(i) => Copied(m.book, after, h, m.holders[i])
    case _ => false
  }

  ghost predicate Moves(op: Op, m: Moment, after: Book)
    requires Fine(m) && InReach(op, |m.holders|)
  {
    match op
    case AssignCopy(to, i) => Copied(m.book, after, m.holders[to], m.holders[i])
    case AssignSame(to, i) =>
      after == Pointed(m.book, m.holders[to], m.book.points[m.holders[i]]).(live := after.live)
    case Exchange(to, i) => after == Swapped(m.book, m.holders[i], m.holders[to])
    case Empty(i) => after == Pointed(m.book, m.holders[i], null).(live := after.live)
    case _ => false
  }

  /** A run, moment by moment, from the start of the program. */
  ghost predicate IsRun(ops: seq<Op>, run: seq<Moment>) {
    && |run| == |ops| + 1 && run[0] == START
    && (forall n :: 0 <= n < |run| ==> Fine(run[n]))
    && (forall n :: 0 <= n < |ops| ==> Follows(ops, run, n))
  }

  ghost predicate Follows(ops: seq<Op>, run: seq<Moment>, n: nat)
    requires n < |ops| && n + 1 < |run| && Fine(run[n])
  {
    Does(ops[n], run[n], run[n + 1])
  }

  // ------------------------------------------------------ theorems on runs

  /** `c` has been made by this operation for the holder `h` alone. */
  ghost predicate NewFor(m: Moment, m': Moment, h: Holder, c: CallbackNode?) {
    c != null && c !in m.book.nodes && m'.book.points == m.book.points[h := c]
  }

  /** A new callback with the layers of `c`, or nothing for nothing. */
  ghost predicate CopyFor(m: Moment, m': Moment, h: Holder, c: CallbackNode?) {
    && h in m'.book.points
    && if c == null then m'.book.points == m.book.points[h := null]
       else NewFor(m, m', h, m'.book.points[h]) && m'.book.points[h].layers == c.layers
  }

  /** Where the holders point after an operation that makes one. */
  lemma NewHolderPoints(op: Op, m: Moment, m': Moment)
    requires Fine(m) && Does(op, m, m') && (!op.MakeCallback? ==> op.of < |m.holders|)
    requires op.MakeCallback? || op.MakeAdapter? || op.MakeHandle? || op.MakeTypedHandle? || op.CopyOf?
    ensures
      var points, points' := m.book.points, m'.book.points;
      var from := if op.MakeCallback? then null else points[m.holders[op.of]];
      if op.MakeAdapter? && !(from != null && op.signature.Typed? && from.signature == Generic(op.signature.kind)) then
        m' == m
      else
        && |m'.holders| == |m.holders| + 1 && m'.holders[..|m.holders|] == m.holders
        && var h := m'.holders[|m.holders|];
           && h !in points && h in points'
           && match op
              case MakeCallback(signature) =>
                NewFor(m, m', h, points'[h]) && points'[h].signature == signature && points'[h].func == null
              case MakeAdapter(signature, _) =>
                NewFor(m, m', h, points'[h]) && points'[h].signature == signature && points'[h].func == from
              case MakeHandle(_) => points' == points[h := from]
              case MakeTypedHandle(signature, _) =>
                if from == null || from.signature == signature then points' == points[h := from]
                else HandleOnBottom(m, m', h, signature, from)
              case _ => CopyFor(m, m', h, from)
  {
    hide Count, Sound;
    if op.MakeTypedHandle? {
      TypedHandlePoints(op, m, m');
    }
  }

  ghost predicate IsBottom(m: Moment, c: CallbackNode, n: CallbackNode) {
    Shaped(m.book) && c in m.book.nodes && Below(m.book, c, n) && n.func == null
  }

  /** A typed handle on a callback of another signature: it has an adapter of its own
      around what is at the bottom, if that is generic and of its kind. */
  ghost predicate HandleOnBottom(m: Moment, m': Moment, h: Holder, signature: Signature, from: CallbackNode)
    requires h in m'.book.points
  {
    var points' := m'.book.points;
    && (exists n :: n in m.book.nodes && IsBottom(m, from, n))
    && (forall n :: n in m.book.nodes && IsBottom(m, from, n) ==>
          if signature.Typed? && n.signature == Generic(signature.kind) then
            NewFor(m, m', h, points'[h]) && points'[h].signature == signature && points'[h].func == n
          else points' == m.book.points[h := null])
  }

  lemma {:induction false} GetIsBottom(b: Book, c: CallbackNode, n: CallbackNode)
    requires Sound(b) && c in b.live && Below(b, c, n) && n.func == null
    ensures c.Get(b) == n
    decreases c.rank
  {
    WrappedIsLive(b, c);
    if c != n { GetIsBottom(b, c.func, n); }
  }

  lemma {:induction false} GetIsBelow(b: Book, c: CallbackNode)
    requires Sound(b) && c in b.live
    ensures Below(b, c, c.Get(b))
    decreases c.rank
  {
    WrappedIsLive(b, c);
    if c.func != null { GetIsBelow(b, c.func); }
  }

  lemma TypedHandlePoints(op: Op, m: Moment, m': Moment)
    requires Fine(m) && Does(op, m, m') && op.MakeTypedHandle? && op.of < |m.holders|
    ensures
      var from := m.book.points[m.holders[op.of]];
      && |m'.holders| == |m.holders| + 1
      && (from != null && from.signature != op.signature ==>
            (exists n :: n in m.book.nodes && IsBottom(m, from, n)) &&
            forall n :: n in m.book.nodes && IsBottom(m, from, n) ==> from in m.book.live && from.Get(m.book) == n)
  {
    var from := m.book.points[m.holders[op.of]];
    HeldIsLive(m.book, m.holders[op.of]);
    if from != null {
      GetIsBelow(m.book, from);
      assert IsBottom(m, from, from.Get(m.book));
    }
    forall n | from != null && n in m.book.nodes && IsBottom(m, from, n) ensures from.Get(m.book) == n {
      GetIsBottom(m.book, from, n);
    }
  }

  /** Where the holders point after an operation that makes none. */
  lemma OldHolderPoints(op: Op, m: Moment, m': Moment)
    requires Fine(m) && Does(op, m, m') && !op.MakeCallback? && op.of < |m.holders|
    requires op.AssignCopy? || op.AssignSame? || op.Exchange? ==> op.to < |m.holders|
    requires op.AssignCopy? || op.AssignSame? || op.Exchange? || op.Empty? || op.End?
    ensures
      var points, h := m.book.points, m.holders[op.of];
      && (op.End? ==> m'.holders == m.holders[..op.of] + m.holders[op.of + 1..] && m'.book.points == points - {h})
      && (!op.End? ==> m'.holders == m.holders)
      && (op.Empty? ==> m'.book.points == points[h := null])
      && (op.AssignCopy? ==> CopyFor(m, m', m.holders[op.to], points[h]))
      && (op.AssignSame? ==> m'.book.points == points[m.holders[op.to] := points[h]])
      && (op.Exchange? ==> m'.book.points == points[h := points[m.holders[op.to]]][m.holders[op.to] := points[h]])
  {
    hide Count, Sound;
  }

  /** An operation loses a share exactly when it copies an adapter, and no lost
      share is ever found again. */
  lemma LosesWhenItCopiesAdapter(op: Op, m: Moment, m': Moment)
    requires Fine(m) && Does(op, m, m')
    ensures m.book.lost <= m'.book.lost
    ensures m'.book.lost == m.book.lost <==> !CopiesAdapter(op, m)
  {
    hide Count, Sound;
    if InReach(op, |m.holders|) && (op.CopyOf? || op.AssignCopy?) {
      var h := if op.CopyOf? then m'.holders[|m.holders|] else m.holders[op.to];
      CopyLoses(m, m'.book, h, m.holders[op.of]);
    } else {
      OthersLoseNothing(op, m, m');
    }
  }

  lemma CopyLoses(m: Moment, after: Book, h: Holder, that: Holder)
    requires Fine(m) && that in m.book.points && Copied(m.book, after, h, that)
    ensures m.book.lost <= after.lost
    ensures after.lost == m.book.lost <==> m.book.points[that] == null || m.book.points[that].func == null
  {
  }

  lemma OthersLoseNothing(op: Op, m: Moment, m': Moment)
    requires Fine(m) && Does(op, m, m') && !(InReach(op, |m.holders|) && (op.CopyOf? || op.AssignCopy?))
    ensures m'.book.lost == m.book.lost
  {
    hide Count, Sound;
  }

  /** Over every run, every count is exactly the number of owners, handles and
      adapters if and only if no adapter was ever copied. */
  lemma {:induction false} ExactUnlessAdapterCopied(ops: seq<Op>, run: seq<Moment>)
    requires IsRun(ops, run)
    ensures Exact(run[|ops|].book) <==> forall n :: 0 <= n < |ops| ==> !CopiesAdapter(ops[n], run[n])
    decreases |ops|
  {
    hide Does, Fine, CopiesAdapter;
    if |ops| > 0 {
      var k := |ops| - 1;
      FrontIsRun(ops, run);
      ExactUnlessAdapterCopied(ops[..k], run[..k + 1]);
      assert Follows(ops, run, k);
      LosesWhenItCopiesAdapter(ops[k], run[k], run[k + 1]);
      assert forall n :: 0 <= n < k ==> ops[..k][n] == ops[n] && run[..k + 1][n] == run[n];
    } else {
      assert Exact(START.book);
    }
  }

  lemma FrontIsRun(ops: seq<Op>, run: seq<Moment>)
    requires |ops| > 0 && IsRun(ops, run)
    ensures IsRun(ops[..|ops| - 1], run[..|ops|])
  {
    hide Does, Fine;
    var front, part := ops[..|ops| - 1], run[..|ops|];
    forall n | 0 <= n < |front| ensures Follows(front, part, n) {
      assert Follows(ops, run, n);
    }
  }

  /** When the last owner and the last handle have ended, everything is deleted
      if and only if no adapter was copied during the run. */
  lemma NothingLeftUnlessAdapterCopied(ops: seq<Op>, run: seq<Moment>)
    requires IsRun(ops, run) && run[|ops|].holders == []
    ensures run[|ops|].book.live == {} <==> forall n :: 0 <= n < |ops| ==> !CopiesAdapter(ops[n], run[n])
  {
    ExactUnlessAdapterCopied(ops, run);
    assert run[|ops|].book.points == map[];
    LastHolderGone(run[|ops|].book);
  }

  /** A program that loses a share: it makes a callback, adapts it, and copies the
      adapter. */
  lemma CopiedAdapterLeaks(kind: nat, argument: nat, ops: seq<Op>, run: seq<Moment>)
    requires ops == [MakeCallback(Generic(kind)), MakeAdapter(Typed(kind, argument), 0), CopyOf(1)]
    requires IsRun(ops, run)
    ensures CopiesAdapter(ops[2], run[2]) && !Exact(run[3].book)
  {
    assert Follows(ops, run, 0) && Follows(ops, run, 1);
    assert CopiesAdapter(ops[2], run[2]);
    ExactUnlessAdapterCopied(ops, run);
  }

  /** At every moment of every run, what a holder points to exists. */
  lemma HeldAtEveryMoment(ops: seq<Op>, run: seq<Moment>, n: nat, i: nat)
    requires IsRun(ops, run) && n < |run| && i < |run[n].holders|
    ensures
      var c := run[n].book.points[run[n].holders[i]];
      c != null ==> c in run[n].book.live
  {
    HeldIsLive(run[n].book, run[n].holders[i]);
  }

  // --------------------------------------------------- the program that runs

  lemma OneMoreSlot(holders: seq<Holder>, b: Book, after: Book, h: Holder)
    requires Slots(holders, b) && h !in b.points && h in after.points && after.points == b.points[h := after.points[h]]
    ensures Slots(holders + [h], after)
  {
  }

  lemma OneSlotLess(holders: seq<Holder>, b: Book, after: Book, i: nat)
    requires Slots(holders, b) && i < |holders| && after.points == b.points - {holders[i]}
    ensures Slots(holders[..i] + holders[i + 1..], after)
  {
  }

  /** The operations that make a holder. */
  method Create(op: Op, holders: seq<Holder>, ghost heap: Heap) returns (h: Holder)
    requires heap.Valid() && Slots(holders, heap.book) && InReach(op, |holders|)
    requires op.MakeCallback? || op.MakeAdapter? || op.MakeHandle? || op.MakeTypedHandle? || op.CopyOf?
    requires op.MakeAdapter? ==> CanAdapt(op, Moment(holders, heap.book))
    modifies heap, heap.book.nodes
    ensures heap.Valid() && fresh(heap.book.nodes - old(heap.book.nodes)) && fresh(h)
    ensures Creates(op, Moment(holders, old(heap.book)), heap.book, h)
  {
    hide Count, Sound;
    if op.MakeCallback? {
      h := new Holder.FromFunctor(op.signature, heap);
    } else if op.MakeAdapter? {
      h := new Holder.Adapted(op.signature, holders[op.of], heap);
    } else if op.MakeHandle? {
      h := new Holder.Share(holders[op.of], heap);
    } else if op.MakeTypedHandle? {
      h := new Holder.Recover(op.signature, holders[op.of], heap);
    } else {
      h := new Holder.CopyCallback(holders[op.of], heap);
    }
  }

  /** The operations that move a holder to another callback. */
  method Move(op: Op, holders: seq<Holder>, ghost heap: Heap)
    requires heap.Valid() && Slots(holders, heap.book) && InReach(op, |holders|)
    requires op.AssignCopy? || op.AssignSame? || op.Exchange? || op.Empty?
    modifies heap, heap.book.nodes, holders
    ensures heap.Valid() && fresh(heap.book.nodes - old(heap.book.nodes))
    ensures Moves(op, Moment(holders, old(heap.book)), heap.book)
  {
    hide Count, Sound;
    if op.AssignCopy? {
      holders[op.to].AssignCallback(holders[op.of], heap);
    } else if op.AssignSame? {
      holders[op.to].AssignHandle(holders[op.of], heap);
    } else if op.Exchange? {
      holders[op.of].Swap(holders[op.to], heap);
    } else {
      holders[op.of].Clear(heap);
    }
  }

  lemma CreatingDoes(op: Op, m: Moment, after: Book, h: Holder)
    requires Fine(m) && InReach(op, |m.holders|) && Sound(after) && h !in m.book.points
    requires op.MakeAdapter? ==> CanAdapt(op, m)
    requires Creates(op, m, after, h)
    ensures Does(op, m, Moment(m.holders + [h], after))
  {
    hide Count, Sound;
    OneMoreSlot(m.holders, m.book, after, h);
  }

  lemma MovingDoes(op: Op, m: Moment, after: Book)
    requires Fine(m) && InReach(op, |m.holders|) && Sound(after) && Moves(op, m, after)
    ensures Does(op, m, Moment(m.holders, after))
  {
    hide Count, Sound;
  }

  lemma EndingDoes(op: Op, m: Moment, after: Book)
    requires Fine(m) && op.End? && op.of < |m.holders| && Sound(after)
    requires after == m.book.(points := m.book.points - {m.holders[op.of]}, live := after.live)
    ensures Does(op, m, Moment(m.holders[..op.of] + m.holders[op.of + 1..], after))
  {
    hide Count, Sound;
    OneSlotLess(m.holders, m.book, after, op.of);
  }

  lemma NothingDone(op: Op, m: Moment)
    requires Fine(m)
    requires !InReach(op, |m.holders|) || (op.MakeAdapter? && !CanAdapt(op, m))
    ensures Does(op, m, m)
  {
  }

  method Step(op: Op, holders: seq<Holder>, ghost heap: Heap) returns (r: seq<Holder>)
    requires heap.Valid() && Slots(holders, heap.book)
    modifies heap, heap.book.nodes, holders
    ensures heap.Valid() && fresh(heap.book.nodes - old(heap.book.nodes))
    ensures forall h :: h in r ==> h in holders || fresh(h)
    ensures Does(op, Moment(holders, old(heap.book)), Moment(r, heap.book))
  {
    hide Count, Sound, Does, Creates, Moves;
    r := holders;
    ghost var m := Moment(holders, heap.book);
    if !InReach(op, |holders|) {
      NothingDone(op, m);
    } else if op.End? {
      holders[op.of].Drop(heap);
      EndingDoes(op, m, heap.book);
      r := holders[..op.of] + holders[op.of + 1..];
    } else if op.AssignCopy? || op.AssignSame? || op.Exchange? || op.Empty? {
      Move(op, holders, heap);
      MovingDoes(op, m, heap.book);
    } else if op.MakeAdapter? && (holders[op.of].cb == null || !Wraps(op.signature, holders[op.of].cb.signature)) {
      NothingDone(op, m);
    } else {
      var h := Create(op, holders, heap);
      CreatingDoes(op, m, heap.book, h);
      r := r + [h];
    }
  }

  /** Any program from the start is a run. */
  method Run(ops: seq<Op>) returns (holders: seq<Holder>, ghost heap: Heap, ghost run: seq<Moment>)
    ensures fresh(heap) && heap.Valid() && IsRun(ops, run) && run[|ops|] == Moment(holders, heap.book)
    ensures forall i :: 0 <= i < |holders| ==> holders[i].cb == heap.book.points[holders[i]]
  {
    heap := new Heap();
    holders := [];
    run := [Moment(holders, heap.book)];
    for n := 0 to |ops|
      invariant fresh(heap) && heap.Valid() && Slots(holders, heap.book)
      invariant fresh(heap.book.nodes) && forall h :: h in holders ==> fresh(h)
      invariant IsRun(ops[..n], run) && run[n] == Moment(holders, heap.book)
    {
      holders := Step(ops[n], holders, heap);
      RunGrows(ops, n, run, Moment(holders, heap.book));
      run := run + [Moment(holders, heap.book)];
    }
    assert ops[..|ops|] == ops;
  }

  lemma RunGrows(ops: seq<Op>, n: nat, run: seq<Moment>, m: Moment)
    requires n < |ops| && IsRun(ops[..n], run) && Fine(m) && Does(ops[n], run[n], m)
    ensures IsRun(ops[..n + 1], run + [m])
  {
    hide Does, Fine;
    var front, longer := ops[..n + 1], run + [m];
    forall k | 0 <= k < |front| ensures Follows(front, longer, k) {
      if k < n {
        assert Follows(ops[..n], run, k);
      }
    }
  }
}
