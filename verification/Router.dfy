/** The address table of the router of example 9. */
module Router {

  const UINT_SPAN: int := 0x1_0000_0000
  const INT_SPAN: int := 0x8000_0000

  /** The conversion from `int` to `unsigned int`. */
  function AsUnsigned(i: int): int {
    i % UINT_SPAN
  }

  datatype Row = Row(target: int, start: int, end: int)

  datatype Answer = AddressError | To(target: int) | Unanswered

  /** The row that `before_end_of_elaboration` writes for one target. */
  function RowOf(size: int, i: int): Row {
    Row(i, AsUnsigned(i * size), AsUnsigned((i + 1) * size - 1))
  }

  predicate Holds(r: Row, addr: int) {
    r.start <= addr <= r.end
  }

  /** The answer is that of the first row that holds the address. */
  ghost predicate Answers(table: seq<Row>, limit: int, addr: int, answer: Answer) {
    match answer
    case AddressError => addr >= limit
    case Unanswered => addr < limit && forall i :: 0 <= i < |table| ==> !Holds(table[i], addr)
    case To(t) =>
      && addr < limit
      && exists i :: 0 <= i < |table| && Holds(table[i], addr) && table[i].target == t
                     && forall k :: 0 <= k < i ==> !Holds(table[k], addr)
  }

  class Router {
    const targets: int   // r_targets
    const addrLimit: int // addr_limit
    var addrSize: int
    var targetIndex: seq<int>
    var addrStart: seq<int>
    var addrEnd: seq<int>

    /** Division by zero and overflow of `int` have no meaning in C++. */
    constructor (targets: int, addrLimit: int)
      requires 0 < targets < INT_SPAN && 0 <= addrLimit < INT_SPAN
      ensures this.targets == targets && this.addrLimit == addrLimit && Complete() && Table() == []
    {
      this.targets, this.addrLimit := targets, addrLimit;
      addrSize, targetIndex, addrStart, addrEnd := 0, [], [], [];
    }

    predicate Complete()
      reads this
    {
      |targetIndex| == |addrStart| == |addrEnd|
    }

    ghost function Table(): seq<Row>
      requires Complete()
      reads this
    {
      seq(|targetIndex|, i requires 0 <= i < |targetIndex| && Complete() reads this =>
        Row(targetIndex[i], addrStart[i], addrEnd[i]))
    }

    method BeforeEndOfElaboration()
      requires 0 < targets < INT_SPAN && 0 <= addrLimit < INT_SPAN && Complete() && Table() == []
      modifies this
      ensures Complete() && Table() == DefaultTable(targets, addrLimit)
    {
      addrSize := addrLimit / targets;
      var i := 0;
      while i < targets
        invariant 0 <= i <= targets && addrSize == addrLimit / targets
        invariant Complete() && |targetIndex| == i
        invariant forall k :: 0 <= k < i ==>
                    Row(targetIndex[k], addrStart[k], addrEnd[k]) == RowOf(addrSize, k)
      {
        targetIndex := targetIndex + [i];
        addrStart := addrStart + [AsUnsigned(i * addrSize)];
        addrEnd := addrEnd + [AsUnsigned((i + 1) * addrSize - 1)];
        i := i + 1;
      }
    }

    /** The routing part of `b_transport`, whatever the table holds. */
    method Transport(addr: nat) returns (answer: Answer)
      requires Complete()
      ensures Answers(Table(), addrLimit, addr, answer)
    {
      if addr >= addrLimit {
        return AddressError;
      }
      answer := Unanswered;
      var i := 0;
      while i < |targetIndex|
        invariant 0 <= i <= |targetIndex| && answer == Unanswered
        invariant forall k :: 0 <= k < i ==> !Holds(Table()[k], addr)
      {
        if addr >= addrStart[i] && addr <= addrEnd[i] {
          assert Holds(Table()[i], addr);
          answer := To(targetIndex[i]);
          break;
        }
        i := i + 1;
      }
    }
  }

  ghost function DefaultTable(n: int, limit: int): seq<Row>
    requires n > 0
  {
    seq(n, i => RowOf(limit / n, i))
  }

  // ---------------------------------------------------------------- lemmas

  lemma Monotone(a: int, b: int, s: int)
    requires a <= b && s >= 0
    ensures a * s <= b * s
  {
  }

  /** Without wrap-around a row holds one block of addresses. */
  lemma RowIsBlock(n: int, limit: int, i: int)
    requires 0 < n <= limit < INT_SPAN && 0 <= i < n
    ensures
      var s := limit / n;
      s > 0 && n * s <= limit && RowOf(s, i) == Row(i, i * s, (i + 1) * s - 1)
  {
    var s := limit / n;
    assert n * s <= limit && s > 0;
    Monotone(0, i, s);
    Monotone(i + 1, n, s);
    assert (i + 1) * s == i * s + s;
  }

  lemma SameBlock(q: int, i: int, s: int, addr: int)
    requires s > 0 && q * s <= addr < q * s + s
    ensures i * s <= addr < i * s + s <==> q == i
  {
    if q < i {
      Monotone(q + 1, i, s);
    } else if i < q {
      Monotone(i + 1, q, s);
    }
  }

  /** A row holds exactly the addresses whose block number is its own. */
  lemma HoldsOwnBlock(n: int, limit: int, i: int, addr: int)
    requires 0 < n <= limit < INT_SPAN && 0 <= i < n && addr >= 0
    ensures limit / n > 0
    ensures Holds(RowOf(limit / n, i), addr) <==> addr / (limit / n) == i
  {
    var s := limit / n;
    RowIsBlock(n, limit, i);
    SameBlock(addr / s, i, s, addr);
  }

  lemma OneRowHolds(table: seq<Row>, q: int, limit: int, addr: int, answer: Answer)
    requires forall i :: 0 <= i < |table| ==> (Holds(table[i], addr) <==> q == i) && table[i].target == i
    requires addr < limit && 0 <= q && Answers(table, limit, addr, answer)
    ensures answer == if q < |table| then To(q) else Unanswered
  {
    if q < |table| {
      assert Holds(table[q], addr);
    }
  }

  lemma NoWholeBlock(n: int, limit: int)
    requires 0 <= limit < n
    ensures limit / n == 0
  {
  }

  lemma AllToFirst(n: int, limit: int, addr: int, answer: Answer)
    requires 0 <= limit < n < INT_SPAN && 0 <= addr < limit
    requires Answers(DefaultTable(n, limit), limit, addr, answer)
    ensures answer == To(0)
  {
    var table := DefaultTable(n, limit);
    NoWholeBlock(n, limit);
    assert table[0] == RowOf(0, 0) == Row(0, 0, UINT_SPAN - 1);
    assert Holds(table[0], addr);
  }

  lemma ToOwnBlock(n: int, limit: int, addr: int, answer: Answer)
    requires 0 < n <= limit < INT_SPAN && 0 <= addr < limit
    requires Answers(DefaultTable(n, limit), limit, addr, answer)
    ensures limit / n > 0
    ensures answer == if addr < n * (limit / n) then To(addr / (limit / n)) else Unanswered
  {
    var table, s := DefaultTable(n, limit), limit / n;
    forall i | 0 <= i < n ensures Holds(table[i], addr) <==> addr / s == i {
      HoldsOwnBlock(n, limit, i, addr);
    }
    RowIsBlock(n, limit, 0);
    BlockExists(n, s, addr);
    OneRowHolds(table, addr / s, limit, addr, answer);
  }

  /** With at most as many targets as addresses, each address below the last
      whole block goes to the target with its block number and the others below
      the limit to none; with more targets everything goes to target 0. */
  lemma Routing(n: int, limit: int, addr: int, answer: Answer)
    requires 0 < n < INT_SPAN && 0 <= limit < INT_SPAN && addr >= 0
    requires Answers(DefaultTable(n, limit), limit, addr, answer)
    ensures n <= limit ==> limit / n > 0
    ensures answer == if addr >= limit then AddressError
                      else if n > limit then To(0)
                      else if addr < n * (limit / n) then To(addr / (limit / n))
                      else Unanswered
  {
    if addr < limit && n > limit {
      AllToFirst(n, limit, addr, answer);
    } else if addr < limit {
      ToOwnBlock(n, limit, addr, answer);
    } else {
      assert answer == AddressError;
    }
    if n <= limit {
      RowIsBlock(n, limit, 0);
    }
  }

  lemma BlockExists(n: int, s: int, addr: int)
    requires n > 0 && s > 0 && addr >= 0
    ensures 0 <= addr / s && (addr / s < n <==> addr < n * s)
  {
    var q := addr / s;
    assert q * s <= addr < q * s + s;
    if q < n {
      Monotone(q + 1, n, s);
      assert (q + 1) * s == q * s + s;
    } else {
      Monotone(n, q, s);
    }
  }

  ghost predicate Disjoint(table: seq<Row>) {
    forall i, k :: 0 <= i < k < |table| ==>
      forall addr :: 0 <= addr ==> !(Holds(table[i], addr) && Holds(table[k], addr))
  }

  /** The rows are disjoint exactly if there is an address for each target, or
      one target only. */
  lemma DisjointRows(n: int, limit: int)
    requires 0 < n < INT_SPAN && 0 <= limit < INT_SPAN
    ensures Disjoint(DefaultTable(n, limit)) <==> n <= limit || n == 1
  {
    var table := DefaultTable(n, limit);
    if n <= limit {
      forall i, k, addr: int | 0 <= i < k < |table| && 0 <= addr
        ensures !(Holds(table[i], addr) && Holds(table[k], addr))
      {
        HoldsOwnBlock(n, limit, i, addr);
        HoldsOwnBlock(n, limit, k, addr);
      }
    } else if n > 1 {
      NoWholeBlock(n, limit);
      assert Holds(table[0], 0) && Holds(table[1], 0);
    }
  }

  /** The rows cover exactly the addresses below the last whole block. */
  lemma RowsCover(n: int, limit: int, addr: int)
    requires 0 < n <= limit < INT_SPAN && addr >= 0
    ensures (exists i :: 0 <= i < n && Holds(DefaultTable(n, limit)[i], addr)) <==> addr < n * (limit / n)
  {
    var table, s := DefaultTable(n, limit), limit / n;
    forall i | 0 <= i < n ensures Holds(table[i], addr) <==> addr / s == i {
      HoldsOwnBlock(n, limit, i, addr);
    }
    RowIsBlock(n, limit, 0);
    BlockExists(n, s, addr);
    if addr < n * s {
      assert Holds(table[addr / s], addr);
    }
  }
}
