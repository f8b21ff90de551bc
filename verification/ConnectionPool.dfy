/** The fixed pool of connection slots: an index stack over an array. */
module ConnectionPool {
  import opened Text

  const MAX_CONNECTIONS: nat := 16384

  ghost predicate Distinct(s: seq<nat>) {
    forall i, j :: 0 <= i < j < |s| ==> s[i] != s[j]
  }

  ghost predicate Slots(s: seq<nat>) {
    forall i :: 0 <= i < |s| ==> s[i] < MAX_CONNECTIONS
  }

  ghost function Elements(s: seq<nat>): set<nat> {
    set x | x in s
  }

  predicate IsBelow(x: nat, n: nat) {
    x < n
  }

  ghost function Below(n: nat): set<nat> {
    set x: nat {:trigger IsBelow(x, n)} | x < n && IsBelow(x, n)
  }

  lemma {:induction false} BelowSize(n: nat)
    ensures |Below(n)| == n
  {
    if n > 0 {
      BelowSize(n - 1);
      assert Below(n) == Below(n - 1) + {n - 1};
    }
  }

  lemma {:induction false} DistinctSize(s: seq<nat>)
    requires Distinct(s)
    ensures |Elements(s)| == |s|
  {
    if s != [] {
      var init, last := s[..|s| - 1], s[|s| - 1];
      DistinctSize(init);
      assert s == init + [last];
      assert Elements(s) == Elements(init) + {last};
      assert last !in Elements(init);
    }
  }

  /** The slots that are out: those not among the free ones. */
  ghost function Complement(free: seq<nat>): set<nat> {
    Below(MAX_CONNECTIONS) - Elements(free)
  }

  /** The free slots and the ones that are out partition the pool. */
  lemma ComplementSize(free: seq<nat>)
    requires Distinct(free) && Slots(free)
    ensures |Complement(free)| == 16384 - |free|
  {
    DistinctSize(free);
    BelowSize(MAX_CONNECTIONS);
    assert Elements(free) <= Below(MAX_CONNECTIONS);
  }

  /** Handing out the head of the free slots. */
  lemma PopFree(free: seq<nat>)
    requires Distinct(free) && Slots(free) && free != []
    ensures free[0] !in Complement(free)
    ensures Complement(free[1..]) == Complement(free) + {free[0]}
  {
    assert free == [free[0]] + free[1..];
    assert Elements(free) == Elements(free[1..]) + {free[0]};
    assert free[0] !in Elements(free[1..]);
    assert IsBelow(free[0], MAX_CONNECTIONS);
  }

  /** Giving a slot that is out back on top of the free ones. */
  lemma PushFree(idx: nat, free: seq<nat>)
    requires Distinct(free) && Slots(free) && idx in Complement(free)
    ensures |free| < MAX_CONNECTIONS
    ensures Distinct([idx] + free) && Slots([idx] + free)
    ensures Complement([idx] + free) == Complement(free) - {idx}
  {
    ComplementSize(free);
    OnTop(idx, free);
    assert Complement([idx] + free) == Complement(free) - {idx};
  }

  lemma OnTop(idx: nat, free: seq<nat>)
    requires Distinct(free) && Slots(free) && idx < MAX_CONNECTIONS && idx !in Elements(free)
    ensures Distinct([idx] + free) && Slots([idx] + free)
    ensures Elements([idx] + free) == Elements(free) + {idx}
  {
    assert forall x :: x in free ==> x in Elements(free);
  }

  lemma FreshPool(free: seq<nat>)
    requires |free| == MAX_CONNECTIONS && forall j :: 0 <= j < |free| ==> free[j] == j
    ensures Distinct(free) && Slots(free) && Complement(free) == {}
  {
    forall x | x in Below(MAX_CONNECTIONS) ensures x in free {
      assert free[x] == x;
    }
  }

  class ConnectionPool {
    const freeList: array<nat>
    var freeHead: nat
    var activeCount: nat

    /** The suffix of the stack from its head; the prefix may hold anything. */
    ghost function Free(): seq<nat>
      requires freeHead <= freeList.Length
      reads this, freeList
    {
      freeList[freeHead..]
    }

    ghost function Acquired(): set<nat>
      requires freeHead <= freeList.Length
      reads this, freeList
    {
      Complement(Free())
    }

    ghost predicate Valid()
      reads this, freeList
    {
      && freeList.Length == MAX_CONNECTIONS
      && freeHead <= MAX_CONNECTIONS
      && activeCount == freeHead
      && Distinct(Free()) && Slots(Free())
    }

    constructor ()
      ensures Valid() && fresh(freeList)
      ensures Acquired() == {} && activeCount == 0
    {
      freeList := new nat[MAX_CONNECTIONS];
      freeHead, activeCount := 0, 0;
      new;
      for i := 0 to MAX_CONNECTIONS
        invariant freeHead == activeCount == 0
        invariant forall j :: 0 <= j < i ==> freeList[j] == j
      {
        freeList[i] := i;
      }
      FreshPool(Free());
    }

    /** Fails exactly when every slot is out. */
    method Acquire() returns (idx: Option<nat>)
      requires Valid()
      modifies this
      ensures Valid()
      ensures idx == None <==> old(Acquired()) == Below(16384)
      ensures idx == None ==> Acquired() == old(Acquired())
      ensures idx.Some? ==> idx.value < MAX_CONNECTIONS && idx.value !in old(Acquired())
      ensures idx.Some? ==> Acquired() == old(Acquired()) + {idx.value}
      ensures idx.Some? ==> activeCount == old(activeCount) + 1
    {
      ghost var free := Free();
      if freeHead >= MAX_CONNECTIONS {
        assert Elements(free) == {};
        return None;
      }
      PopFree(free);
      assert free[0] in Below(MAX_CONNECTIONS) by { assert IsBelow(free[0], MAX_CONNECTIONS); }
      idx := Some(freeList[freeHead]);
      freeHead := freeHead + 1;
      activeCount := activeCount + 1;
      assert Free() == free[1..];
    }

    /** Gives an acquired slot back; an index outside the pool is ignored. */
    method Release(idx: nat)
      requires Valid()
      requires idx < MAX_CONNECTIONS ==> idx in Acquired()
      modifies this, freeList
      ensures Valid()
      ensures Acquired() == old(Acquired()) - {idx}
    {
      if idx >= MAX_CONNECTIONS { return; }
      ghost var free := Free();
      PushFree(idx, free);
      freeHead := freeHead - 1;
      freeList[freeHead] := idx;
      activeCount := activeCount - 1;
      assert Free() == [idx] + free;
    }

    /** The counter is the number of slots that are out. */
    lemma ActiveCountIsAcquired()
      requires Valid()
      ensures activeCount == |Acquired()|
    {
      ComplementSize(Free());
    }
  }
}
