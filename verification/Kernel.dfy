/** The kernel as the server sees it: the descriptor table, the kqueue registrations, and a
    clock that does not go back. */
module Kernel {
  datatype Filter = ReadFilter | WriteFilter | TimerFilter

  /** What a descriptor stands for. Serial numbers tell the uses of a number apart. */
  datatype Handle =
    | Listener(serial: nat)
    | Socket(serial: nat)
    | File(serial: nat, content: string)

  type Registry = map<(int, Filter), object>

  /** One entry of a change list: EV_ADD with its udata, or EV_DELETE. */
  datatype Change = Add(ident: int, filter: Filter, udata: object) | Delete(ident: int, filter: Filter)

  function ApplyOne(m: Registry, c: Change): Registry {
    match c
    case Add(ident, filter, udata) => m[(ident, filter) := udata]
    case Delete(ident, filter) => m - {(ident, filter)}
  }

  /** The registrations after a list of changes, applied in order. */
  function ApplyAll(m: Registry, cs: seq<Change>): Registry {
    if cs == [] then m else ApplyOne(ApplyAll(m, cs[..|cs| - 1]), cs[|cs| - 1])
  }

  /** Closing descriptors drops their registrations; a timer is not tied to one. */
  function Forget(m: Registry, fds: set<int>): Registry {
    map key | key in m && (key.0 !in fds || key.1 == TimerFilter) :: m[key]
  }

  /** Only EV_DELETE entries. */
  predicate OnlyDeletes(cs: seq<Change>) {
    forall i :: 0 <= i < |cs| ==> cs[i].Delete?
  }

  lemma ApplyAppend(m: Registry, cs: seq<Change>, c: Change)
    ensures ApplyAll(m, cs + [c]) == ApplyOne(ApplyAll(m, cs), c)
  {
    assert (cs + [c])[..|cs|] == cs;
  }

  lemma ApplyTwo(m: Registry, cs: seq<Change>, c: Change, d: Change)
    ensures ApplyAll(m, cs + [c, d]) == ApplyOne(ApplyOne(ApplyAll(m, cs), c), d)
  {
    var s := cs + [c, d];
    assert s[..|s| - 1] == cs + [c];
    ApplyAppend(m, cs, c);
  }

  /** A list of two changes, in either order when they concern different entries. */
  lemma ApplyPair(m: Registry, c: Change, d: Change)
    ensures ApplyAll(m, [c, d]) == ApplyOne(ApplyOne(m, c), d)
  {
    ApplyTwo(m, [], c, d);
    assert [] + [c, d] == [c, d];
    assert ApplyAll(m, []) == m;
  }

  lemma DifferentEntriesCommute(m: Registry, fd: int, on: Filter, off: Filter, udata: object)
    requires on != off
    ensures (m - {(fd, off)})[(fd, on) := udata] == m[(fd, on) := udata] - {(fd, off)}
  {
  }

  /** Closing commutes with pending changes that add nothing on the closed descriptors. */
  lemma {:induction false} ForgetAfterChanges(m: Registry, cs: seq<Change>, fds: set<int>)
    requires forall i :: 0 <= i < |cs| && cs[i].Add? ==> cs[i].ident !in fds
    ensures ApplyAll(Forget(m, fds), cs) == Forget(ApplyAll(m, cs), fds)
  {
    if cs != [] {
      ForgetAfterChanges(m, cs[..|cs| - 1], fds);
    }
  }

  // ---- The ledger of handles ----

  ghost predicate IsOpen(open: map<int, Handle>, n: nat) {
    exists fd :: fd in open && open[fd].serial == n
  }

  /** Conservation: every handle ever issued is open under one number or has been closed,
      never both. */
  ghost predicate Ledger(open: map<int, Handle>, issued: nat, closed: set<nat>) {
    && (forall fd :: fd in open ==> fd >= 0 && open[fd].serial < issued && open[fd].serial !in closed)
    && (forall fd, fd' :: fd in open && fd' in open && fd != fd' ==> open[fd].serial != open[fd'].serial)
    && (forall n :: n in closed ==> n < issued)
    && (forall n: nat {:trigger IsOpen(open, n)} :: n < issued && n !in closed ==> IsOpen(open, n))
  }

  lemma LedgerIssue(open: map<int, Handle>, issued: nat, closed: set<nat>, fd: int, h: Handle)
    requires Ledger(open, issued, closed) && fd >= 0 && fd !in open && h.serial == issued
    ensures Ledger(open[fd := h], issued + 1, closed)
  {
    var next := open[fd := h];
    forall n: nat | n < issued + 1 && n !in closed ensures IsOpen(next, n) {
      if n == issued {
        assert next[fd].serial == n;
      } else {
        assert IsOpen(open, n);
        var f :| f in open && open[f].serial == n;
        assert next[f].serial == n;
      }
    }
  }

  lemma LedgerClose(open: map<int, Handle>, issued: nat, closed: set<nat>, fd: int)
    requires Ledger(open, issued, closed) && fd in open
    ensures Ledger(open - {fd}, issued, closed + {open[fd].serial})
  {
    var next := open - {fd};
    forall n: nat | n < issued && n !in closed + {open[fd].serial} ensures IsOpen(next, n) {
      assert IsOpen(open, n);
      var f :| f in open && open[f].serial == n;
      assert next[f].serial == n;
    }
  }

  class Kernel {
    /** The open descriptors. */
    var open: map<int, Handle>
    var regs: Registry
    var now: int
    var issued: nat
    ghost var closed: set<nat>

    ghost predicate Valid()
      reads `open, `regs, `issued, `closed
    {
      && Ledger(open, issued, closed)
      && (forall key :: key in regs && key.1 != TimerFilter ==> key.0 in open)
    }

    constructor ()
      ensures Valid() && open == map[] && regs == map[] && issued == 0 && closed == {}
    {
      open, regs, now, issued, closed := map[], map[], 0, 0, {};
    }

    /** A new descriptor under the proposed number; -1, the failure of the call, when
        that number is in use. */
    method Accept(hint: int) returns (fd: int)
      requires Valid()
      modifies this
      ensures Valid() && regs == old(regs) && now == old(now) && closed == old(closed)
      ensures fd == -1 ==> (hint < 0 || hint in open) && open == old(open) && issued == old(issued)
      ensures fd != -1 ==> fd == hint >= 0 && fd !in old(open) && issued == old(issued) + 1
      ensures fd != -1 ==> open == old(open)[fd := Socket(old(issued))]
    {
      fd := Issue(hint, Socket(issued));
    }

    method OpenFile(hint: int, content: string) returns (fd: int)
      requires Valid()
      modifies this
      ensures Valid() && regs == old(regs) && now == old(now) && closed == old(closed)
      ensures fd == -1 ==> (hint < 0 || hint in open) && open == old(open) && issued == old(issued)
      ensures fd != -1 ==> fd == hint >= 0 && fd !in old(open) && issued == old(issued) + 1
      ensures fd != -1 ==> open == old(open)[fd := File(old(issued), content)]
    {
      fd := Issue(hint, File(issued, content));
    }

    method Listen(hint: int) returns (fd: int)
      requires Valid()
      modifies this
      ensures Valid() && regs == old(regs) && now == old(now) && closed == old(closed)
      ensures fd == -1 ==> (hint < 0 || hint in open) && open == old(open) && issued == old(issued)
      ensures fd != -1 ==> fd == hint >= 0 && fd !in old(open) && issued == old(issued) + 1
      ensures fd != -1 ==> open == old(open)[fd := Listener(old(issued))]
    {
      fd := Issue(hint, Listener(issued));
    }

    method Issue(hint: int, h: Handle) returns (fd: int)
      requires Valid() && h.serial == issued
      modifies this
      ensures Valid() && regs == old(regs) && now == old(now) && closed == old(closed)
      ensures fd == -1 ==> (hint < 0 || hint in open) && open == old(open) && issued == old(issued)
      ensures fd != -1 ==> fd == hint >= 0 && fd !in old(open) && issued == old(issued) + 1
      ensures fd != -1 ==> open == old(open)[fd := h]
    {
      if hint < 0 || hint in open { return -1; }
      fd := hint;
      LedgerIssue(open, issued, closed, fd, h);
      open := open[fd := h];
      issued := issued + 1;
    }

    /** `close`: only ever asked for an open descriptor. */
    method Close(fd: int)
      requires Valid() && fd in open
      modifies this
      ensures Valid() && issued == old(issued) && now == old(now)
      ensures open == old(open) - {fd}
      ensures regs == Forget(old(regs), {fd})
      ensures closed == old(closed) + {old(open)[fd].serial}
    {
      LedgerClose(open, issued, closed, fd);
      closed := closed + {open[fd].serial};
      open := open - {fd};
      regs := Forget(regs, {fd});
    }

    /** Submitting a change list. No closed descriptor is ever added. */
    method Submit(changes: seq<Change>)
      requires Valid() && AddsOpen(changes)
      modifies this`regs
      ensures Valid() && open == old(open) && now == old(now) && issued == old(issued) && closed == old(closed)
      ensures regs == ApplyAll(old(regs), changes)
    {
      RegisteredAreOpen(regs, changes, open.Keys);
      regs := ApplyAll(regs, changes);
    }

    /** Every addition on a descriptor names an open one. */
    ghost predicate AddsOpen(changes: seq<Change>)
      reads `open
    {
      forall i :: 0 <= i < |changes| && changes[i].Add? && changes[i].filter != TimerFilter ==> changes[i].ident in open
    }

    /** The clock moves on by an arbitrary amount. */
    method Tick(elapsed: nat)
      requires Valid()
      modifies this`now
      ensures Valid() && now == old(now) + elapsed
    {
      now := now + elapsed;
    }
  }

  lemma {:induction false} RegisteredAreOpen(m: Registry, cs: seq<Change>, open: set<int>)
    requires forall key :: key in m && key.1 != TimerFilter ==> key.0 in open
    requires forall i :: 0 <= i < |cs| && cs[i].Add? && cs[i].filter != TimerFilter ==> cs[i].ident in open
    ensures forall key :: key in ApplyAll(m, cs) && key.1 != TimerFilter ==> key.0 in open
  {
    if cs != [] {
      RegisteredAreOpen(m, cs[..|cs| - 1], open);
    }
  }

  /** The kernel after some descriptors were closed and nothing else happened. */
  twostate predicate Dropped(k: Kernel, fds: set<int>)
    reads k
  {
    && k.open == old(k.open) - fds
    && k.regs == Forget(old(k.regs), fds)
    && k.now == old(k.now)
  }

  /** Closing in two steps. */
  lemma DroppedTwice(open: map<int, Handle>, m: Registry, a: set<int>, b: set<int>)
    ensures open - a - b == open - (a + b)
    ensures Forget(Forget(m, a), b) == Forget(m, a + b)
  {
  }

  lemma DroppedNothing(open: map<int, Handle>, m: Registry)
    ensures open - {} == open && Forget(m, {}) == m
  {
  }
}
