/** The event loop: connection slots, the intrusive keep-alive list, and the deferred list
    of kqueue changes. */
module EventLoop {
  import opened Text
  import opened States
  import opened Sending
  import opened SendingRuns
  import opened Kernel
  import opened Connection
  import opened Responding
  import opened Wakeups
  import opened Journal
  import Session
  import Client
  import Wants
  import CP = ConnectionPool
  import FileServer
  import ByteRange
  import HttpRequest
  import HttpResponse

  /** The address of a tag byte, used as udata. */
  class Tag {
    constructor () { }
  }

  const TIMER_IDENT := 1

  function Other(f: Filter): Filter {
    if f == ReadFilter then WriteFilter else ReadFilter
  }

  // ---- The keep-alive list as a sequence ----

  /** `s` with the members of `gone` taken out, the rest in order. */
  function Without(s: seq<Connection>, gone: set<Connection>): seq<Connection> {
    if s == [] then [] else (if s[0] in gone then [] else [s[0]]) + Without(s[1..], gone)
  }

  lemma {:induction false} WithoutAbsent(s: seq<Connection>, gone: set<Connection>)
    requires forall c :: c in s ==> c !in gone
    ensures Without(s, gone) == s
  {
    if s != [] {
      WithoutAbsent(s[1..], gone);
    }
  }

  lemma {:induction false} WithoutConcat(a: seq<Connection>, b: seq<Connection>, gone: set<Connection>)
    ensures Without(a + b, gone) == Without(a, gone) + Without(b, gone)
  {
    if a == [] {
      assert a + b == b;
    } else {
      assert (a + b)[1..] == a[1..] + b;
      WithoutConcat(a[1..], b, gone);
    }
  }

  lemma {:induction false} WithoutTwice(s: seq<Connection>, a: set<Connection>, b: set<Connection>)
    ensures Without(Without(s, a), b) == Without(s, a + b)
  {
    if s != [] {
      var head := if s[0] in a then [] else [s[0]];
      WithoutTwice(s[1..], a, b);
      WithoutConcat(head, Without(s[1..], a), b);
      WithoutOne(s[0], b);
    }
  }

  lemma WithoutOne(c: Connection, gone: set<Connection>)
    ensures Without([c], gone) == if c in gone then [] else [c]
  {
    assert [c][1..] == [];
  }

  ghost predicate AllDistinct(s: seq<Connection>) {
    forall i, j :: 0 <= i < j < |s| ==> s[i] != s[j]
  }

  /** In a list without repetitions, taking out the element at `k` closes the gap. */
  lemma WithoutAt(s: seq<Connection>, k: nat)
    requires AllDistinct(s) && k < |s|
    ensures Without(s, {s[k]}) == s[..k] + s[k + 1..]
  {
    var c, a, b := s[k], s[..k], s[k + 1..];
    AroundDistinct(s, k);
    WithoutConcat(a, [c] + b, {c});
    WithoutConcat([c], b, {c});
    WithoutAbsent(a, {c});
    WithoutAbsent(b, {c});
    WithoutOne(c, {c});
    assert [] + b == b;
  }

  lemma AroundDistinct(s: seq<Connection>, k: nat)
    requires AllDistinct(s) && k < |s|
    ensures s == s[..k] + ([s[k]] + s[k + 1..])
    ensures s[k] !in s[..k] && s[k] !in s[k + 1..]
  {
  }

  /** The pool's connections, each knowing its index. */
  method NewSlots() returns (cs: seq<Connection>)
    ensures |cs| == CP.MAX_CONNECTIONS
    ensures forall i :: 0 <= i < |cs| ==> fresh(cs[i]) && cs[i].slot == i
    ensures forall i :: 0 <= i < |cs| ==> cs[i].Inner() && cs[i].out == IDLE && !cs[i].inList
  {
    cs := [];
    for i := 0 to CP.MAX_CONNECTIONS
      invariant |cs| == i
      invariant forall j :: 0 <= j < i ==> fresh(cs[j]) && cs[j].slot == j
      invariant forall j :: 0 <= j < i ==> cs[j].Inner() && cs[j].out == IDLE && !cs[j].inList
    {
      var c := new Connection(i);
      cs := cs + [c];
    }
  }

  class EventLoop {
    const pool: CP.ConnectionPool
    const kernel: Kernel
    const conns: seq<Connection>
    const listenFd: int
    const listenerTag: Tag
    const timerTag: Tag
    const tlsAvailable: bool
    const timeout: int

    var keepaliveHead: Connection?
    var changelist: seq<Change>

    /** The connections of the pool. */
    ghost const slots: set<Connection>
    /** The keep-alive list, head first. */
    ghost var ka: seq<Connection>
    /** The last connection each descriptor was given to. */
    ghost var owner: map<int, Connection>
    /** What each connection has lived through since it was last opened. */
    ghost var stories: map<Connection, Story>

    // ---- The invariant ----

    ghost predicate Slotted() {
      && |conns| == CP.MAX_CONNECTIONS
      && (forall i :: 0 <= i < |conns| ==> conns[i] in slots && conns[i].slot == i)
      && (forall c :: c in slots ==> c.slot < |conns| && conns[c.slot] == c)
      && listenerTag != timerTag
    }

    /** A well-formed doubly linked list: the ghost sequence has no repetition, prev and
        next are the neighbours, and the flag marks membership. */
    ghost predicate ListOk()
      reads `ka, `keepaliveHead, slots`prev, slots`next, slots`inList
    {
      && AllDistinct(ka)
      && keepaliveHead == (if ka == [] then null else ka[0])
      && (forall i :: 0 <= i < |ka| ==> LinkedAt(i))
      && (forall c :: c in slots && c.inList ==> c in ka)
    }

    ghost predicate LinkedAt(i: nat)
      requires i < |ka|
      reads `ka, slots`prev, slots`next, slots`inList
    {
      && ka[i] in slots
      && ka[i].inList
      && ka[i].prev == (if i == 0 then null else ka[i - 1])
      && ka[i].next == (if i + 1 < |ka| then ka[i + 1] else null)
    }

    /** Every connection is sound by itself, its handles are open, and each handle was last
        given to it: so no two connections hold the same one. */
    ghost predicate ConnsOk()
      reads `owner, slots`fd, slots`fileFd, slots`out, slots`readBuf, slots`request, kernel`open
    {
      forall c :: c in slots ==> c.Inner() && c.Holds(kernel) && Owns(c)
    }

    ghost predicate Owns(c: Connection)
      reads `owner, c`fd, c`fileFd
    {
      && (c.fd != -1 ==> c.fd in owner && owner[c.fd] == c)
      && (c.fileFd != -1 ==> c.fileFd in owner && owner[c.fileFd] == c)
    }

    /** Every open socket, but for `extra`, belongs to the live connection that holds it. */
    ghost predicate SocketsOwned(extra: int)
      reads `owner, slots`fd, kernel`open
    {
      forall fd :: fd in kernel.open && kernel.open[fd].Socket? && fd != extra ==>
                     fd in owner && owner[fd] in slots && owner[fd].fd == fd
    }

    /** The list holds exactly the connections in KEEP_ALIVE; `busy` may be between states. */
    ghost predicate ListedIffIdle(busy: Connection?)
      reads slots`out, slots`inList
    {
      forall c :: c in slots && c != busy ==> (c.inList <==> c.out.state == KEEP_ALIVE)
    }

    /** A free slot is closed. */
    ghost predicate PoolOk()
      reads slots`out, pool, pool.freeList
    {
      pool.Valid() && forall c :: c in slots && c.out.state != CLOSED ==> c.slot in pool.Acquired()
    }

    ghost predicate ListenerOpen()
      reads kernel`open, kernel`regs, kernel`issued, kernel`closed
    {
      kernel.Valid() && listenFd in kernel.open && kernel.open[listenFd].Listener?
    }

    /** The filter for the direction last waited for. */
    ghost function Wanted(c: Connection): Filter
      reads `stories
    {
      if c in stories then FilterFor(stories[c]) else ReadFilter
    }

    /** Exactly one filter of a live connection is registered, that of its last want, and
        it names the connection. */
    ghost predicate Armed(m: Registry, c: Connection)
      reads `stories, c`fd
    {
      && (c.fd, Wanted(c)) in m && m[(c.fd, Wanted(c))] == c
      && (c.fd, Other(Wanted(c))) !in m
    }

    /** What an entry may be: the listener, the timer, or a live connection's own. */
    ghost predicate Known(key: (int, Filter), udata: object)
      reads slots`fd
    {
      || (key == (listenFd, ReadFilter) && udata == listenerTag)
      || (key == (TIMER_IDENT, TimerFilter) && udata == timerTag)
      || (key.1 != TimerFilter && exists c :: c in slots && c == udata && c.fd == key.0 != -1)
    }

    /** The story of a live connection ends with what it is now; a closed one has none. */
    ghost predicate Recorded(c: Connection)
      reads `stories, c`out, c`readBuf, c`lastActive
    {
      if c.out.state == CLOSED then c !in stories
      else c in stories && stories[c].last == c.lastActive && Tells(stories[c], tlsAvailable, c.out, c.readBuf)
    }

    ghost predicate HistoryOk()
      reads `stories, slots`out, slots`readBuf, slots`lastActive
    {
      stories.Keys <= slots && forall c :: c in slots ==> Recorded(c)
    }

    /** The book of the journal, as it is now. */
    ghost function Book(): Journal.Book
      requires pool.Valid()
      reads `stories, pool, pool.freeList, kernel`now
    {
      Journal.Book(stories, pool.Acquired(), kernel.now)
    }

    function Config(): Setting {
      Setting(listenerTag, timerTag, tlsAvailable, timeout)
    }

    /** Stories stay true of connections that stay as they are, together with theirs; the
        others must be closed without one, or have a true story of their own. */
    twostate lemma HistoryKept()
      requires old(HistoryOk()) && stories.Keys <= slots
      requires forall c :: c in slots ==>
                 Recorded(c)
                 || (&& c.out == old(c.out) && c.readBuf == old(c.readBuf) && c.lastActive == old(c.lastActive)
                     && (c in stories <==> c in old(stories)) && (c in stories ==> stories[c] == old(stories)[c]))
      ensures HistoryOk()
    {
      hide Tells;
      forall c | c in slots ensures Recorded(c) {
        assert old(Recorded(c));
      }
    }

    lemma IsRecorded(conn: Connection)
      requires conn.out.state != CLOSED && conn in stories && stories[conn].last == conn.lastActive
      requires Tells(stories[conn], tlsAvailable, conn.out, conn.readBuf)
      ensures Recorded(conn)
    {
    }

    lemma NewlyRecorded(c: Connection)
      requires c in stories && Begins(c, stories[c])
      ensures Recorded(c)
    {
    }

    lemma StoryOf(conn: Connection)
      requires HistoryOk() && conn in slots && conn.out.state != CLOSED
      ensures conn in stories && stories[conn].last == conn.lastActive
      ensures Tells(stories[conn], tlsAvailable, conn.out, conn.readBuf)
    {
      hide Tells;
      assert Recorded(conn);
    }

    /** Exactly the live connections have stories. */
    lemma AllStories()
      requires HistoryOk()
      ensures forall c :: c in slots && c.out.state != CLOSED ==> c in stories
      ensures forall c :: c in stories ==> c in slots && c.out.state != CLOSED
      ensures forall c :: c in stories ==> stories[c].last == c.lastActive && Now(stories[c]) == c.out
    {
      hide Now, NowBuf, Chain;
      assert forall c :: c in slots ==> Recorded(c);
    }

    /** The stories of closed connections end. */
    ghost method EndStories(gone: set<Connection>)
      requires Running() && forall c :: c in gone ==> c in slots && c.out.state == CLOSED
      modifies `stories
      ensures Running() && stories == old(stories) - gone
    {
      hide Base, ApplyAll;
      label Before:
      stories := stories - gone;
      EndKeepsRegs@Before(ApplyAll(kernel.regs, changelist), gone);
    }

    twostate lemma EndKeepsRegs(m: Registry, new gone: set<Connection>)
      requires old(RegsOk(m)) && Base(null) && forall c :: c in gone ==> c in slots && c.out.state == CLOSED
      requires stories == old(stories) - gone && forall c :: c in slots ==> unchanged(c)
      ensures RegsOk(m)
    {
      AboutConns(null);
      forall c | c in slots && c.fd != -1 ensures Armed(m, c) {
        assert c.Inner() && old(Armed(m, c));
      }
      forall key | key in m ensures Known(key, m[key]) {
        assert old(Known(key, m[key]));
      }
    }

    /** Every live connection is armed, but for `busy`, and there are no other entries. */
    ghost predicate RegsBut(m: Registry, busy: Connection?)
      reads `stories, slots`fd
    {
      && (forall c :: c in slots && c != busy && c.fd != -1 ==> Armed(m, c))
      && (forall key :: key in m ==> Known(key, m[key]))
    }

    ghost predicate RegsOk(m: Registry)
      reads `stories, slots`fd
    {
      RegsBut(m, null)
    }

    /** All of the above but the registrations. */
    ghost predicate Base(busy: Connection?)
      reads `ka, `keepaliveHead, `owner, pool, pool.freeList
      reads kernel`open, kernel`regs, kernel`issued, kernel`closed
      reads slots`fd, slots`fileFd, slots`out, slots`readBuf, slots`request
      reads slots`prev, slots`next, slots`inList
    {
      && Slotted() && ListenerOpen() && ListOk() && ConnsOk() && SocketsOwned(-1)
      && ListedIffIdle(busy) && PoolOk()
    }

    /** The invariant between events, with changes pending: that of the moment, and that the
        stories are true. */
    ghost predicate Valid()
      reads this, slots, kernel, pool, pool.freeList
    {
      Running() && HistoryOk()
    }

    ghost predicate Running()
      reads this, slots, kernel, pool, pool.freeList
    {
      && Base(null)
      && RegsOk(ApplyAll(kernel.regs, changelist))
      && kernel.AddsOpen(changelist)
    }

    /** The invariant when an event is delivered: no change is pending. */
    ghost predicate Settled()
      reads this, slots, kernel, pool, pool.freeList
    {
      Base(null) && changelist == [] && RegsOk(kernel.regs)
    }

    lemma AboutSettled()
      requires Settled()
      ensures Base(null) && changelist == [] && RegsOk(kernel.regs)
    {
    }

    /** What the invariant says of one connection. */
    lemma AboutOne(busy: Connection?, conn: Connection)
      requires Base(busy) && conn in slots
      ensures conn.Inner() && conn.Holds(kernel) && kernel.Valid() && pool.Valid()
      ensures conn.out.state != CLOSED ==> conn.slot in pool.Acquired()
      ensures conn != busy ==> (conn.inList <==> conn.out.state == KEEP_ALIVE)
      ensures busy == null ==> Base(conn)
    {
    }

    lemma AboutPool()
      requires Running()
      ensures pool.Valid()
    {
    }

    lemma AboutConns(busy: Connection?)
      requires Base(busy)
      ensures ConnsOk()
    {
    }

    lemma AboutList(busy: Connection?)
      requires Base(busy)
      ensures ListOk() && pool.Valid() && kernel.Valid()
    {
    }

    /** Around a kernel in which the only descriptor that matters is the listener. */
    constructor (kernel: Kernel, listenFd: int, tlsAvailable: bool, timeout: int)
      requires kernel.Valid() && kernel.regs == map[]
      requires listenFd in kernel.open && kernel.open[listenFd].Listener?
      requires forall fd :: fd in kernel.open ==> !kernel.open[fd].Socket?
      ensures Valid() && changelist == [] && stories == map[] && this.kernel == kernel && this.listenFd == listenFd
      ensures fresh(slots) && fresh(pool) && fresh(pool.freeList) && pool.Valid() && pool.Acquired() == {}
    {
      hide *;
      var cs := NewSlots();
      var p := new CP.ConnectionPool();
      var l := new Tag();
      var t := new Tag();
      pool := p;
      this.kernel := kernel;
      conns := cs;
      this.listenFd := listenFd;
      listenerTag := l;
      timerTag := t;
      this.tlsAvailable := tlsAvailable;
      this.timeout := timeout;
      keepaliveHead := null;
      changelist := [];
      slots := set c | c in cs;
      ka := [];
      owner := map[];
      stories := map[];
      new;
      StartsValid();
    }

    lemma StartsValid()
      requires |conns| == CP.MAX_CONNECTIONS && slots == (set c | c in conns)
      requires forall i :: 0 <= i < |conns| ==> conns[i].slot == i
      requires forall i :: 0 <= i < |conns| ==> conns[i].Inner() && conns[i].out == IDLE && !conns[i].inList
      requires keepaliveHead == null && ka == [] && stories == map[] && owner == map[] && changelist == []
               && listenerTag != timerTag
      requires pool.Valid() && kernel.Valid() && kernel.regs == map[]
      requires listenFd in kernel.open && kernel.open[listenFd].Listener?
      requires forall fd :: fd in kernel.open ==> !kernel.open[fd].Socket?
      ensures Valid()
    {
    }

    // ---- Keep-alive list operations ----

    method AddToKeepaliveList(conn: Connection)
      requires ListOk() && conn in slots
      modifies this`keepaliveHead, this`ka, slots`prev, slots`next, slots`inList
      ensures ListOk()
      ensures ka == if old(conn.inList) then old(ka) else [conn] + old(ka)
      ensures conn.inList && forall c :: c in slots && c != conn ==> c.inList == old(c.inList)
    {
      if conn.inList { return; }
      ListedHasFlag(conn);
      assert ka != [] ==> LinkedAt(0);
      conn.inList := true;
      conn.prev := null;
      conn.next := keepaliveHead;
      if keepaliveHead != null {
        keepaliveHead.prev := conn;
      }
      keepaliveHead := conn;
      ka := [conn] + ka;
      forall i | 0 <= i < |ka| ensures LinkedAt(i) {
        assert i > 0 ==> old(LinkedAt(i - 1));
      }
    }

    lemma ListedHasFlag(conn: Connection)
      requires ListOk()
      ensures conn in ka ==> conn.inList
    {
      if conn in ka {
        var i :| 0 <= i < |ka| && ka[i] == conn;
        assert LinkedAt(i);
      }
    }

    method RemoveFromKeepaliveList(conn: Connection)
      requires ListOk() && conn in slots
      modifies this`keepaliveHead, this`ka, slots`prev, slots`next, slots`inList
      ensures ListOk()
      ensures ka == Without(old(ka), {conn})
      ensures !conn.inList && forall c :: c in slots && c != conn ==> c.inList == old(c.inList)
    {
      if !conn.inList {
        ListedHasFlag(conn);
        WithoutAbsent(ka, {conn});
        return;
      }
      ghost var k :| 0 <= k < |ka| && ka[k] == conn;
      WithoutAt(ka, k);
      Unlink(conn, k);
    }

    method Unlink(conn: Connection, ghost k: nat)
      requires ListOk() && k < |ka| && ka[k] == conn
      modifies this`keepaliveHead, this`ka, slots`prev, slots`next, conn`inList
      ensures ListOk()
      ensures ka == old(ka[..k] + ka[k + 1..]) && !conn.inList
    {
      hide Connection.Inner;
      assert LinkedAt(k);
      assert k > 0 ==> LinkedAt(k - 1);
      assert k + 1 < |ka| ==> LinkedAt(k + 1);
      conn.inList := false;
      if conn.prev != null {
        conn.prev.next := conn.next;
      } else {
        keepaliveHead := conn.next;
      }
      if conn.next != null {
        conn.next.prev := conn.prev;
      }
      conn.prev := null;
      conn.next := null;
      ka := ka[..k] + ka[k + 1..];
      forall i | 0 <= i < |ka| ensures LinkedAt(i) {
        assert old(LinkedAt(if i < k then i else i + 1));
      }
    }

    // ---- What one connection's turn leaves intact ----

    /** Only `conn` and the kernel have changed, and `conn` has at most given up handles. */
    twostate predicate Turned(conn: Connection)
      reads this, slots, kernel, pool, pool.freeList
    {
      && conn in slots
      && unchanged(this) && unchanged(pool) && unchanged(pool.freeList)
      && (forall c :: c in slots && c != conn ==> unchanged(c))
      && conn.prev == old(conn.prev) && conn.next == old(conn.next) && conn.inList == old(conn.inList)
      && conn.Inner() && conn.Holds(kernel) && kernel.Valid()
      && conn.GaveUp(kernel)
      && (old(conn.out.state) == CLOSED ==> conn.out.state == CLOSED)
    }

    /** No handle is held twice. */
    twostate lemma HandlesApart(conn: Connection)
      requires old(ConnsOk()) && conn in slots
      ensures forall c :: c in slots && c != conn ==> old(c.Handles() !! conn.Handles())
    {
      assert old(Owns(conn));
      forall c | c in slots && c != conn ensures old(c.Handles() !! conn.Handles()) {
        assert old(Owns(c));
      }
    }

    /** Descriptors outside `gone` stay what they were. */
    twostate lemma HoldsAfterDrop(c: Connection, new gone: set<int>)
      requires unchanged(c) && old(c.Holds(kernel))
      requires kernel.open == old(kernel.open) - gone && old(c.Handles()) !! gone
      ensures c.Holds(kernel)
    {
      assert c.fd != -1 ==> c.fd in old(c.Handles());
      assert c.fileFd != -1 ==> c.fileFd in old(c.Handles());
    }

    twostate lemma TurnKeepsOther(c: Connection, new gone: set<int>)
      requires c in slots && unchanged(c) && unchanged(`owner)
      requires old(ConnsOk()) && kernel.open == old(kernel.open) - gone && old(c.Handles()) !! gone
      ensures c.Inner() && c.Holds(kernel) && Owns(c)
    {
      assert old(c.Inner() && c.Holds(kernel) && Owns(c));
      HoldsAfterDrop(c, gone);
    }

    twostate lemma TurnKeepsSelf(conn: Connection)
      requires old(Base(conn)) && Turned(conn)
      ensures Owns(conn) && ListenerOpen()
    {
      assert old(conn.Holds(kernel) && Owns(conn));
    }

    twostate lemma TurnKeepsConns(conn: Connection)
      requires old(Base(conn)) && Turned(conn)
      ensures ConnsOk()
    {
      TurnKeepsSelf(conn);
      HandlesApart(conn);
      var gone := old(conn.Handles()) - conn.Handles();
      forall c | c in slots && c != conn ensures c.Inner() && c.Holds(kernel) && Owns(c) {
        TurnKeepsOther(c, gone);
      }
    }

    twostate lemma TurnKeepsSockets(conn: Connection)
      requires old(Base(conn)) && Turned(conn)
      ensures SocketsOwned(-1)
    {
      assert old(conn.Holds(kernel) && Owns(conn));
    }

    twostate lemma TurnKeepsList(conn: Connection)
      requires old(Base(conn)) && Turned(conn)
      ensures ListOk() && ListedIffIdle(conn) && PoolOk() && Slotted()
    {
      hide Connection.Inner, Connection.GaveUp;
      forall i | 0 <= i < |ka| ensures LinkedAt(i) {
        assert old(LinkedAt(i));
      }
    }

    twostate lemma TurnKeepsRegs(conn: Connection)
      requires old(Base(conn)) && Turned(conn) && OnlyDeletes(changelist)
      requires old(RegsBut(ApplyAll(kernel.regs, changelist), conn))
      ensures RegsBut(ApplyAll(kernel.regs, changelist), conn)
      ensures old(RegsOk(ApplyAll(kernel.regs, changelist))) ==> RegsOk(ApplyAll(kernel.regs, changelist))
    {
      hide Base, Connection.Inner, Connection.Handles;
      var gone := old(conn.Handles()) - conn.Handles();
      var m := old(ApplyAll(kernel.regs, changelist));
      var n := ApplyAll(kernel.regs, changelist);
      ForgetAfterChanges(old(kernel.regs), changelist, gone);
      assert n == Forget(m, gone);
      TurnKeepsArmed(conn);
      forall c | c in slots && c.fd != -1 && old(Armed(m, c)) ensures Armed(n, c) {
      }
      forall key | key in n ensures Known(key, n[key]) {
        assert old(Known(key, m[key]));
        assert forall c :: c in slots && c.fd == old(c.fd) ==> (c.fd == key.0 <==> old(c.fd) == key.0);
      }
    }

    /** What a turn closes is nobody else's socket, nor the listener. */
    twostate lemma TurnKeepsArmed(conn: Connection)
      requires old(Base(conn)) && Turned(conn)
      ensures var gone := old(conn.Handles()) - conn.Handles();
              && listenFd !in gone
              && forall c :: c in slots && c.fd != -1 ==> c.fd == old(c.fd) && c.fd !in gone
      ensures forall c :: c in slots && old(c.fd) != -1 && old(c.fd) !in old(conn.Handles()) - conn.Handles() ==>
              c.fd == old(c.fd)
    {
      HandlesApart(conn);
      assert old(conn.Inner() && conn.Holds(kernel) && Owns(conn));
      forall c | c in slots && c.fd != -1 ensures c.fd !in old(conn.Handles()) - conn.Handles() {
        assert old(c.Holds(kernel));
      }
    }

    twostate lemma TurnKeepsBase(conn: Connection)
      requires old(Base(conn)) && Turned(conn)
      ensures Base(conn)
    {
      TurnKeepsConns(conn);
      TurnKeepsSockets(conn);
      TurnKeepsList(conn);
      TurnKeepsSelf(conn);
    }

    /** One turn of one connection keeps the whole invariant. */
    twostate lemma TurnKeepsAll(conn: Connection)
      requires old(Base(conn)) && Turned(conn) && OnlyDeletes(changelist)
      requires old(RegsBut(ApplyAll(kernel.regs, changelist), conn))
      ensures Base(conn)
      ensures RegsBut(ApplyAll(kernel.regs, changelist), conn)
      ensures conn.fd == -1 || old(RegsOk(ApplyAll(kernel.regs, changelist))) ==>
              RegsOk(ApplyAll(kernel.regs, changelist))
    {
      TurnKeepsBase(conn);
      TurnKeepsRegs(conn);
    }

    /** The same when no change is pending. */
    twostate lemma TurnKeepsSettled(conn: Connection)
      requires old(Base(conn)) && Turned(conn) && changelist == [] && old(RegsOk(kernel.regs))
      ensures Base(conn) && RegsOk(kernel.regs)
    {
      hide Base;
      TurnKeepsAll(conn);
    }

    // ---- Preparing a response ----

    /** What the file system turns out to say: the file is gone if it will not open. */
    function SeenAs(lookup: Lookup, hint: int, open: map<int, Handle>): Lookup {
      if lookup.Found? && (hint < 0 || hint in open) then Missing else lookup
    }

    /** Method, path, file, cache and range checks: the response, and the file opened for
        it. `served` is the lookup as it turned out. */
    method ChooseResponse(r: HttpRequest.Request, lookup: Lookup, hint: int)
      returns (response: HttpResponse.Response, part: Option<FilePart>, fileFd: int, ghost served: Lookup)
      requires kernel.Valid()
      modifies kernel
      ensures kernel.Valid() && kernel.regs == old(kernel.regs)
      ensures served == SeenAs(lookup, hint, old(kernel.open))
      ensures Answer(response, r.verb == HttpRequest.HEAD, part) == AnswerTo(r, served)
      ensures part == None ==> kernel.open == old(kernel.open)
      ensures part.Some? ==>
                && part.value.start <= |part.value.content| && part.value.end < |part.value.content|
                && fileFd == hint >= 0 && fileFd !in old(kernel.open) && fileFd in kernel.open
                && kernel.open == old(kernel.open)[fileFd := kernel.open[fileFd]]
                && kernel.open[fileFd].File? && kernel.open[fileFd].content == part.value.content
      ensures kernel.now == old(kernel.now)
    {
      served, fileFd, part := SeenAs(lookup, hint, kernel.open), -1, None;
      var keep := KeepAlive(r);
      if r.verb == HttpRequest.UNKNOWN {
        response := ErrorPage(HttpResponse.NOT_IMPLEMENTED, keep);
        return;
      }
      var normalized := FileServer.Normalize(r.path);
      if normalized == "" {
        response := ErrorPage(HttpResponse.BAD_REQUEST, keep);
        return;
      }
      match lookup
      case Missing => { response := ErrorPage(HttpResponse.NOT_FOUND, keep); }
      case Denied => { response := ErrorPage(HttpResponse.FORBIDDEN, keep); }
      case Listing(html) => { response := BuildPage(HttpResponse.OK, html, keep); }
      case Found(content, mime, modified, notModified) => {
        response, part, fileFd, served := ChooseFileResponse(r, lookup, hint);
      }
    }

    method ErrorPage(status: HttpResponse.Status, keep: bool) returns (response: HttpResponse.Response)
      ensures response == ErrorResponse(status, keep)
    {
      response := BuildPage(status, HttpResponse.ErrorBody(status), keep);
    }

    method ChooseFileResponse(r: HttpRequest.Request, lookup: Lookup, hint: int)
      returns (response: HttpResponse.Response, part: Option<FilePart>, fileFd: int, ghost served: Lookup)
      requires kernel.Valid() && lookup.Found?
      modifies kernel
      ensures kernel.Valid() && kernel.regs == old(kernel.regs)
      ensures served == SeenAs(lookup, hint, old(kernel.open))
      ensures Answer(response, r.verb == HttpRequest.HEAD, part) == AnswerFor(r, served)
      ensures part == None ==> kernel.open == old(kernel.open)
      ensures part.Some? ==>
                && part.value.start <= |part.value.content| && part.value.end < |part.value.content|
                && fileFd == hint >= 0 && fileFd !in old(kernel.open) && fileFd in kernel.open
                && kernel.open == old(kernel.open)[fileFd := kernel.open[fileFd]]
                && kernel.open[fileFd].File? && kernel.open[fileFd].content == part.value.content
      ensures kernel.now == old(kernel.now)
    {
      hide ErrorResponse, FileResponse, NotModifiedResponse, ByteRange.ParseRange;
      var keep := KeepAlive(r);
      var content := lookup.content;
      served, part := lookup, None;
      fileFd := kernel.OpenFile(hint, content);
      if fileFd < 0 {
        served := Missing;
        response := ErrorPage(HttpResponse.NOT_FOUND, keep);
        return;
      }
      if lookup.notModified {
        response := BuildNotModified(lookup.modified, keep);
        UnregisteredForgets(old(kernel.regs), old(kernel.open), fileFd);
        kernel.Close(fileFd);
        return;
      }
      var request := new HttpRequest.HttpRequest.Of(r);
      var range := request.ParseRange(|content|);
      if range.Some? {
        ByteRange.ParsedIntervalInFile(HttpRequest.HeaderValue(r.headers, "range"), |content|);
      }
      response := BuildFileResponse(|content|, lookup.mime, lookup.modified, range, keep);
      part := Some(FilePartOf(content, range));
    }

    lemma UnregisteredForgets(m: Registry, open: map<int, Handle>, fd: int)
      requires fd !in open && forall key :: key in m && key.1 != TimerFilter ==> key.0 in open
      ensures Forget(m, {fd}) == m
    {
    }

    /** `prepare_response`: the connection as the sending half's `Prepared` says. */
    method PrepareResponse(conn: Connection, lookup: Lookup, hint: int, date: string) returns (ghost served: Lookup)
      requires conn.Inner() && conn.Holds(kernel) && kernel.Valid() && conn.out.state == PARSING
      modifies conn`fileFd, conn`out, kernel
      ensures conn.Inner() && conn.Holds(kernel) && kernel.Valid()
      ensures kernel.regs == old(kernel.regs)
      ensures served == SeenAs(lookup, hint, old(kernel.open))
      ensures FileTaken(conn)
      ensures conn.fileFd == if AnswerTo(conn.request, served).part.Some? then hint else old(conn.fileFd)
      ensures AnswerTo(conn.request, served).part.Some? ==> hint !in old(kernel.open) && hint >= 0
      ensures PlanFits(PlanOf(AnswerTo(conn.request, served), date))
      ensures conn.out == Prepared(old(conn.out), PlanOf(AnswerTo(conn.request, served), date))
      ensures kernel.now == old(kernel.now)
    {
      hide HttpResponse.HeaderText, AnswerFor, ErrorResponse, FileResponse;
      var isHead := conn.request.verb == HttpRequest.HEAD;
      var response, part, fileFd;
      response, part, fileFd, served := ChooseResponse(conn.request, lookup, hint);
      HeaderTextNotEmpty(response, date);
      conn.PrepareHeaders(response, isHead, date);
      if part.Some? {
        conn.SetSendFile(kernel, fileFd, part.value);
      }
    }

    /** The connection holds the file it held, or one opened just now. */
    twostate predicate FileTaken(conn: Connection)
      reads conn, kernel
    {
      if conn.fileFd == old(conn.fileFd) then kernel.open == old(kernel.open)
      else
        && conn.fileFd >= 0 && conn.fileFd !in old(kernel.open) && conn.fileFd in kernel.open
        && kernel.open == old(kernel.open)[conn.fileFd := kernel.open[conn.fileFd]]
    }

    /** An open descriptor that no connection holds. */
    ghost predicate Lost(fd: int)
      reads kernel`open, slots`fd, slots`fileFd
    {
      fd in kernel.open && forall c :: c in slots ==> fd !in c.Handles()
    }

    /** With a file held from an earlier attempt: its descriptor is lost exactly when the
        new answer has a file of its own. */
    twostate lemma FileLost(conn: Connection, new served: Lookup, new hint: int)
      requires old(Base(conn)) && conn in slots && FileTaken(conn)
      requires forall c :: c in slots && c != conn ==> unchanged(c)
      requires conn.fd == old(conn.fd) && old(conn.fileFd) != -1
      requires conn.fileFd == if AnswerTo(conn.request, served).part.Some? then hint else old(conn.fileFd)
      requires AnswerTo(conn.request, served).part.Some? ==> hint !in old(kernel.open)
      ensures Lost(old(conn.fileFd)) <==> AnswerTo(conn.request, served).part.Some?
    {
      hide AnswerTo;
      var another := AnswerTo(conn.request, served).part.Some?;
      assert old(conn.Inner() && conn.Holds(kernel) && Owns(conn));
      HandlesStayApart(conn);
      assert !another ==> old(conn.fileFd) in conn.Handles();
    }

    /** A turn loses no descriptor and finds none: what it gives up it closes. */
    twostate lemma TurnKeepsLost(conn: Connection)
      requires old(Base(conn)) && Turned(conn)
      ensures forall fd :: old(Lost(fd)) ==> Lost(fd)
      ensures old(conn.fileFd) != -1 ==> !Lost(old(conn.fileFd))
      ensures kernel.open.Keys <= old(kernel.open.Keys)
    {
      forall fd | old(Lost(fd)) ensures Lost(fd) {
        assert fd !in old(conn.Handles());
        assert forall c :: c in slots ==> c.Handles() <= old(c.Handles());
      }
      if old(conn.fileFd) != -1 {
        assert old(conn.fileFd) in old(conn.Handles());
      }
    }

    /** Nor does taking a new file find one. */
    twostate lemma FileKeepsLost(conn: Connection)
      requires conn in slots && FileTaken(conn) && conn.fd == old(conn.fd)
      requires forall c :: c in slots && c != conn ==> unchanged(c)
      ensures forall fd :: old(Lost(fd)) ==> Lost(fd)
    {
      forall fd | old(Lost(fd)) ensures Lost(fd) {
        assert fd !in old(conn.Handles());
        assert fd !in conn.Handles();
      }
    }

    /** What an attempt to answer does to descriptors: `second` says that it opens a file. */
    twostate predicate FileSettled(conn: Connection, second: bool, served: Lookup, io: Io)
      reads kernel`open, slots`fd, slots`fileFd, conn`fileFd
    {
      && served == SeenAs(io.lookup, io.hint, old(kernel.open))
      && kernel.open.Keys <= old(kernel.open.Keys) + (if second then {io.hint} else {})
      && (second ==> conn.fileFd in {io.hint, -1})
      && (old(conn.fileFd) != -1 ==> (Lost(old(conn.fileFd)) <==> second))
    }

    lemma NoFileForUnknown(r: HttpRequest.Request, served: Lookup)
      ensures r.verb == HttpRequest.UNKNOWN ==> AnswerTo(r, served).part == None
    {
      hide ErrorResponse, AnswerFor;
    }

    /** An attempt that opens nothing and gives nothing up. */
    twostate lemma NothingSettled(conn: Connection, new served: Lookup, new io: Io)
      requires conn in slots && kernel.open == old(kernel.open) && served == SeenAs(io.lookup, io.hint, kernel.open)
      requires forall c :: c in slots ==> c.fd == old(c.fd) && c.fileFd == old(c.fileFd)
      ensures FileSettled(conn, false, served, io)
    {
      assert old(conn.fileFd) != -1 ==> old(conn.fileFd) in conn.Handles();
    }

    /** The file of the new attempt is in place. */
    twostate lemma PreparedSettles(conn: Connection, new served: Lookup, new io: Io)
      requires old(Base(conn)) && conn in slots && FileTaken(conn)
      requires forall c :: c in slots && c != conn ==> unchanged(c)
      requires conn.fd == old(conn.fd) && served == SeenAs(io.lookup, io.hint, old(kernel.open))
      requires conn.fileFd == if AnswerTo(conn.request, served).part.Some? then io.hint else old(conn.fileFd)
      requires AnswerTo(conn.request, served).part.Some? ==> io.hint !in old(kernel.open)
      ensures FileSettled(conn, AnswerTo(conn.request, served).part.Some?, served, io)
    {
      hide Base, Lost, AnswerTo;
      if old(conn.fileFd) != -1 {
        FileLost(conn, served, io.hint);
      }
    }

    /** A complete request that is answered with a file. */
    predicate SecondFile(text: string, served: Lookup) {
      HttpRequest.ParseText(text).ok && AnswerTo(HttpRequest.ParseText(text).request, served).part.Some?
    }

    twostate lemma HandlesStayApart(conn: Connection)
      requires old(ConnsOk()) && conn in slots
      requires forall c :: c in slots && c != conn ==> unchanged(c)
      ensures forall c :: c in slots && c != conn ==> c.Handles() !! old(conn.Handles())
    {
      assert old(Owns(conn));
      forall c | c in slots && c != conn ensures c.Handles() !! old(conn.Handles()) {
        assert old(Owns(c));
      }
    }

    /** Recording the owner of a file opened for `conn` restores the invariant. */
    twostate lemma FileKeepsConns(conn: Connection)
      requires old(Base(conn)) && conn in slots && FileTaken(conn)
      requires conn.Inner() && conn.Holds(kernel) && kernel.Valid() && conn.fd == old(conn.fd)
      requires forall c :: c in slots && c != conn ==> unchanged(c)
      requires owner == old(owner)[conn.fileFd := conn]
      ensures ConnsOk()
    {
      assert old(conn.Inner() && conn.Holds(kernel) && Owns(conn));
      forall c | c in slots && c != conn ensures c.Inner() && c.Holds(kernel) && Owns(c) {
        assert old(c.Inner() && c.Holds(kernel) && Owns(c));
        OpenedElsewhere(c, conn.fileFd);
      }
    }

    /** A descriptor opened for someone else leaves `c` what it holds. */
    twostate lemma OpenedElsewhere(c: Connection, new fd: int)
      requires unchanged(c) && old(c.Holds(kernel))
      requires kernel.open == old(kernel.open)
               || (fd !in old(kernel.open) && fd in kernel.open
                   && kernel.open == old(kernel.open)[fd := kernel.open[fd]])
      ensures c.Holds(kernel)
      ensures fd !in old(kernel.open) ==> c.fd != fd || c.fd == -1
    {
    }

    twostate lemma FileKeepsRest(conn: Connection)
      requires old(Base(conn)) && conn in slots && FileTaken(conn)
      requires conn.Inner() && conn.Holds(kernel) && kernel.Valid() && conn.fd == old(conn.fd)
      requires conn.out.state == old(conn.out.state)
      requires conn.prev == old(conn.prev) && conn.next == old(conn.next) && conn.inList == old(conn.inList)
      requires forall c :: c in slots && c != conn ==> unchanged(c)
      requires unchanged(`ka, `keepaliveHead, `stories) && unchanged(pool) && unchanged(pool.freeList)
      requires owner == old(owner)[conn.fileFd := conn]
      ensures ListOk() && ListedIffIdle(conn) && PoolOk() && Slotted() && ListenerOpen() && SocketsOwned(-1)
    {
      hide Kernel.Valid, CP.ConnectionPool.Valid, Connection.Buffers, AllDistinct;
      assert old(conn.Inner() && conn.Holds(kernel) && Owns(conn));
      forall i | 0 <= i < |ka| ensures LinkedAt(i) {
        assert old(LinkedAt(i));
      }
    }

    twostate lemma FileKeepsBase(conn: Connection)
      requires old(Base(conn)) && conn in slots && FileTaken(conn)
      requires conn.Inner() && conn.Holds(kernel) && kernel.Valid() && conn.fd == old(conn.fd)
      requires conn.out.state == old(conn.out.state)
      requires conn.prev == old(conn.prev) && conn.next == old(conn.next) && conn.inList == old(conn.inList)
      requires forall c :: c in slots && c != conn ==> unchanged(c)
      requires unchanged(`ka, `keepaliveHead, `stories) && unchanged(pool) && unchanged(pool.freeList)
      requires owner == old(owner)[conn.fileFd := conn]
      ensures Base(conn)
    {
      FileKeepsConns(conn);
      FileKeepsRest(conn);
    }

    // ---- Creating and destroying connections ----

    method AddEvent(c: Change)
      modifies `changelist
      ensures changelist == old(changelist) + [c]
    {
      changelist := changelist + [c];
    }

    /** Deleting one connection's filters leaves the others armed. */
    lemma DeletesKeepRegs(m: Registry, conn: Connection)
      requires RegsOk(m) && ConnsOk() && conn in slots && conn.fd != -1
      requires kernel.Valid() && ListenerOpen()
      ensures RegsBut(m - {(conn.fd, ReadFilter)} - {(conn.fd, WriteFilter)}, conn)
    {
      var n := m - {(conn.fd, ReadFilter)} - {(conn.fd, WriteFilter)};
      assert Owns(conn) && conn.Holds(kernel);
      forall c | c in slots && c != conn && c.fd != -1 ensures Armed(n, c) {
        assert Owns(c);
        assert Armed(m, c);
      }
      forall key | key in n ensures Known(key, n[key]) {
        assert Known(key, m[key]);
      }
    }

    /** The deletions that go with a descriptor, none for a connection already closed. */
    function Removals(fd: int): seq<Change> {
      if fd < 0 then [] else [Delete(fd, ReadFilter), Delete(fd, WriteFilter)]
    }

    /** Off the list, deregistered, closed, and its slot given back. */
    method DestroyConnection(conn: Connection)
      requires Base(conn) && conn in slots && conn.slot in pool.Acquired()
      requires OnlyDeletes(changelist) && RegsOk(ApplyAll(kernel.regs, changelist))
      modifies `keepaliveHead, `ka, `changelist, slots`prev, slots`next, slots`inList
      modifies conn`fd, conn`fileFd, conn`out, kernel, pool, pool.freeList
      ensures Base(null) && OnlyDeletes(changelist) && RegsOk(ApplyAll(kernel.regs, changelist))
      ensures ka == Without(old(ka), {conn})
      ensures changelist == old(changelist) + Removals(old(conn.fd))
      ensures conn.out == Close(old(conn.out))
      ensures pool.Acquired() == old(pool.Acquired()) - {conn.slot}
      ensures kernel.now == old(kernel.now) && kernel.open.Keys <= old(kernel.open.Keys)
      ensures forall fd :: old(Lost(fd)) ==> Lost(fd)
    {
      hide Base, RegsBut, OnlyDeletes, ApplyAll, Without, Removals, CP.ConnectionPool.Acquired, Lost;
      Detach(conn);
      CloseAndRelease(conn);
    }

    method Detach(conn: Connection)
      requires Base(conn) && conn in slots
      requires OnlyDeletes(changelist) && RegsOk(ApplyAll(kernel.regs, changelist))
      modifies `keepaliveHead, `ka, `changelist, slots`prev, slots`next, slots`inList
      ensures Base(conn) && !conn.inList && ka == Without(old(ka), {conn})
      ensures OnlyDeletes(changelist) && RegsBut(ApplyAll(kernel.regs, changelist), conn)
      ensures changelist == old(changelist) + Removals(conn.fd)
    {
      hide Base, OnlyDeletes, ApplyAll, Armed, Known, Removals;
      Delist(conn);
      NoRemovals(changelist, conn.fd);
      if conn.fd >= 0 {
        Deregister(conn);
      }
    }

    method CloseAndRelease(conn: Connection)
      requires Base(conn) && conn in slots && !conn.inList && conn.slot in pool.Acquired()
      requires OnlyDeletes(changelist) && RegsBut(ApplyAll(kernel.regs, changelist), conn)
      modifies conn`fd, conn`fileFd, conn`out, kernel, pool, pool.freeList
      ensures Base(null) && RegsOk(ApplyAll(kernel.regs, changelist))
      ensures conn.out == Close(old(conn.out)) && kernel.now == old(kernel.now)
      ensures kernel.open.Keys <= old(kernel.open.Keys)
      ensures pool.Acquired() == old(pool.Acquired()) - {conn.slot}
      ensures forall fd :: old(Lost(fd)) ==> Lost(fd)
    {
      hide Base, RegsBut, ApplyAll, OnlyDeletes, Lost;
      ShutConnection(conn);
      GiveBack(conn);
    }

    method Delist(conn: Connection)
      requires Base(conn) && conn in slots
      modifies `keepaliveHead, `ka, slots`prev, slots`next, slots`inList
      ensures Base(conn) && !conn.inList && ka == Without(old(ka), {conn})
      ensures conn.slot in pool.Acquired() <==> old(conn.slot in pool.Acquired())
    {
      hide ConnsOk, SocketsOwned, ListenerOpen, Slotted, ListOk, Without;
      RemoveFromKeepaliveList(conn);
    }

    lemma DeletesPending(conn: Connection)
      requires Base(conn) && conn in slots && conn.fd != -1 && RegsOk(ApplyAll(kernel.regs, changelist))
      ensures RegsBut(ApplyAll(kernel.regs, changelist) - {(conn.fd, ReadFilter)} - {(conn.fd, WriteFilter)}, conn)
    {
      DeletesKeepRegs(ApplyAll(kernel.regs, changelist), conn);
    }

    method Deregister(conn: Connection)
      requires Base(conn) && conn in slots && conn.fd >= 0
      requires OnlyDeletes(changelist) && RegsOk(ApplyAll(kernel.regs, changelist))
      modifies `changelist
      ensures Base(conn) && OnlyDeletes(changelist) && RegsBut(ApplyAll(kernel.regs, changelist), conn)
      ensures changelist == old(changelist) + Removals(conn.fd)
    {
      hide Base, RegsBut, OnlyDeletes, ApplyAll, Removals;
      DeletesPending(conn);
      RemovalsApplied(kernel.regs, changelist, conn.fd);
      QueueRemovals(conn.fd);
    }

    lemma NoRemovals(cs: seq<Change>, fd: int)
      ensures fd < 0 ==> cs + Removals(fd) == cs
    {
    }

    method QueueRemovals(fd: int)
      requires fd >= 0
      modifies `changelist
      ensures changelist == old(changelist) + Removals(fd)
    {
      AddEvent(Delete(fd, ReadFilter));
      AddEvent(Delete(fd, WriteFilter));
    }

    lemma RemovalsApplied(m: Registry, cs: seq<Change>, fd: int)
      requires fd >= 0
      ensures ApplyAll(m, cs + Removals(fd)) == ApplyAll(m, cs) - {(fd, ReadFilter)} - {(fd, WriteFilter)}
      ensures OnlyDeletes(cs) ==> OnlyDeletes(cs + Removals(fd))
    {
      ApplyTwo(m, cs, Delete(fd, ReadFilter), Delete(fd, WriteFilter));
    }

    /** Closing a connection while only deletions are pending. */
    method ShutConnection(conn: Connection)
      requires Base(conn) && conn in slots
      requires OnlyDeletes(changelist) && RegsBut(ApplyAll(kernel.regs, changelist), conn)
      modifies conn`fd, conn`fileFd, conn`out, kernel
      ensures Base(conn) && RegsOk(ApplyAll(kernel.regs, changelist))
      ensures conn.out == Close(old(conn.out)) && kernel.now == old(kernel.now)
      ensures kernel.open.Keys <= old(kernel.open.Keys)
      ensures pool.Acquired() == old(pool.Acquired())
      ensures forall fd :: old(Lost(fd)) ==> Lost(fd)
    {
      hide RegsBut, Lost, ListOk;
      assert conn.Inner() && conn.Holds(kernel);
      label Before:
      conn.Close(kernel);
      TurnKeepsAll@Before(conn);
      TurnKeepsLost@Before(conn);
    }

    method GiveBack(conn: Connection)
      requires Base(conn) && conn in slots && conn.slot in pool.Acquired()
      requires conn.out.state == CLOSED && !conn.inList
      modifies pool, pool.freeList
      ensures Base(null) && pool.Acquired() == old(pool.Acquired()) - {conn.slot}
      ensures forall fd :: old(Lost(fd)) ==> Lost(fd)
    {
      pool.Release(conn.slot);
    }

    // ---- One connection's wakeup ----

    /** A read puts the connection's clock forward; sending and parsing do not. */
    ghost predicate Stamped(before: State, after: State, last: int, lastAfter: int, now: int) {
      lastAfter == if Touches(before, after) then now else last
    }

    /** The descriptors that are open when a reply looks for its file: between responses a file
        still held is closed first. */
    ghost function OpenForReply(conn: Connection): map<int, Handle>
      reads kernel`open, conn`out, conn`fileFd
    {
      if conn.out.state == KEEP_ALIVE then kernel.open - {conn.fileFd} else kernel.open
    }

    /** A reply goes by what the file system says and by the descriptors open then, and a
        wakeup opens no descriptor but that of a file it answers with. */
    twostate predicate LookedUp(conn: Connection, text: string, served: Lookup, io: Io)
      reads kernel`open
    {
      && (Replies(old(conn.out), old(conn.readBuf), io) ==>
            served == SeenAs(io.lookup, io.hint, old(OpenForReply(conn))))
      && kernel.open.Keys <= old(kernel.open.Keys)
         + if Replies(old(conn.out), old(conn.readBuf), io) && SecondFile(text, served) then {io.hint} else {}
    }

    /** What a wakeup did to a live connection, by its record `w`. A connection that closes
        gives its slot back, except when it is the reply inside this wakeup that closes it; a
        file held from an earlier attempt is lost exactly when the new attempt opens one; only
        a read puts the clock forward. */
    twostate predicate WokenUp(conn: Connection, w: Awakening, io: Io)
      reads slots, kernel, pool, pool.freeList
    {
      && conn in slots && old(pool.Valid()) && pool.Valid()
      && w.io == io && w.after == conn.out && w.buf == conn.readBuf
      && Consistent(old(conn.out)) && Wakes(old(conn.out), old(conn.readBuf), tlsAvailable, w)
      && pool.Acquired() == old(pool.Acquired())
           - (if Released(old(conn.out), old(conn.readBuf), conn.out, io) then {conn.slot} else {})
      && (old(conn.out.state) == PARSING ==> FileSettled(conn, SecondFile(old(conn.readBuf), w.served), w.served, io))
      && LookedUp(conn, w.buf, w.served, io)
      && Stamped(old(conn.out.state), conn.out.state, old(conn.lastActive), conn.lastActive, old(kernel.now))
      && kernel.now == old(kernel.now)
    }

    twostate lemma AboutWakeup(conn: Connection, new w: Awakening, new io: Io)
      requires WokenUp(conn, w, io)
      ensures w.io == io && w.after == conn.out && LookedUp(conn, w.buf, w.served, io)
      ensures Consistent(old(conn.out)) && Wakes(old(conn.out), old(conn.readBuf), tlsAvailable, w)
    {
    }

    /** `process_connection`: one wakeup of one connection; nothing for a closed one. */
    method ProcessConnection(conn: Connection, io: Io) returns (ghost w: Option<Awakening>)
      requires Settled() && HistoryOk() && conn in slots
      modifies `keepaliveHead, `ka, `changelist, `owner, `stories, slots`prev, slots`next, slots`inList
      modifies conn`fd, conn`fileFd, conn`out, conn`readBuf, conn`request, conn`lastActive
      modifies kernel, pool, pool.freeList
      ensures Valid()
      ensures w == None <==> old(conn.out.state) == CLOSED
      ensures w == None ==> unchanged(this) && unchanged(conn) && unchanged(kernel) && unchanged(pool)
                            && unchanged(pool.freeList)
      ensures w.Some? ==> WokenUp(conn, w.value, io) && conn in old(stories) && Now(old(stories)[conn]) == old(conn.out)
      ensures w.Some? ==> NowBuf(old(stories)[conn]) == old(conn.readBuf)
      ensures w.Some? ==> stories == if conn.out.state == CLOSED then old(stories) - {conn}
                                     else old(stories)[conn := Extended(old(stories)[conn], w.value, old(kernel.now))]
      ensures forall fd :: old(Lost(fd)) ==> Lost(fd)
      ensures w.Some? ==>
                conn.lastActive == if old(conn.out.state) in {READING, KEEP_ALIVE} || conn.out.state == READING
                                   then old(kernel.now) else old(conn.lastActive)
    {
      hide *;
      if conn.out.state == CLOSED {
        ListenedIsValid();
        IsValid();
        return None;
      }
      StoryOf(conn);
      AllStories();
      StoryIs(stories[conn], conn.out, conn.readBuf);
      AboutSettled();
      ghost var awake := WakeConnection(conn, io);
      if conn.out.state == CLOSED {
        EndStories({conn});
        NoStory(conn);
      } else {
        IsRecorded(conn);
      }
      StampMeans(conn, awake, io);
      HistoryKept();
      IsValid();
      w := Some(awake);
    }

    /** A connection that is reading after a wakeup was reading before, or has just been told
        apart. */
    twostate lemma StampMeans(conn: Connection, new w: Awakening, new io: Io)
      requires WokenUp(conn, w, io)
      ensures conn.lastActive == if old(conn.out.state) in {READING, KEEP_ALIVE} || conn.out.state == READING
                                 then old(kernel.now) else old(conn.lastActive)
    {
      hide Wakes, LookedUp, FileSettled, Released, CP.ConnectionPool.Valid, CP.ConnectionPool.Acquired, Replies;
      if conn.out.state == READING {
        Wants.ReadingAfter(old(conn.out), old(conn.readBuf), tlsAvailable, w);
      }
    }

    method WakeConnection(conn: Connection, io: Io) returns (ghost w: Awakening)
      requires Settled() && conn in slots && conn.out.state != CLOSED
      requires conn in stories && stories[conn].last == conn.lastActive
      requires Tells(stories[conn], tlsAvailable, conn.out, conn.readBuf)
      modifies `keepaliveHead, `ka, `changelist, `owner, `stories, slots`prev, slots`next, slots`inList
      modifies conn`fd, conn`fileFd, conn`out, conn`readBuf, conn`request, conn`lastActive
      modifies kernel, pool, pool.freeList
      ensures Running() && WokenUp(conn, w, io)
      ensures stories == old(stories)[conn := Extended(old(stories)[conn], w, old(kernel.now))]
      ensures stories[conn].last == conn.lastActive && Tells(stories[conn], tlsAvailable, conn.out, conn.readBuf)
      ensures forall fd :: old(Lost(fd)) ==> Lost(fd)
    {
      hide *;
      AboutSettled();
      AboutOne(null, conn);
      ghost var s, buf := conn.out, conn.readBuf;
      var before := conn.out.state;
      var want, closed;
      ghost var served;
      want, closed, served := Advance(conn, io);
      w := Awakening(io, served, want, conn.out, conn.readBuf);
      ReleasedIsClosed(s, buf, conn.out, io);
      AsLookedUp(conn, w, io);
      label Done:
      Record(conn, s, buf, w);
      Conclude(conn, before, want, closed);
      StaysLookedUp(conn, w, io, old@Done(kernel.open));
      IsWokenUp(conn, w, io);
    }

    twostate lemma AsLookedUp(conn: Connection, new w: Awakening, new io: Io)
      requires LookedUp(conn, w.buf, w.served, io)
      ensures Replies(old(conn.out), old(conn.readBuf), io) ==>
                w.served == SeenAs(io.lookup, io.hint, old(OpenForReply(conn)))
      ensures kernel.open.Keys <= old(kernel.open.Keys)
                + if Replies(old(conn.out), old(conn.readBuf), io) && SecondFile(w.buf, w.served) then {io.hint} else {}
    {
      hide Replies, SecondFile, SeenAs;
    }

    twostate lemma StaysLookedUp(conn: Connection, new w: Awakening, new io: Io, new open: map<int, Handle>)
      requires Replies(old(conn.out), old(conn.readBuf), io) ==>
               w.served == SeenAs(io.lookup, io.hint, old(OpenForReply(conn)))
      requires open.Keys <= old(kernel.open.Keys)
               + if Replies(old(conn.out), old(conn.readBuf), io) && SecondFile(w.buf, w.served) then {io.hint} else {}
      requires kernel.open.Keys <= open.Keys
      ensures LookedUp(conn, w.buf, w.served, io)
    {
      hide Replies, SecondFile, SeenAs;
    }

    /** A request in the buffer is answered, so it is not the turn that closes. */
    lemma ReleasedIsClosed(before: SenderFields, buf: string, after: SenderFields, io: Io)
      ensures Released(before, buf, after, io) ==> after.state == CLOSED && before.state != PARSING
    {
    }

    twostate lemma IsWokenUp(conn: Connection, new w: Awakening, new io: Io)
      requires conn in slots && old(pool.Valid()) && pool.Valid()
      requires w.io == io && w.after == conn.out && w.buf == conn.readBuf
      requires Consistent(old(conn.out)) && Wakes(old(conn.out), old(conn.readBuf), tlsAvailable, w)
      requires pool.Acquired() == old(pool.Acquired())
                 - (if Released(old(conn.out), old(conn.readBuf), conn.out, io) then {conn.slot} else {})
      requires old(conn.out.state) == PARSING ==>
               FileSettled(conn, SecondFile(old(conn.readBuf), w.served), w.served, io)
      requires LookedUp(conn, w.buf, w.served, io)
      requires Stamped(old(conn.out.state), conn.out.state, old(conn.lastActive), conn.lastActive, old(kernel.now))
      requires kernel.now == old(kernel.now)
      ensures WokenUp(conn, w, io)
    {
      hide Wakes, Stamped, SecondFile, FileSettled, Released, LookedUp, CP.ConnectionPool.Acquired;
    }

    /** The wakeup joins the connection's story: unless it waits for nothing, the filter to
        be armed is now that of its want. */
    ghost method Record(conn: Connection, s: Sender, buf: string, w: Awakening)
      requires Base(conn) && RegsOk(kernel.regs) && conn in slots && w.after == conn.out && w.buf == conn.readBuf
      requires conn in stories && Tells(stories[conn], tlsAvailable, s, buf) && Wakes(s, buf, tlsAvailable, w)
      requires Stamped(s.state, w.after.state, stories[conn].last, conn.lastActive, kernel.now)
      modifies `stories
      ensures Base(conn) && Pending(conn, w.want)
      ensures stories == old(stories)[conn := Extended(old(stories)[conn], w, kernel.now)]
      ensures stories[conn].last == conn.lastActive && Tells(stories[conn], tlsAvailable, conn.out, conn.readBuf)
    {
      hide Wakes, Tells, LastWant;
      StoryGrows(stories[conn], tlsAvailable, s, buf, w, kernel.now);
      StoryIs(stories[conn], s, buf);
      label Before:
      stories := stories[conn := Extended(stories[conn], w, kernel.now)];
      RecordKeepsRegs@Before(conn);
    }

    lemma StoryIs(st: Story, s: Sender, buf: string)
      requires Tells(st, tlsAvailable, s, buf)
      ensures Now(st) == s && NowBuf(st) == buf
    {
    }

    twostate lemma RecordKeepsRegs(conn: Connection)
      requires old(RegsOk(kernel.regs)) && unchanged(kernel) && conn in slots
      requires forall c :: c in slots ==> unchanged(c)
      requires forall c :: c in slots && c != conn ==> Wanted(c) == old(Wanted(c))
      ensures RegsBut(kernel.regs, conn)
      ensures Wanted(conn) == old(Wanted(conn)) ==> RegsOk(kernel.regs)
    {
      forall c | c in slots && c.fd != -1 && Wanted(c) == old(Wanted(c)) ensures Armed(kernel.regs, c) {
        assert old(Armed(kernel.regs, c));
      }
      forall key | key in kernel.regs ensures Known(key, kernel.regs[key]) {
        assert old(Known(key, kernel.regs[key]));
      }
    }

    /** What is left to do: the registrations are right but for a want not yet acted on. */
    ghost predicate Pending(conn: Connection, want: Want)
      reads `stories, kernel`regs, slots`fd
    {
      && RegsBut(kernel.regs, conn)
      && if want == NONE then RegsOk(kernel.regs) else Wanted(conn) == FilterOf(want)
    }

    /** `closed`: by its turn. */
    method Conclude(conn: Connection, before: State, want: Want, closed: bool)
      requires Base(conn) && Pending(conn, want) && changelist == [] && conn in slots
               && (conn.inList <==> before == KEEP_ALIVE)
      requires closed ==> conn.slot in pool.Acquired() && conn.out.state == CLOSED
      modifies `keepaliveHead, `ka, `changelist, slots`prev, slots`next, slots`inList
      modifies conn`fd, conn`fileFd, conn`out, kernel, pool, pool.freeList
      ensures Running() && pool.Valid() && conn.out == old(conn.out)
      ensures pool.Acquired() == old(pool.Acquired()) - (if closed then {conn.slot} else {})
      ensures !closed ==> unchanged(kernel) && unchanged(conn`fd, conn`fileFd)
      ensures kernel.open.Keys <= old(kernel.open.Keys)
      ensures forall fd :: old(Lost(fd)) ==> Lost(fd)
      ensures kernel.now == old(kernel.now)
    {
      hide *;
      if closed {
        Bury(conn, want);
      } else {
        Follow(conn, before, want);
      }
    }

    /** A connection closed by its turn is destroyed. */
    method Bury(conn: Connection, want: Want)
      requires Base(conn) && Pending(conn, want) && changelist == [] && conn in slots
      requires conn.slot in pool.Acquired() && conn.out.state == CLOSED
      modifies `keepaliveHead, `ka, `changelist, slots`prev, slots`next, slots`inList
      modifies conn`fd, conn`fileFd, conn`out, kernel, pool, pool.freeList
      ensures Running() && pool.Valid() && conn.out == old(conn.out)
      ensures pool.Acquired() == old(pool.Acquired()) - {conn.slot}
      ensures kernel.open.Keys <= old(kernel.open.Keys)
      ensures forall fd :: old(Lost(fd)) ==> Lost(fd)
      ensures kernel.now == old(kernel.now)
    {
      hide Base, RegsBut, Lost;
      AboutOne(conn, conn);
      ClosedStaysSame(conn);
      GoneNeedsNothing(kernel.regs, conn);
      DestroyConnection(conn);
      AboutList(null);
    }

    /** Otherwise list and filters follow its state. */
    method Follow(conn: Connection, before: State, want: Want)
      requires Base(conn) && Pending(conn, want) && changelist == [] && conn in slots
      requires conn.inList <==> before == KEEP_ALIVE
      modifies `keepaliveHead, `ka, `changelist, slots`prev, slots`next, slots`inList
      ensures Running() && pool.Valid()
    {
      hide Base, RegsBut;
      SyncList(conn, before);
      UpdateEvents(conn, want);
      AboutList(null);
    }

    lemma ClosedStaysSame(conn: Connection)
      requires conn.Inner() && conn.out.state == CLOSED
      ensures Close(conn.out) == conn.out
    {
    }

    /** The turn of the state machine and, unless that closed the connection, the response. */
    method Advance(conn: Connection, io: Io) returns (want: Want, closed: bool, ghost served: Lookup)
      requires Settled() && conn in slots && conn.out.state != CLOSED
      modifies conn`fd, conn`fileFd, conn`out, conn`readBuf, conn`request, conn`lastActive, kernel, `owner
      ensures Base(conn) && RegsOk(kernel.regs)
      ensures closed <==> Released(old(conn.out), old(conn.readBuf), conn.out, io)
      ensures conn.slot in pool.Acquired() && (conn.inList <==> old(conn.out.state) == KEEP_ALIVE)
      ensures Consistent(old(conn.out)) && Consistent(conn.out)
      ensures Wakes(old(conn.out), old(conn.readBuf), tlsAvailable, Awakening(io, served, want, conn.out, conn.readBuf))
      ensures old(conn.out.state) == PARSING ==> FileSettled(conn, SecondFile(old(conn.readBuf), served), served, io)
      ensures LookedUp(conn, conn.readBuf, served, io)
      ensures Stamped(old(conn.out.state), conn.out.state, old(conn.lastActive), conn.lastActive, old(kernel.now))
      ensures forall fd :: old(Lost(fd)) ==> Lost(fd)
      ensures kernel.now == old(kernel.now)
    {
      hide Base, RegsBut, Worked, Ran, Replies, Stamped, AnswerTo, HttpRequest.ParseText, Connection.Inner;
      hide Connection.Holds, Reply, ConnsOk, ListOk, PoolOk, Slotted, RequestOf, ApplyAll, ErrorResponse, WithPage;
      hide HttpResponse.HeaderText, Wake, CP.ConnectionPool.Valid, Kernel.Valid, Consistent;
      AboutOne(null, conn);
      want := RunTurn(conn, io);
      AboutOne(conn, conn);
      ghost var mid, wanted := conn.out, want;
      ghost var request, open := conn.request, kernel.open;
      ReadLeavesFile(old(conn.out), old(conn.readBuf), mid, conn.readBuf, request, want, tlsAvailable, io);
      closed, served := conn.out.state == CLOSED, Missing;
      if !closed {
        want, served := Respond(conn, io, want);
      }
      TurnThenReply(old(conn.out), old(conn.readBuf), mid, conn.readBuf, wanted, tlsAvailable, request,
                    conn.out, want, served, io);
      ClosedBeforeReply(old(conn.out), old(conn.readBuf), mid, conn.readBuf, wanted, tlsAvailable, request,
                        conn.out, want, served, io);
      TouchesBeforeReply(old(conn.out), old(conn.readBuf), mid, conn.readBuf, wanted, tlsAvailable, request,
                         conn.out, want, served, io);
      SameStamp(old(conn.out.state), mid.state, conn.out.state, old(conn.lastActive), conn.lastActive, kernel.now);
      LooksUp(conn, served, io, open, mid.state);
    }

    twostate lemma LooksUp(conn: Connection, new served: Lookup, new io: Io, new open: map<int, Handle>, new mid: State)
      requires Replies(old(conn.out), old(conn.readBuf), io) ==>
               open == old(OpenForReply(conn)) && served == SeenAs(io.lookup, io.hint, open)
      requires mid == PARSING ==> Replies(old(conn.out), old(conn.readBuf), io)
      requires open.Keys <= old(kernel.open.Keys)
      requires kernel.open.Keys
               <= open.Keys + if mid == PARSING && SecondFile(conn.readBuf, served) then {io.hint} else {}
      ensures LookedUp(conn, conn.readBuf, served, io)
    {
      hide Replies, SecondFile, SeenAs, OpenForReply;
    }

    lemma SameStamp(before: State, mid: State, after: State, last: int, lastAfter: int, now: int)
      requires Stamped(before, mid, last, lastAfter, now) && (Touches(before, after) <==> Touches(before, mid))
      ensures Stamped(before, after, last, lastAfter, now)
    {
    }

    /** The action of the current state. */
    method RunTurn(conn: Connection, io: Io) returns (want: Want)
      requires Settled() && conn in slots && conn.out.state != CLOSED
      modifies conn`fd, conn`fileFd, conn`out, conn`readBuf, conn`request, conn`lastActive, kernel
      ensures Base(conn) && RegsOk(kernel.regs)
      ensures Consistent(old(conn.out))
      ensures Ran(old(conn.out), old(conn.readBuf), conn.out, conn.readBuf, conn.request, want, tlsAvailable, io)
      ensures Stamped(old(conn.out.state), conn.out.state, old(conn.lastActive), conn.lastActive, old(kernel.now))
      ensures old(conn.out.state) == PARSING ==>
                kernel.open == old(kernel.open) && conn.fd == old(conn.fd) && conn.fileFd == old(conn.fileFd)
                && conn.readBuf == old(conn.readBuf) && ParsedOrRefused(conn.out, conn.readBuf)
      ensures kernel.open.Keys <= old(kernel.open.Keys)
      ensures Replies(old(conn.out), old(conn.readBuf), io) ==> kernel.open == old(OpenForReply(conn))
      ensures Consistent(conn.out) && (conn.out.state == PARSING ==> RequestOf(conn.request, conn.readBuf))
      ensures forall fd :: old(Lost(fd)) ==> Lost(fd)
      ensures kernel.now == old(kernel.now)
    {
      hide *;
      AboutSettled();
      AboutOne(null, conn);
      SoundBuffers(conn);
      label Before:
      want := conn.RunState(kernel, tlsAvailable, io);
      SoundBuffers(conn);
      ItIsStamped(old(conn.out.state), conn.out.state, old(conn.lastActive), conn.lastActive, kernel.now);
      RanLeaves(old(conn.out), old(conn.readBuf), conn, want, io);
      HasTurned@Before(conn);
      OpenAfterTurn@Before(conn, want, io);
      TurnKeepsLost@Before(conn);
      TurnKeepsSettled@Before(conn);
    }

    /** What is left open when the turn has read a request. */
    twostate lemma OpenAfterTurn(conn: Connection, new want: Want, new io: Io)
      requires old(conn.Inner() && conn.Holds(kernel) && kernel.Valid()) && Turned(conn)
      requires Ran(old(conn.out), old(conn.readBuf), conn.out, conn.readBuf, conn.request, want, tlsAvailable, io)
      requires old(conn.out.state) == PARSING ==> kernel.open == old(kernel.open)
      ensures Replies(old(conn.out), old(conn.readBuf), io) ==> kernel.open == old(OpenForReply(conn))
    {
      hide Ran, Replies;
      if Replies(old(conn.out), old(conn.readBuf), io) && old(conn.out.state) != PARSING {
        ReadLeavesFile(old(conn.out), old(conn.readBuf), conn.out, conn.readBuf, conn.request, want, tlsAvailable, io);
        assert old(conn.Handles()) - conn.Handles() == {old(conn.fileFd)} - {-1};
      }
    }

    lemma ItIsStamped(before: State, after: State, last: int, lastAfter: int, now: int)
      requires lastAfter == if Touches(before, after) then now else last
      ensures Stamped(before, after, last, lastAfter, now)
    {
    }

    lemma RanLeaves(s: Sender, buf: string, conn: Connection, want: Want, io: Io)
      requires Consistent(conn.out) && Ran(s, buf, conn.out, conn.readBuf, conn.request, want, tlsAvailable, io)
      ensures conn.out.state == PARSING ==> RequestOf(conn.request, conn.readBuf)
    {
      hide Ran, RequestOf;
      if conn.out.state == PARSING {
        RanLeavesRequest(s, buf, conn.out, conn.readBuf, conn.request, want, tlsAvailable, io);
      }
    }

    twostate lemma HasTurned(conn: Connection)
      requires conn in slots && unchanged(this) && unchanged(pool) && unchanged(pool.freeList)
      requires forall c :: c in slots && c != conn ==> unchanged(c)
      requires conn.prev == old(conn.prev) && conn.next == old(conn.next) && conn.inList == old(conn.inList)
      requires conn.Inner() && conn.Holds(kernel) && kernel.Valid() && conn.GaveUp(kernel)
               && old(conn.out.state) != CLOSED
      ensures Turned(conn)
    {
      hide Connection.Inner, Connection.Holds, Connection.GaveUp, Kernel.Valid;
    }

    lemma SoundBuffers(conn: Connection)
      requires conn.Inner()
      ensures Consistent(conn.out)
      ensures conn.out.state == READING ==> conn.request == HttpRequest.EMPTY
    {
    }

    /** A request just read is parsed, and a parsed one answered. */
    method Respond(conn: Connection, io: Io, wanted: Want) returns (want: Want, ghost served: Lookup)
      requires Base(conn) && RegsOk(kernel.regs) && changelist == [] && conn in slots && conn.out.state != CLOSED
      requires conn.out.state == PARSING ==> RequestOf(conn.request, conn.readBuf)
      modifies conn`fd, conn`fileFd, conn`out, conn`request, kernel, `owner
      ensures Base(conn) && RegsOk(kernel.regs)
      ensures Consistent(old(conn.out))
      ensures old(conn.out.state) == PARSING ==> FileSettled(conn, SecondFile(conn.readBuf, served), served, io)
      ensures Consistent(conn.out)
      ensures old(conn.out.state) != PARSING ==>
                kernel.open == old(kernel.open) && conn.fd == old(conn.fd) && conn.fileFd == old(conn.fileFd)
                && served == SeenAs(io.lookup, io.hint, kernel.open)
      ensures served == SeenAs(io.lookup, io.hint, old(kernel.open))
      ensures kernel.open.Keys <= old(kernel.open.Keys)
                + if old(conn.out.state) == PARSING && SecondFile(conn.readBuf, served) then {io.hint} else {}
      ensures Replied(old(conn.out), conn.readBuf, wanted, conn.out, want, served, io)
      ensures forall fd :: old(Lost(fd)) ==> Lost(fd)
      ensures kernel.now == old(kernel.now)
    {
      hide Base, RegsBut, HttpRequest.ParseText, Wake, PlanOf, AnswerTo, ErrorResponse, WithPage, Lost;
      hide Connection.Inner, Connection.Holds, ConnsOk, ListOk, PoolOk, Slotted, ApplyAll, HttpResponse.HeaderText;
      hide CP.ConnectionPool.Valid, Kernel.Valid, Consistent;
      want, served := wanted, SeenAs(io.lookup, io.hint, kernel.open);
      AboutOne(conn, conn);
      SoundBuffers(conn);
      NoFileForUnknown(HttpRequest.ParseText(conn.readBuf).request, served);
      if conn.out.state == PARSING && conn.request.verb == HttpRequest.UNKNOWN {
        want := ParseInline(conn, io.date);
        NothingSettled(conn, served, io);
        AboutOne(conn, conn);
        SoundBuffers(conn);
      }
      if (conn.out.state == PARSING || conn.out.state == READING) && conn.request.verb != HttpRequest.UNKNOWN {
        want, served := AnswerRequest(conn, io);
      }
    }

    /** Parsing gives up nothing. */
    twostate lemma ParsingKeepsAll(conn: Connection)
      requires old(Base(conn)) && old(RegsOk(kernel.regs)) && changelist == [] && conn in slots
      requires unchanged(this) && unchanged(kernel) && unchanged(pool) && unchanged(pool.freeList)
      requires forall c :: c in slots && c != conn ==> unchanged(c)
      requires unchanged(conn`fd, conn`fileFd, conn`prev, conn`next, conn`inList)
      requires conn.Inner() && conn.Holds(kernel) && old(conn.out.state) != CLOSED
      ensures Base(conn) && RegsOk(kernel.regs)
    {
      DroppedNothing(kernel.open, kernel.regs);
      TurnKeepsAll(conn);
    }

    method ParseInline(conn: Connection, date: string) returns (want: Want)
      requires Base(conn) && RegsOk(kernel.regs) && changelist == [] && conn in slots && conn.out.state == PARSING
      modifies conn`out, conn`request
      ensures Base(conn) && RegsOk(kernel.regs)
      ensures conn.request == HttpRequest.ParseText(conn.readBuf).request
      ensures Consistent(old(conn.out)) && ParsedOrRefused(conn.out, conn.readBuf)
      ensures Yields(conn.out, want, if HttpRequest.ParseText(conn.readBuf).ok then Outcome(old(conn.out), NONE)
                 else Outcome(WithPage(old(conn.out), ErrorResponse(HttpResponse.BAD_REQUEST, false), date), WRITE))
      ensures forall fd :: old(Lost(fd)) ==> Lost(fd)
    {
      hide Base, RegsBut, HttpRequest.ParseText, WithPage, ErrorResponse, Connection.Inner;
      AboutOne(conn, conn);
      SoundBuffers(conn);
      want := conn.DoParse(date);
      ParsingKeepsAll(conn);
    }

    method AnswerRequest(conn: Connection, io: Io) returns (want: Want, ghost served: Lookup)
      requires Base(conn) && RegsOk(kernel.regs) && changelist == [] && conn in slots && conn.out.state == PARSING
      modifies conn`fd, conn`fileFd, conn`out, kernel, `owner
      ensures Base(conn) && RegsOk(kernel.regs)
      ensures FileSettled(conn, AnswerTo(conn.request, served).part.Some?, served, io)
      ensures Consistent(conn.out)
      ensures PlanFits(PlanOf(AnswerTo(conn.request, served), io.date))
      ensures Yields(conn.out, want, Wake(old(conn.out), PlanOf(AnswerTo(conn.request, served), io.date), io.send))
      ensures forall fd :: old(Lost(fd)) ==> Lost(fd)
      ensures kernel.now == old(kernel.now)
    {
      hide Base, RegsBut, PlanOf, AnswerTo, SendHeaders, Lost;
      served := PrepareAndRecord(conn, io);
      want := SendFirst(conn, io);
    }

    method SendFirst(conn: Connection, io: Io) returns (want: Want)
      requires Base(conn) && RegsOk(kernel.regs) && changelist == [] && conn in slots && conn.out.state == PARSING
      modifies conn`fd, conn`fileFd, conn`out, kernel
      ensures Base(conn) && RegsOk(kernel.regs)
      ensures forall fd :: old(Lost(fd)) ==> Lost(fd)
      ensures old(conn.fileFd) != -1 ==> !Lost(old(conn.fileFd))
      ensures kernel.open.Keys <= old(kernel.open.Keys) && conn.fileFd in {old(conn.fileFd), -1}
      ensures Consistent(conn.out)
      ensures Consistent(old(conn.out)) && Outcome(conn.out, want) == SendHeaders(old(conn.out), io.send)
      ensures kernel.now == old(kernel.now)
    {
      hide Base, RegsBut, SendHeaders;
      AboutOne(conn, conn);
      label Before:
      want := conn.DoSendHeaders(kernel, io.send);
      SoundBuffers(conn);
      TurnKeepsLost@Before(conn);
      TurnKeepsSettled@Before(conn);
    }

    method PrepareAndRecord(conn: Connection, io: Io) returns (ghost served: Lookup)
      requires Base(conn) && conn in slots && conn.out.state == PARSING
      modifies conn`fileFd, conn`out, kernel, `owner
      ensures Base(conn) && kernel.regs == old(kernel.regs)
      ensures FileSettled(conn, AnswerTo(conn.request, served).part.Some?, served, io)
      ensures conn.fileFd == if AnswerTo(conn.request, served).part.Some? then io.hint else old(conn.fileFd)
      ensures PlanFits(PlanOf(AnswerTo(conn.request, served), io.date))
      ensures conn.out == Prepared(old(conn.out), PlanOf(AnswerTo(conn.request, served), io.date))
      ensures forall fd :: old(Lost(fd)) ==> Lost(fd)
      ensures kernel.now == old(kernel.now)
    {
      hide Base, RegsBut, FileSettled, FileTaken, AnswerTo, PlanOf, Connection.Inner, Connection.Holds;
      AboutOne(conn, conn);
      served := PrepareResponse(conn, io.lookup, io.hint, io.date);
      owner := owner[conn.fileFd := conn];
      FileKeepsLost(conn);
      FileKeepsBase(conn);
      PreparedSettles(conn, served, io);
    }

    /** Entering KEEP_ALIVE puts the connection on the list, leaving it takes it off. */
    method SyncList(conn: Connection, before: State)
      requires Base(conn) && conn in slots && (conn.inList <==> before == KEEP_ALIVE)
      modifies `keepaliveHead, `ka, slots`prev, slots`next, slots`inList
      ensures Base(null)
    {
      hide Base;
      if before != KEEP_ALIVE && conn.out.state == KEEP_ALIVE {
        Enlist(conn);
      } else if before == KEEP_ALIVE && conn.out.state != KEEP_ALIVE {
        Delist(conn);
      }
      AgreesAgain(conn);
    }

    method Enlist(conn: Connection)
      requires Base(conn) && conn in slots
      modifies `keepaliveHead, `ka, slots`prev, slots`next, slots`inList
      ensures Base(conn) && conn.inList
    {
      hide ConnsOk, SocketsOwned, PoolOk, ListenerOpen, Slotted, ListOk;
      AddToKeepaliveList(conn);
    }

    lemma AgreesAgain(conn: Connection)
      requires Base(conn) && (conn.inList <==> conn.out.state == KEEP_ALIVE)
      ensures Base(null)
    {
    }

    /** Arming the wanted filter of a live connection and deleting the other, in either
        order, leaves every connection with exactly its own. */
    lemma RearmKeepsRegs(m: Registry, conn: Connection)
      requires RegsBut(m, conn) && ConnsOk() && conn in slots && conn.fd != -1
      ensures RegsOk(m[(conn.fd, Wanted(conn)) := conn] - {(conn.fd, Other(Wanted(conn)))})
    {
      var n := m[(conn.fd, Wanted(conn)) := conn] - {(conn.fd, Other(Wanted(conn)))};
      assert Owns(conn);
      forall c | c in slots && c.fd != -1 ensures Armed(n, c) {
        assert Owns(c);
        assert c != conn ==> Armed(m, c);
      }
      forall key | key in n ensures Known(key, n[key]) {
        assert key in m ==> Known(key, m[key]);
      }
    }

    /** `update_events`: the wanted filter is armed and the other deleted; NONE and a closed
        connection change nothing, and no other connection is touched. */
    method UpdateEvents(conn: Connection, want: Want)
      requires Base(null) && changelist == [] && Pending(conn, want) && conn in slots
      modifies `changelist
      ensures Running()
      ensures changelist == if conn.out.state == CLOSED then [] else Changes(conn, want)
    {
      hide Base, RegsBut, Armed, ConnsOk;
      AboutOne(null, conn);
      AboutConns(null);
      if conn.fd < 0 || conn.out.state == CLOSED {
        GoneNeedsNothing(kernel.regs, conn);
        return;
      }
      match want
      case READ => { WantRead(conn); }
      case WRITE => { WantWrite(conn); }
      case NONE => {}
    }

    ghost function Changes(conn: Connection, want: Want): seq<Change>
      reads conn`fd
    {
      match want
      case READ => [Add(conn.fd, ReadFilter, conn), Delete(conn.fd, WriteFilter)]
      case WRITE => [Delete(conn.fd, ReadFilter), Add(conn.fd, WriteFilter, conn)]
      case NONE => []
    }

    lemma GoneNeedsNothing(m: Registry, conn: Connection)
      requires RegsBut(m, conn) && conn.fd == -1
      ensures RegsOk(m)
    {
    }

    method WantRead(conn: Connection)
      requires ConnsOk() && changelist == [] && RegsBut(kernel.regs, conn) && conn in slots && conn.fd != -1
      requires Wanted(conn) == ReadFilter
      modifies `changelist
      ensures RegsOk(ApplyAll(kernel.regs, changelist)) && kernel.AddsOpen(changelist)
      ensures changelist == Changes(conn, READ)
    {
      var on, off := Add(conn.fd, ReadFilter, conn), Delete(conn.fd, WriteFilter);
      RearmKeepsRegs(kernel.regs, conn);
      ApplyPair(kernel.regs, on, off);
      assert conn.Holds(kernel);
      AddEvent(on);
      AddEvent(off);
      assert changelist == [on, off];
    }

    method WantWrite(conn: Connection)
      requires ConnsOk() && changelist == [] && RegsBut(kernel.regs, conn) && conn in slots && conn.fd != -1
      requires Wanted(conn) == WriteFilter
      modifies `changelist
      ensures RegsOk(ApplyAll(kernel.regs, changelist)) && kernel.AddsOpen(changelist)
      ensures changelist == Changes(conn, WRITE)
    {
      var off, on := Delete(conn.fd, ReadFilter), Add(conn.fd, WriteFilter, conn);
      RearmKeepsRegs(kernel.regs, conn);
      DifferentEntriesCommute(kernel.regs, conn.fd, WriteFilter, ReadFilter, conn);
      ApplyPair(kernel.regs, off, on);
      assert conn.Holds(kernel);
      AddEvent(off);
      AddEvent(on);
      assert changelist == [off, on];
    }

    // ---- Accepting ----

    /** Just after `accept`: everything holds, but nobody owns the new socket yet. */
    ghost predicate Accepting(fd: int)
      reads `ka, `keepaliveHead, `owner, `stories, `changelist, kernel, pool, pool.freeList
      reads slots`fd, slots`fileFd, slots`out, slots`readBuf, slots`request
      reads slots`prev, slots`next, slots`inList
    {
      && Slotted() && ListenerOpen() && ListOk() && ConnsOk() && SocketsOwned(fd)
      && ListedIffIdle(null) && PoolOk()
      && RegsOk(ApplyAll(kernel.regs, changelist)) && kernel.AddsOpen(changelist)
      && Unclaimed(fd)
    }

    ghost predicate Unclaimed(fd: int)
      reads `changelist, kernel, slots`fd, slots`fileFd
    {
      && fd >= 0 && fd in kernel.open && kernel.open[fd].Socket?
      && (forall c :: c in slots ==> fd !in c.Handles())
      && (forall key :: key in kernel.regs && key.1 != TimerFilter ==> key.0 != fd)
      && (forall i :: 0 <= i < |changelist| && changelist[i].Add? && changelist[i].filter != TimerFilter ==>
            changelist[i].ident != fd)
    }

    method AcceptOne(hint: int) returns (fd: int)
      requires Running()
      modifies kernel
      ensures fd < 0 ==> Running()
      ensures if fd < 0 then hint < 0 || hint in kernel.open else fd == hint && Accepting(fd)
      ensures fd < 0 ==> kernel.open == old(kernel.open)
      ensures fd >= 0 ==> fd !in old(kernel.open) && kernel.open.Keys == old(kernel.open.Keys) + {fd}
      ensures kernel.closed == old(kernel.closed)
      ensures kernel.now == old(kernel.now)
    {
      label Before:
      fd := kernel.Accept(hint);
      if fd < 0 {
        SameKernel();
      } else {
        AcceptKeepsConns(fd);
      }
    }

    twostate lemma SameKernel()
      requires old(Running())
      requires kernel.Valid() && kernel.open == old(kernel.open) && kernel.regs == old(kernel.regs)
      requires unchanged(this) && unchanged(pool) && unchanged(pool.freeList)
      requires forall c :: c in slots ==> unchanged(c)
      ensures Running()
    {
      forall c | c in slots ensures c.Inner() && c.Holds(kernel) && Owns(c) {
        assert old(c.Inner() && c.Holds(kernel) && Owns(c));
      }
    }

    twostate lemma AcceptKeepsConns(new fd: int)
      requires old(Running()) && fd >= 0 && fd !in old(kernel.open) && fd in kernel.open
      requires kernel.Valid() && kernel.open == old(kernel.open)[fd := kernel.open[fd]] && kernel.open[fd].Socket?
      requires kernel.regs == old(kernel.regs)
      requires unchanged(this) && unchanged(pool) && unchanged(pool.freeList)
      requires forall c :: c in slots ==> unchanged(c)
      ensures Accepting(fd)
    {
      hide Connection.Inner;
      forall c | c in slots ensures c.Inner() && c.Holds(kernel) && Owns(c) && fd !in c.Handles() {
        assert old(c.Inner() && c.Holds(kernel) && Owns(c));
      }
    }

    /** The socket gets a slot, a closed one; null when none is free. */
    method CreateConnection(fd: int) returns (conn: Connection?)
      requires Accepting(fd)
      modifies pool, `owner, `changelist, `stories, slots
      ensures conn == null ==> Accepting(fd) && pool.Acquired() == CP.Below(CP.MAX_CONNECTIONS)
      ensures conn != null ==> Running() && conn in slots && conn.fd == fd
                               && conn.fileFd == -1 && conn.out.state == PROTO_DETECT
      ensures conn != null ==> pool.activeCount == old(pool.activeCount) + 1
      ensures conn != null ==> old(conn.out.state) == CLOSED && Consistent(conn.out)
      ensures conn == null ==> pool.Acquired() == old(pool.Acquired())
      ensures conn != null ==> conn.slot !in old(pool.Acquired())
                               && pool.Acquired() == old(pool.Acquired()) + {conn.slot}
      ensures conn != null ==> conn in stories && stories == old(stories)[conn := stories[conn]]
                               && Begins(conn, stories[conn]) && stories[conn].last == kernel.now
      ensures conn == null ==> stories == old(stories)
      ensures forall c :: c in slots && c != conn ==> unchanged(c)
    {
      hide Base, RegsBut;
      var idx := pool.Acquire();
      if idx.None? { return null; }
      conn := conns[idx.value];
      Claim(conn, fd);
    }

    method Claim(conn: Connection, fd: int)
      requires Accepting(fd) && conn in slots && conn.out.state == CLOSED && conn.slot in pool.Acquired()
      modifies `owner, `changelist, `stories, conn
      ensures Running() && conn.fd == fd && conn.fileFd == -1
              && conn.out.state == PROTO_DETECT && Consistent(conn.out)
      ensures conn in stories && stories == old(stories)[conn := stories[conn]]
      ensures Begins(conn, stories[conn]) && stories[conn].last == kernel.now
    {
      hide Accepting, Base, RegsBut;
      AcceptingFacts(fd);
      TakeSocket(conn, fd);
      AboutOne(null, conn);
      ApplyAppend(kernel.regs, changelist, Add(fd, ReadFilter, conn));
      AddEvent(Add(fd, ReadFilter, conn));
    }

    lemma AcceptingFacts(fd: int)
      requires Accepting(fd)
      ensures kernel.AddsOpen(changelist)
    {
    }

    method TakeSocket(conn: Connection, fd: int)
      requires Accepting(fd) && conn in slots && conn.out.state == CLOSED && conn.slot in pool.Acquired()
      modifies `owner, `stories, conn
      ensures Base(null) && RegsOk(ApplyAll(kernel.regs, changelist)[(fd, ReadFilter) := conn])
      ensures conn.fd == fd && conn.fileFd == -1 && conn.out.state == PROTO_DETECT
              && Consistent(conn.out)
      ensures conn in stories && stories == old(stories)[conn := stories[conn]]
      ensures Begins(conn, stories[conn]) && stories[conn].last == kernel.now
    {
      hide Connection.Inner, PoolOk, RegsOk;
      assert conn.Inner();
      ListedHasFlag(conn);
      label Before:
      conn.Init(kernel, fd);
      owner := owner[fd := conn];
      stories := stories[conn := Story(conn.out, [], conn.lastActive)];
      ClaimKeepsConns@Before(conn);
      ClaimKeepsRest@Before(conn);
      ClaimKeepsRegs@Before(conn);
    }

    /** A closed slot has taken over the new socket. */
    twostate predicate Claimed(conn: Connection)
      reads this, slots, kernel, pool, pool.freeList
    {
      && conn in slots && old(conn.out.state) == CLOSED
      && conn.Inner() && conn.Holds(kernel) && conn.fd != -1 && conn.fileFd == -1
      && conn.out.state == PROTO_DETECT && !conn.inList && !old(conn.inList)
      && (forall c :: c in slots && c != conn ==> unchanged(c))
      && unchanged(kernel) && unchanged(pool) && unchanged(pool.freeList)
      && unchanged(`ka, `keepaliveHead, `changelist)
      && owner == old(owner)[conn.fd := conn]
      && conn in stories && stories == old(stories)[conn := stories[conn]] && LastWant(stories[conn].ws) == READ
    }

    twostate lemma ClaimKeepsConns(conn: Connection)
      requires var fd := conn.fd; old(Accepting(fd)) && Claimed(conn)
      ensures ConnsOk() && SocketsOwned(-1) && ListenerOpen()
    {
      assert old(conn.Inner());
      forall c | c in slots && c != conn ensures c.Inner() && c.Holds(kernel) && Owns(c) {
        assert old(c.Inner() && c.Holds(kernel) && Owns(c)) && conn.fd !in old(c.Handles());
      }
    }

    twostate lemma ClaimKeepsRest(conn: Connection)
      requires var fd := conn.fd; old(Accepting(fd)) && Claimed(conn)
      requires conn.slot in pool.Acquired() && old(conn !in ka)
      ensures Slotted() && ListOk() && ListedIffIdle(null) && PoolOk()
    {
      forall i | 0 <= i < |ka| ensures LinkedAt(i) {
        assert old(LinkedAt(i));
      }
    }

    twostate lemma ClaimKeepsKnown(conn: Connection)
      requires var fd := conn.fd; old(Accepting(fd)) && Claimed(conn)
      ensures var m := ApplyAll(kernel.regs, changelist);
              forall key :: key in m ==> Known(key, m[key]) && key != (conn.fd, WriteFilter)
    {
      var m := ApplyAll(kernel.regs, changelist);
      forall key | key in m ensures Known(key, m[key]) && key != (conn.fd, WriteFilter) {
        assert old(Known(key, m[key]));
      }
    }

    twostate lemma ClaimKeepsArmed(conn: Connection)
      requires var fd := conn.fd; old(Accepting(fd)) && Claimed(conn)
      ensures forall c :: c in slots && c.fd != -1 && c != conn ==>
                            c.fd != conn.fd && Armed(ApplyAll(kernel.regs, changelist), c)
    {
      hide ApplyAll, Connection.Inner;
      forall c | c in slots && c.fd != -1 && c != conn
        ensures c.fd != conn.fd && Armed(ApplyAll(kernel.regs, changelist), c)
      {
        assert old(Armed(ApplyAll(kernel.regs, changelist), c)) && conn.fd !in old(c.Handles());
      }
    }

    twostate lemma ClaimKeepsRegs(conn: Connection)
      requires var fd := conn.fd; old(Accepting(fd)) && Claimed(conn)
      ensures RegsOk(ApplyAll(kernel.regs, changelist)[(conn.fd, ReadFilter) := conn])
    {
      hide Accepting, ApplyAll, Connection.Inner, Connection.Holds;
      ClaimKeepsKnown(conn);
      ClaimKeepsArmed(conn);
    }

    method CloseUnclaimed(fd: int)
      requires Accepting(fd)
      modifies kernel
      ensures Running() && kernel.open == old(kernel.open) - {fd}
      ensures kernel.now == old(kernel.now)
    {
      label Before:
      kernel.Close(fd);
      UnclaimedForgets@Before(fd);
    }

    twostate lemma UnclaimedForgets(new fd: int)
      requires old(Accepting(fd)) && unchanged(this) && unchanged(pool) && unchanged(pool.freeList)
      requires forall c :: c in slots ==> unchanged(c)
      requires kernel.Valid() && kernel.open == old(kernel.open) - {fd} && kernel.regs == Forget(old(kernel.regs), {fd})
      ensures Running()
    {
      assert kernel.regs == old(kernel.regs);
      forall c | c in slots ensures c.Inner() && c.Holds(kernel) && Owns(c) {
        assert old(c.Inner() && c.Holds(kernel) && Owns(c) && fd !in c.Handles());
        HoldsAfterDrop(c, {fd});
      }
    }

    /** One of the new connections, in a slot that was closed and free; or left alone. */
    twostate predicate AcceptedOrSame(c: Connection, new news: map<Connection, Story>)
      reads c, pool, pool.freeList
    {
      if c in news then old(c.out.state) == CLOSED && old(pool.Valid()) && c.slot !in old(pool.Acquired())
      else unchanged(c)
    }

    /** A new connection, its protocol still to be detected. */
    ghost predicate Begins(conn: Connection, st: Story)
      reads conn`out, conn`readBuf, conn`lastActive
    {
      conn.out.state == PROTO_DETECT && conn.readBuf == "" && st.start == conn.out && Starts(st, conn.lastActive)
    }

    /** The new connection on the socket `fd`. */
    ghost predicate On(conn: Connection, fd: int, news: map<Connection, Story>)
      reads conn`fd
    {
      conn in news && conn.fd == fd
    }

    /** The connections taken so far, in the order of the backlog, and the stories begun. */
    ghost predicate Joined(got: Intake, backlog: seq<int>)
      reads slots`fd, slots`out, slots`readBuf, slots`lastActive
    {
      && |got.taken| <= |backlog|
      && (forall c :: c in got.news ==> c in slots && c in got.taken && Begins(c, got.news[c]))
      && (forall c :: c in got.taken ==> c in slots && c in got.news)
      && (forall j :: 0 <= j < |got.taken| ==> On(got.taken[j], backlog[j], got.news))
    }

    /** Why no more were taken: none is left, `accept` fails, or the pool is full. */
    ghost predicate Exhausted(got: Intake, backlog: seq<int>)
      requires pool.Valid() && |got.taken| <= |backlog|
      reads kernel`open, pool, pool.freeList
    {
      |got.taken| == |backlog| || backlog[|got.taken|] < 0 || backlog[|got.taken|] in kernel.open
      || pool.Acquired() == CP.Below(CP.MAX_CONNECTIONS)
    }

    /** An accept deed took in what the backlog and the pool allow. */
    ghost predicate TookIn(deed: Deed, backlog: seq<int>)
      requires pool.Valid()
      reads kernel`open, pool, pool.freeList, slots`fd, slots`out, slots`readBuf, slots`lastActive
    {
      deed.Accepted? ==>
        Joined(Intake(deed.taken, deed.news), backlog) && Exhausted(Intake(deed.taken, deed.news), backlog)
    }

    twostate lemma OneMore(got: Intake, new backlog: seq<int>, new c: Connection, new st: Story)
      requires old(Joined(got, backlog)) && |got.taken| < |backlog| && c.fd == backlog[|got.taken|]
      requires c in slots && c !in got.news && Begins(c, st) && forall d :: d in slots && d != c ==> unchanged(d)
      ensures Joined(Intake(got.taken + [c], got.news[c := st]), backlog)
    {
      var more := Intake(got.taken + [c], got.news[c := st]);
      forall j | 0 <= j < |more.taken| ensures On(more.taken[j], backlog[j], more.news) {
        assert j < |got.taken| ==> old(On(got.taken[j], backlog[j], got.news));
      }
    }

    /** `handle_accept`: `backlog` holds the descriptors the pending connections would get.
        They are taken in order, each into a slot that was closed and free, until none is
        left, `accept` fails or the pool is full. All other connections are left alone. */
    method HandleAccept(backlog: seq<int>) returns (ghost got: Intake)
      requires Running()
      modifies pool, kernel, `owner, `changelist, `stories, slots
      ensures Running() && pool.Valid()
      ensures old(pool.Valid()) && pool.Acquired() == old(pool.Acquired()) + SlotsOf(got.news.Keys)
      ensures forall c :: c in got.news ==> got.news[c].last == kernel.now
      ensures Joined(got, backlog)
      ensures forall c :: c in slots ==> AcceptedOrSame(c, got.news)
      ensures stories == old(stories) + got.news
      ensures Exhausted(got, backlog)
      ensures forall fd :: old(Lost(fd)) ==> Lost(fd)
      ensures kernel.now == old(kernel.now)
    {
      hide Base, RegsBut, On, CP.ConnectionPool.Acquired, RegsOk, Armed, Consistent, Lost, Running;
      hide Connection.Inner, Begins;
      AboutPool();
      got := Intake([], map[]);
      var i := 0;
      while true
        invariant Running() && |got.taken| == i <= |backlog|
        invariant Joined(got, backlog)
        invariant forall c :: c in slots ==> AcceptedOrSame(c, got.news)
        invariant stories == old(stories) + got.news
        invariant pool.Valid() && pool.Acquired() == old(pool.Acquired()) + SlotsOf(got.news.Keys)
        invariant kernel.now == old(kernel.now) && forall c :: c in got.news ==> got.news[c].last == kernel.now
        invariant forall fd :: old(Lost(fd)) ==> Lost(fd)
        decreases |backlog| - i
      {
        label Before:
        var conn := AcceptNext(if i < |backlog| then backlog[i] else -1);
        if conn == null { break; }
        ghost var c: Connection := conn;
        assert c !in got.news;
        AddNews(old(stories), got.news, c, stories[c]);
        OneMore@Before(got, backlog, c, stories[c]);
        OneSlotMore(got.news, c, stories[c]);
        got := Intake(got.taken + [c], got.news[c := stories[c]]);
        i := i + 1;
      }
    }

    lemma OneSlotMore(news: map<Connection, Story>, c: Connection, st: Story)
      ensures SlotsOf(news[c := st].Keys) == SlotsOf(news.Keys) + {c.slot}
    {
    }

    lemma AddNews(m: map<Connection, Story>, news: map<Connection, Story>, c: Connection, st: Story)
      ensures (m + news)[c := st] == m + news[c := st]
    {
    }

    /** A socket just accepted was not open before. */
    twostate lemma AcceptKeepsLost(new conn: Connection?)
      requires forall c :: c in slots && c != conn ==> unchanged(c)
      requires old(kernel.open.Keys) <= kernel.open.Keys
      requires conn != null ==> conn.fd !in old(kernel.open) && conn.fileFd == -1
      ensures forall fd :: old(Lost(fd)) ==> Lost(fd)
    {
    }

    /** One round of the accept loop; null ends it. */
    method AcceptNext(hint: int) returns (conn: Connection?)
      requires Running()
      modifies pool, kernel, `owner, `changelist, `stories, slots
      ensures Running() && pool.Valid()
      ensures conn == null ==> hint < 0 || hint in kernel.open || pool.Acquired() == CP.Below(CP.MAX_CONNECTIONS)
      ensures conn != null ==> Consistent(conn.out) && conn.slot !in old(pool.Acquired())
      ensures pool.Acquired() == old(pool.Acquired()) + if conn == null then {} else {conn.slot}
      ensures conn != null ==> conn in stories && stories == old(stories)[conn := stories[conn]]
                               && Begins(conn, stories[conn]) && stories[conn].last == kernel.now
      ensures conn == null ==> stories == old(stories)
      ensures conn != null ==> hint >= 0 && conn in slots && conn.fd == hint
                                && conn.out.state == PROTO_DETECT && old(conn.out.state) == CLOSED
      ensures forall c :: c in slots && c != conn ==> unchanged(c)
      ensures forall fd :: old(Lost(fd)) ==> Lost(fd)
      ensures kernel.now == old(kernel.now)
    {
      hide Base, RegsBut, Lost, Accepting, RegsOk, Connection.Inner, Begins;
      AboutList(null);
      conn := null;
      var fd := AcceptOne(hint);
      if fd >= 0 {
        conn := CreateConnection(fd);
        if conn == null {
          CloseUnclaimed(fd);
        }
      }
      AboutList(null);
      AcceptKeepsLost(conn);
    }

    // ---- The timer ----

    /** `is_expired`, at the time of the check. */
    predicate Expired(conn: Connection, now: int)
      reads conn`lastActive
    {
      now - conn.lastActive > timeout
    }

    /** What the walk over the list `walk` has done so far: its first `i` members have been
        checked, and `gone` destroyed. */
    ghost predicate Walked(walk: seq<Connection>, i: nat, gone: set<Connection>, start: int)
      reads `ka, kernel`now, slots`lastActive
    {
      && i <= |walk| && (forall j :: 0 <= j < |walk| ==> walk[j] in slots)
      && ka == Without(walk, gone)
      && start <= kernel.now
      && Judged(walk, i, gone, start, kernel.now)
    }

    /** A member destroyed was expired by `now`; a member expired at the start is destroyed. */
    ghost predicate Judged(walk: seq<Connection>, i: nat, gone: set<Connection>, start: int, now: int)
      requires i <= |walk| && forall j :: 0 <= j < |walk| ==> walk[j] in slots
      reads slots`lastActive
    {
      && (forall c :: c in gone ==> c in walk && Expired(c, now))
      && (forall j :: 0 <= j < i && Expired(walk[j], start) ==> walk[j] in gone)
      && (forall j :: i <= j < |walk| ==> walk[j] !in gone)
    }

    lemma JudgedNext(walk: seq<Connection>, i: nat, gone: set<Connection>, start: int, earlier: int, now: int)
      requires AllDistinct(walk) && i < |walk| && forall j :: 0 <= j < |walk| ==> walk[j] in slots
      requires Judged(walk, i, gone, start, earlier) && start <= earlier <= now
      ensures Judged(walk, i + 1, if Expired(walk[i], now) then gone + {walk[i]} else gone, start, now)
    {
    }

    /** `handle_timer`: the walk reads each `next` before the connection may be destroyed.
        Every member expired at the start is destroyed and its slot released; every one
        destroyed was expired when checked; the others are untouched and keep their order. */
    method HandleTimer() returns (ghost gone: set<Connection>)
      requires Settled()
      modifies `keepaliveHead, `ka, `changelist, slots`prev, slots`next, slots`inList
      modifies slots`fd, slots`fileFd, slots`out, kernel, pool, pool.freeList
      ensures Running()
      ensures forall c :: c in gone ==> c in old(ka) && c in slots && c.out.state == CLOSED && Expired(c, kernel.now)
      ensures forall c :: c in old(ka) && Expired(c, old(kernel.now)) ==> c in gone
      ensures forall c :: c in gone ==> kernel.now - c.lastActive > timeout
      ensures forall c :: c in old(ka) && old(kernel.now - c.lastActive) > timeout ==> c in gone
      ensures ka == Without(old(ka), gone)
      ensures pool.Acquired() == old(pool.Acquired()) - SlotsOf(gone)
      ensures forall c :: c in slots && c !in gone ==> c.out == old(c.out)
      ensures forall fd :: old(Lost(fd)) ==> Lost(fd)
      ensures old(kernel.now) <= kernel.now
    {
      hide Base, RegsBut, RegsOk, ListOk, Without, AllDistinct, Connection.Inner, Expired, Lost;
      gone := {};
      ghost var walk, start, i := ka, kernel.now, 0;
      AboutList(null);
      StartOfWalk(walk, start);
      var conn := keepaliveHead;
      while conn != null
        invariant i <= |walk| && conn == (if i < |walk| then walk[i] else null)
        invariant Base(null) && OnlyDeletes(changelist) && RegsOk(ApplyAll(kernel.regs, changelist))
        invariant Walked(walk, i, gone, start)
        invariant pool.Valid() && pool.Acquired() == old(pool.Acquired()) - SlotsOf(gone)
        invariant forall c :: c in slots && c !in gone ==> c.out == old(c.out)
        invariant forall c :: c in gone ==> c in slots && c.out.state == CLOSED
        invariant forall fd :: old(Lost(fd)) ==> Lost(fd)
        decreases |walk| - i
      {
        conn, gone := CheckNext(conn, walk, i, gone, start);
        i := i + 1;
      }
      ExpiredMeans();
    }

    lemma ExpiredMeans()
      ensures forall c: Connection, now: int :: Expired(c, now) <==> now - c.lastActive > timeout
    {
    }

    lemma StartOfWalk(walk: seq<Connection>, start: int)
      requires ListOk() && walk == ka && start == kernel.now
      ensures Walked(walk, 0, {}, start) && AllDistinct(walk)
    {
      WithoutAbsent(walk, {});
      forall j | 0 <= j < |walk| ensures walk[j] in slots {
        assert LinkedAt(j);
      }
    }

    /** One step of the walk. */
    method CheckNext(conn: Connection, ghost walk: seq<Connection>, ghost i: nat, ghost gone: set<Connection>,
                     ghost start: int)
      returns (next: Connection?, ghost gone': set<Connection>)
      requires Base(null) && OnlyDeletes(changelist) && RegsOk(ApplyAll(kernel.regs, changelist))
      requires Walked(walk, i, gone, start) && AllDistinct(walk) && i < |walk| && conn == walk[i]
      modifies `keepaliveHead, `ka, `changelist, slots`prev, slots`next, slots`inList
      modifies conn`fd, conn`fileFd, conn`out, kernel, pool, pool.freeList
      ensures Base(null) && OnlyDeletes(changelist) && RegsOk(ApplyAll(kernel.regs, changelist))
      ensures Walked(walk, i + 1, gone', start)
      ensures next == if i + 1 < |walk| then walk[i + 1] else null
      ensures gone' == gone || (gone' == gone + {conn} && conn !in gone)
      ensures if conn in gone' then conn.out.state == CLOSED else conn.out == old(conn.out)
      ensures pool.Valid() && pool.Acquired() == old(pool.Acquired()) - if conn in gone' then {conn.slot} else {}
      ensures forall fd :: old(Lost(fd)) ==> Lost(fd)
    {
      hide Base, RegsBut, Lost;
      AboutList(null);
      NextInWalk(walk, i, gone);
      next := conn.next;
      var elapsed: nat :| 0 <= elapsed;
      var expired := CheckOne(conn, elapsed);
      gone' := if expired then gone + {conn} else gone;
      WithoutTwice(walk, gone, {conn});
      JudgedNext(walk, i, gone, start, old(kernel.now), kernel.now);
      AboutList(null);
    }

    lemma NextInWalk(walk: seq<Connection>, i: nat, gone: set<Connection>)
      requires ListOk() && i < |walk| && ka == Without(walk, gone)
      requires forall j :: i <= j < |walk| ==> walk[j] !in gone
      ensures walk[i] in slots && walk[i].inList
      ensures walk[i].next == if i + 1 < |walk| then walk[i + 1] else null
    {
      var p := |Without(walk[..i], gone)|;
      assert walk == walk[..i] + walk[i..];
      WithoutConcat(walk[..i], walk[i..], gone);
      WithoutAbsent(walk[i..], gone);
      assert ka[p] == walk[i];
      assert LinkedAt(p);
      assert i + 1 < |walk| ==> ka[p + 1] == walk[i + 1];
    }

    method Elapse(elapsed: nat)
      requires Base(null) && RegsOk(ApplyAll(kernel.regs, changelist))
      modifies kernel`now
      ensures Base(null) && RegsOk(ApplyAll(kernel.regs, changelist))
      ensures kernel.now == old(kernel.now) + elapsed && pool.Acquired() == old(pool.Acquired())
      ensures forall fd :: old(Lost(fd)) ==> Lost(fd)
    {
      kernel.Tick(elapsed);
    }

    method CheckOne(conn: Connection, elapsed: nat) returns (expired: bool)
      requires Base(null) && conn in slots && conn.inList
      requires OnlyDeletes(changelist) && RegsOk(ApplyAll(kernel.regs, changelist))
      modifies `keepaliveHead, `ka, `changelist, slots`prev, slots`next, slots`inList
      modifies conn`fd, conn`fileFd, conn`out, kernel, pool, pool.freeList
      ensures Base(null) && OnlyDeletes(changelist) && RegsOk(ApplyAll(kernel.regs, changelist))
      ensures kernel.now == old(kernel.now) + elapsed
      ensures expired <==> Expired(conn, kernel.now)
      ensures expired ==> ka == Without(old(ka), {conn}) && conn.out.state == CLOSED
                          && pool.Acquired() == old(pool.Acquired()) - {conn.slot}
      ensures !expired ==> ka == old(ka) && conn.out == old(conn.out) && conn.fd == old(conn.fd)
                           && pool.Acquired() == old(pool.Acquired())
      ensures forall fd :: old(Lost(fd)) ==> Lost(fd)
    {
      hide Base, RegsBut, Lost, OnlyDeletes, Connection.Inner;
      Elapse(elapsed);
      expired := Expired(conn, kernel.now);
      AboutOne(null, conn);
      if expired {
        DestroyConnection(conn);
      }
    }

    // ---- The loop ----

    /** What `kevent` may return: an entry of the registry, or the failure of a deletion,
        which carries no udata. */
    ghost predicate Deliverable(ev: Event)
      reads kernel`regs
    {
      if ev.udata == null then ev.error else exists key :: key in kernel.regs && kernel.regs[key] == ev.udata
    }

    /** An event that is not the listener's or the timer's names an open connection of the
        pool whose slot is out. */
    lemma DeliveredIsLive(ev: Event)
      requires Settled() && Deliverable(ev)
      ensures listenerTag != timerTag && pool.Valid()
      ensures ev.udata != null && ev.udata != listenerTag && ev.udata != timerTag ==>
                exists c :: c in slots && c == ev.udata && Live(c)
    {
      if ev.udata != null && ev.udata != listenerTag && ev.udata != timerTag {
        var key :| key in kernel.regs && kernel.regs[key] == ev.udata;
        assert Known(key, kernel.regs[key]);
        var c :| c in slots && c == ev.udata && c.fd == key.0 != -1;
        assert c.Inner();
      }
    }

    ghost predicate Live(c: Connection)
      requires pool.Valid()
      reads c`fd, c`out, pool, pool.freeList
    {
      c.fd != -1 && c.out.state != CLOSED && c.slot in pool.Acquired()
    }

    /** `dispatch`. An error or end of file destroys the connection named; otherwise it
        takes its turn. `release` is never called on a free slot, and a slot left stranded
        stays so. What was done is `deed`, one in order, and the book changes by it alone. */
    method Dispatch(ev: Event, backlog: seq<int>, io: Io) returns (ghost deed: Deed)
      requires Settled() && HistoryOk() && Deliverable(ev)
      modifies this, slots, kernel, pool, pool.freeList
      ensures Valid() && pool.Valid() && old(pool.Valid())
      ensures TookIn(deed, backlog)
      ensures InOrder(Config(), old(Book()), old(kernel.now), ev, io, deed)
      ensures Book() == Booked(old(Book()), old(kernel.now), deed)
      ensures deed.Took? ==> deed.conn in slots && WokenUp(deed.conn, deed.w, io)
      ensures forall c :: c in slots && old(Stranded(c)) ==> Stranded(c)
      ensures forall fd :: old(Lost(fd)) ==> Lost(fd)
    {
      hide Base, RegsBut, WokenUp, Stranded, HistoryOk, Lost, InOrder;
      DeliveredIsLive(ev);
      if ev.error || ev.eof {
        deed := DropNamed(ev, io);
      } else if ev.udata == listenerTag {
        deed := TakeBacklog(ev, backlog, io);
      } else if ev.udata == timerTag {
        deed := SweepIdle(ev, io);
      } else {
        deed := TakeTurn(ev, ev.udata as Connection, io);
      }
    }

    /** The connection an error or end of file names, if any, is destroyed. */
    method DropNamed(ev: Event, io: Io) returns (ghost deed: Deed)
      requires Settled() && HistoryOk() && Deliverable(ev) && (ev.error || ev.eof)
      modifies `keepaliveHead, `ka, `changelist, `stories, slots, kernel, pool, pool.freeList
      ensures Valid() && pool.Valid() && old(pool.Valid()) && (deed.Idle? || deed.Dropped?)
      ensures InOrder(Config(), old(Book()), old(kernel.now), ev, io, deed)
      ensures Book() == Booked(old(Book()), old(kernel.now), deed)
      ensures forall c :: c in slots && old(Stranded(c)) ==> Stranded(c)
      ensures forall fd :: old(Lost(fd)) ==> Lost(fd)
    {
      hide *;
      DeliveredIsLive(ev);
      if ev.udata != listenerTag && ev.udata != timerTag && ev.udata != null {
        deed := DropOne(ev, ev.udata as Connection, io);
      } else {
        ListenedIsValid();
        IsValid();
        deed := Idle;
        NothingBooked(ev, io);
      }
    }

    lemma NothingBooked(ev: Event, io: Io)
      requires pool.Valid() && (ev.error || ev.eof) && !(ev.udata is Connection)
      ensures InOrder(Config(), Book(), kernel.now, ev, io, Idle) && Book() == Booked(Book(), kernel.now, Idle)
    {
    }

    method DropOne(ev: Event, conn: Connection, io: Io) returns (ghost deed: Deed)
      requires Settled() && HistoryOk() && conn in slots && pool.Valid() && Live(conn)
      requires ev.udata == conn && (ev.error || ev.eof)
      modifies `keepaliveHead, `ka, `changelist, `stories, slots`prev, slots`next, slots`inList
      modifies conn`fd, conn`fileFd, conn`out, kernel, pool, pool.freeList
      ensures Valid() && pool.Valid() && deed.Dropped?
      ensures InOrder(Config(), old(Book()), old(kernel.now), ev, io, deed)
      ensures Book() == Booked(old(Book()), old(kernel.now), deed)
      ensures forall c :: c in slots && old(Stranded(c)) ==> Stranded(c)
      ensures forall fd :: old(Lost(fd)) ==> Lost(fd)
    {
      hide *;
      AllStories();
      IsLive(conn);
      DropConnection(conn);
      deed := Dropped(conn);
      EndStories({conn});
      NoStory(conn);
      HistoryKept();
      IsValid();
      DropBooked(conn, ev, io);
    }

    lemma IsLive(conn: Connection)
      requires pool.Valid() && Live(conn)
      ensures conn.out.state != CLOSED
    {
    }

    twostate lemma DropBooked(conn: Connection, new ev: Event, new io: Io)
      requires old(pool.Valid()) && pool.Valid() && conn in old(stories)
      requires ev.udata == conn && (ev.error || ev.eof)
      requires stories == old(stories) - {conn} && pool.Acquired() == old(pool.Acquired()) - {conn.slot}
      requires kernel.now == old(kernel.now)
      ensures InOrder(Config(), old(Book()), old(kernel.now), ev, io, Dropped(conn))
      ensures Book() == Booked(old(Book()), old(kernel.now), Dropped(conn))
    {
      hide CP.ConnectionPool.Acquired, CP.ConnectionPool.Valid;
    }

    lemma NoStory(conn: Connection)
      requires conn.out.state == CLOSED && conn !in stories
      ensures Recorded(conn)
    {
    }

    method TakeBacklog(ev: Event, backlog: seq<int>, io: Io) returns (ghost deed: Deed)
      requires Settled() && HistoryOk() && ev.udata == listenerTag && !ev.error && !ev.eof
      modifies pool, kernel, `owner, `changelist, `stories, slots
      ensures Valid() && pool.Valid() && old(pool.Valid()) && deed.Accepted?
      ensures TookIn(deed, backlog)
      ensures InOrder(Config(), old(Book()), old(kernel.now), ev, io, deed)
      ensures Book() == Booked(old(Book()), old(kernel.now), deed)
      ensures forall c :: c in slots && old(Stranded(c)) ==> Stranded(c)
      ensures forall fd :: old(Lost(fd)) ==> Lost(fd)
    {
      hide *;
      ListenedIsValid();
      AllStories();
      ghost var got := HandleAccept(backlog);
      deed := Accepted(got.taken, got.news);
      AboutSlots();
      AcceptHistory(got, backlog);
      IsValid();
      AcceptBooked(got, backlog, ev, io);
      AcceptKeepsStranded(got);
      HasTakenIn(got, backlog);
    }

    lemma HasTakenIn(got: Intake, backlog: seq<int>)
      requires pool.Valid() && Joined(got, backlog) && Exhausted(got, backlog)
      ensures TookIn(Accepted(got.taken, got.news), backlog)
    {
    }

    twostate lemma AcceptHistory(new got: Intake, new backlog: seq<int>)
      requires old(HistoryOk()) && Joined(got, backlog) && stories == old(stories) + got.news
      requires forall c :: c in slots ==> AcceptedOrSame(c, got.news)
      ensures HistoryOk()
    {
      hide Recorded, Tells, Begins;
      forall c | c in got.news ensures Recorded(c) {
        NewlyRecorded(c);
      }
      HistoryKept();
    }

    twostate lemma AcceptKeepsStranded(new got: Intake)
      requires old(pool.Valid()) && pool.Valid() && old(pool.Acquired()) <= pool.Acquired()
      requires forall c :: c in slots ==> AcceptedOrSame(c, got.news)
      ensures forall c :: c in slots && old(Stranded(c)) ==> Stranded(c)
    {
      hide CP.ConnectionPool.Acquired, CP.ConnectionPool.Valid;
    }

    twostate lemma AcceptBooked(new got: Intake, new backlog: seq<int>, new ev: Event, new io: Io)
      requires ev.udata == listenerTag && !ev.error && !ev.eof && old(pool.Valid()) && pool.Valid()
      requires Joined(got, backlog) && forall c :: c in slots ==> AcceptedOrSame(c, got.news)
      requires forall c :: c in old(stories) ==> c in slots && old(c.out.state) != CLOSED
      requires forall c, d :: c in slots && d in slots && c != d ==> c.slot != d.slot
      requires stories == old(stories) + got.news && pool.Acquired() == old(pool.Acquired()) + SlotsOf(got.news.Keys)
      requires kernel.now == old(kernel.now) && forall c :: c in got.news ==> got.news[c].last == kernel.now
      ensures InOrder(Config(), old(Book()), old(kernel.now), ev, io, Accepted(got.taken, got.news))
      ensures Book() == Booked(old(Book()), old(kernel.now), Accepted(got.taken, got.news))
    {
      hide CP.ConnectionPool.Acquired, CP.ConnectionPool.Valid, On, Joined, AcceptedOrSame, Starts;
      NewsInOrder(got, backlog);
    }

    twostate lemma NewsInOrder(new got: Intake, new backlog: seq<int>)
      requires Joined(got, backlog) && forall c :: c in slots ==> AcceptedOrSame(c, got.news)
      requires forall c :: c in old(stories) ==> c in slots && old(c.out.state) != CLOSED
      requires forall c :: c in got.news ==> got.news[c].last == kernel.now
      ensures (forall c :: c in got.news ==> c in got.taken) && (forall c :: c in got.taken ==> c in got.news)
      ensures old(pool.Valid()) ==>
                forall c :: c in got.news ==> c in slots && c !in old(stories) && c.slot !in old(pool.Acquired())
                                              && Starts(got.news[c], kernel.now)
    {
      hide CP.ConnectionPool.Acquired, On;
      forall c | old(pool.Valid()) && c in got.news
        ensures c in slots && c !in old(stories) && c.slot !in old(pool.Acquired()) && Starts(got.news[c], kernel.now)
      {
        assert Begins(c, got.news[c]) && AcceptedOrSame(c, got.news);
      }
    }

    /** Closed, with its slot still out. */
    ghost predicate Stranded(c: Connection)
      reads c`out, pool, pool.freeList
    {
      pool.Valid() && c.out.state == CLOSED && c.slot in pool.Acquired()
    }

    /** `handle_connection_event`. */
    method TakeTurn(ev: Event, conn: Connection, io: Io) returns (ghost deed: Deed)
      requires Settled() && HistoryOk() && conn in slots && pool.Valid() && Live(conn)
      requires ev.udata == conn && !ev.error && !ev.eof
      modifies `keepaliveHead, `ka, `changelist, `owner, `stories, slots`prev, slots`next, slots`inList
      modifies conn`fd, conn`fileFd, conn`out, conn`readBuf, conn`request, conn`lastActive
      modifies kernel, pool, pool.freeList
      ensures Valid() && pool.Valid()
      ensures deed.Took? && deed.conn == conn && WokenUp(conn, deed.w, io)
      ensures InOrder(Config(), old(Book()), old(kernel.now), ev, io, deed)
      ensures Book() == Booked(old(Book()), old(kernel.now), deed)
      ensures forall c :: c in slots && old(Stranded(c)) ==> Stranded(c)
      ensures forall fd :: old(Lost(fd)) ==> Lost(fd)
    {
      hide Base, RegsBut, Wakes, Stamped, SecondFile, HistoryOk, Lost, LookedUp, Consulted, Replies;
      ghost var w := ProcessConnection(conn, io);
      deed := Took(conn, w.value);
      HasConsulted(conn, w.value.buf, w.value.served, io);
      AboutSlots();
    }

    twostate lemma HasConsulted(conn: Connection, new text: string, new served: Lookup, new io: Io)
      requires LookedUp(conn, text, served, io)
      ensures Replies(old(conn.out), old(conn.readBuf), io) ==> Consulted(io.lookup, served)
    {
      hide Replies, SecondFile;
    }

    /** Different connections have different slots. */
    lemma AboutSlots()
      requires Running()
      ensures forall c, d :: c in slots && d in slots && c != d ==> c.slot != d.slot
    {
    }

    method SweepIdle(ev: Event, io: Io) returns (ghost deed: Deed)
      requires Settled() && HistoryOk() && ev.udata == timerTag && !ev.error && !ev.eof
      modifies `keepaliveHead, `ka, `changelist, `stories, slots`prev, slots`next, slots`inList
      modifies slots`fd, slots`fileFd, slots`out, kernel, pool, pool.freeList
      ensures Valid() && pool.Valid() && old(pool.Valid()) && deed.Swept?
      ensures InOrder(Config(), old(Book()), old(kernel.now), ev, io, deed)
      ensures Book() == Booked(old(Book()), old(kernel.now), deed)
      ensures forall c :: c in slots && old(c.out.state == KEEP_ALIVE && kernel.now - c.lastActive > timeout) ==>
                            c.out.state == CLOSED
      ensures forall c :: c in slots && c.out != old(c.out) ==> kernel.now - c.lastActive > timeout
      ensures forall c :: c in slots && old(Stranded(c)) ==> Stranded(c)
      ensures forall fd :: old(Lost(fd)) ==> Lost(fd)
    {
      hide Base, RegsBut, RegsOk, ApplyAll, Without, Expired, Lost, InOrder, Recorded, Tells, HistoryOk, Now;
      ListenedIsValid();
      AboutPool();
      ListedAreIdle();
      AllStories();
      ghost var b, start := Book(), kernel.now;
      ghost var gone := HandleTimer();
      deed := Swept(gone, kernel.now);
      SweptInOrder(b, start, ev, io, gone);
      AboutSlots();
      AboutPool();
      EndStories(gone);
      forall c | c in gone ensures Recorded(c) {
        NoStory(c);
      }
      HistoryKept();
      IsValid();
    }

    /** The timer destroys the stories overdue, for the list holds the connections between
        requests and the clocks are those of the stories. */
    lemma SweptInOrder(b: Journal.Book, start: int, ev: Event, io: Io, gone: set<Connection>)
      requires ev.udata == timerTag && !ev.error && !ev.eof && start <= kernel.now
      requires forall c :: c in gone ==> c in b.stories && Now(b.stories[c]).state == KEEP_ALIVE
                                         && Expired(c, kernel.now)
      requires forall c :: c in b.stories ==> c in slots && b.stories[c].last == c.lastActive
      requires forall c :: c in b.stories && Now(b.stories[c]).state == KEEP_ALIVE && Expired(c, start) ==> c in gone
      ensures InOrder(Config(), b, start, ev, io, Swept(gone, kernel.now))
    {
      hide Now;
    }

    lemma IsValid()
      requires Running() && HistoryOk()
      ensures Valid() && pool.Valid()
    {
    }

    lemma ListedAreIdle()
      requires Base(null)
      ensures forall c :: c in ka ==> c in slots && c.out.state == KEEP_ALIVE
      ensures forall c :: c in slots && c.out.state == KEEP_ALIVE ==> c in ka
    {
      forall c | c in ka ensures c in slots && c.out.state == KEEP_ALIVE {
        var i :| 0 <= i < |ka| && ka[i] == c;
        assert LinkedAt(i);
      }
    }

    method DropConnection(conn: Connection)
      requires Settled() && conn in slots && pool.Valid() && Live(conn)
      modifies `keepaliveHead, `ka, `changelist, slots`prev, slots`next, slots`inList
      modifies conn`fd, conn`fileFd, conn`out, kernel, pool, pool.freeList
      ensures Running() && pool.Valid()
      ensures forall c :: c in slots && old(Stranded(c)) ==> Stranded(c)
      ensures conn.out.state == CLOSED && pool.Acquired() == old(pool.Acquired()) - {conn.slot}
      ensures forall fd :: old(Lost(fd)) ==> Lost(fd)
      ensures kernel.now == old(kernel.now)
    {
      hide Base, RegsBut, Lost;
      AboutOne(null, conn);
      DestroyConnection(conn);
      AboutOne(null, conn);
      AboutSlots();
    }

    /** `flush_changelist`: the pending changes reach the kernel. */
    method FlushChangelist()
      requires Running()
      modifies `changelist, kernel`regs
      ensures Settled() && kernel.regs == old(ApplyAll(kernel.regs, changelist))
      ensures forall fd :: old(Lost(fd)) ==> Lost(fd)
    {
      hide Base, RegsBut, ApplyAll, Lost;
      AboutList(null);
      kernel.Submit(changelist);
      SubmitKeepsBase();
      changelist := [];
    }

    twostate lemma SubmitKeepsBase()
      requires old(Base(null)) && kernel.Valid() && unchanged(this) && unchanged(pool) && unchanged(pool.freeList)
      requires kernel.open == old(kernel.open) && forall c :: c in slots ==> unchanged(c)
      ensures Base(null)
    {
      assert ConnsOk();
    }

    /** `add_listener`: from here on the listener and the timer are registered. */
    method AddListener()
      requires Valid() && changelist == []
      modifies `changelist, kernel`regs
      ensures Settled() && HistoryOk()
      ensures (listenFd, ReadFilter) in kernel.regs && kernel.regs[(listenFd, ReadFilter)] == listenerTag
      ensures (TIMER_IDENT, TimerFilter) in kernel.regs && kernel.regs[(TIMER_IDENT, TimerFilter)] == timerTag
    {
      hide Base, RegsBut, RegsOk, HistoryOk, SocketsOwned, ConnsOk, ListOk, PoolOk, Slotted, ApplyAll;
      hide Connection.Inner, Connection.Holds, Tells, HttpRequest.ParseText, HttpResponse.HeaderText, AnswerTo;
      NothingPending();
      var listener, timer := Add(listenFd, ReadFilter, listenerTag), Add(TIMER_IDENT, TimerFilter, timerTag);
      ListenersKeepRegs(kernel.regs);
      AboutListener();
      ApplyPair(kernel.regs, listener, timer);
      AddEvent(listener);
      AddEvent(timer);
      assert changelist == [listener, timer];
      FlushChangelist();
    }

    lemma NothingPending()
      requires Running() && changelist == []
      ensures Settled() && RegsOk(kernel.regs)
    {
    }

    lemma ListenedIsValid()
      requires Settled()
      ensures Running()
    {
    }

    lemma AboutListener()
      requires Base(null)
      ensures listenFd in kernel.open
    {
    }

    lemma ListenersKeepRegs(m: Registry)
      requires RegsOk(m) && Base(null)
      ensures RegsOk(m[(listenFd, ReadFilter) := listenerTag][(TIMER_IDENT, TimerFilter) := timerTag])
    {
      var n := m[(listenFd, ReadFilter) := listenerTag][(TIMER_IDENT, TimerFilter) := timerTag];
      forall c | c in slots && c.fd != -1 ensures Armed(n, c) {
        assert c.Holds(kernel) && Armed(m, c);
      }
      forall key | key in n ensures Known(key, n[key]) {
        assert key in m ==> Known(key, m[key]);
      }
    }

    /** `kevent`: the changes are submitted and forgotten, some time passes, and an event is
        delivered, unless a signal came first: one for an entry of the registry, with the
        flags it came with, or the failure of a deletion. */
    method Kevent(w: Wakeup) returns (ev: Option<Event>)
      requires Valid()
      modifies `changelist, kernel
      ensures Settled() && HistoryOk() && (ev.Some? ==> Deliverable(ev.value))
      ensures kernel.regs == old(ApplyAll(kernel.regs, changelist)) && ev == Arriving(w, kernel.regs)
      ensures stories == old(stories) && kernel.now == old(kernel.now) + w.elapsed
      ensures forall fd :: old(Lost(fd)) ==> Lost(fd)
    {
      hide Base, RegsBut, HistoryOk, Lost;
      FlushChangelist();
      Elapse(w.elapsed);
      if w.interrupted { return None; }
      if w.key in kernel.regs { return Some(Event(kernel.regs[w.key], w.error, w.eof)); }
      return Some(Event(null, true, false));
    }

    /** `run`, over any number of wakeups with any outcomes: the invariant holds after each,
        so every event delivered names a live connection. `rounds` is the journal of the run,
        one round for each wakeup, each in order; the book, and so which connections live, the
        filters armed and the slots out, is what their deeds make of it and nothing else. A
        stranded slot never comes back, and a lost descriptor is never closed. */
    method Run(schedule: seq<Wakeup>) returns (ghost rounds: seq<Round>)
      requires Valid()
      modifies this, slots, kernel, pool, pool.freeList
      ensures Valid() && pool.Valid() && old(pool.Valid())
      ensures Journaled(Config(), old(Book()), schedule, rounds)
      ensures Book() == BookAfter(old(Book()), rounds)
      ensures forall c :: c in slots && old(Stranded(c)) ==> Stranded(c)
      ensures forall fd :: old(Lost(fd)) ==> Lost(fd)
    {
      hide *;
      StartsPooled();
      rounds := [];
      ghost var cfg, b := Config(), Book();
      StartOfJournal(cfg, b);
      for i := 0 to |schedule|
        invariant Valid() && pool.Valid()
        invariant Journaled(cfg, b, schedule[..i], rounds) && Book() == BookAfter(b, rounds)
        invariant forall fd :: old(Lost(fd)) ==> Lost(fd)
        invariant forall c :: c in slots && old(Stranded(c)) ==> Stranded(c)
      {
        ghost var r := WakeOnce(schedule[i]);
        JournalGrows(cfg, b, schedule[..i], rounds, schedule[i], r);
        PrefixMore(schedule, i);
        rounds := rounds + [r];
      }
      assert schedule[..|schedule|] == schedule;
    }

    lemma PrefixMore(schedule: seq<Wakeup>, i: nat)
      requires i < |schedule|
      ensures schedule[..i] + [schedule[i]] == schedule[..i + 1]
    {
    }

    lemma StartsPooled()
      requires Valid()
      ensures pool.Valid()
    {
      AboutPool();
    }

    lemma StartOfJournal(cfg: Setting, b: Journal.Book)
      ensures Journaled(cfg, b, [], []) && BookAfter(b, []) == b
    {
    }

    /** One round of the loop. */
    method WakeOnce(w: Wakeup) returns (ghost r: Round)
      requires Valid()
      modifies this, slots, kernel, pool, pool.freeList
      ensures Valid() && pool.Valid() && old(pool.Valid())
      ensures Fits(Config(), old(Book()), w, r)
      ensures r.regs == old(ApplyAll(kernel.regs, changelist)) && TookIn(r.deed, w.backlog)
      ensures Book() == Booked(old(Book()), r.at, r.deed)
      ensures forall c :: c in slots && old(Stranded(c)) ==> Stranded(c)
      ensures forall fd :: old(Lost(fd)) ==> Lost(fd)
    {
      hide Base, RegsBut, WokenUp, HistoryOk, Lost, Mirrors, InOrder, Stranded, ApplyAll;
      AboutPool();
      var ev := Kevent(w);
      ListenedIsValid();
      AboutPool();
      SettledMirrors();
      ghost var regs, at, deed := kernel.regs, kernel.now, Idle;
      ghost var b := Book();
      SameBook(old(Book()), b, at, regs);
      if ev.Some? {
        deed := Dispatch(ev.value, w.backlog, w.io);
        SameOrder(old(Book()), b, at, ev.value, w.io, deed);
      }
      r := Round(regs, at, ev, deed);
    }

    /** What is in order, and what it does to the book, does not depend on the clock it shows. */
    lemma SameBook(b: Journal.Book, c: Journal.Book, at: int, regs: Registry)
      requires c == b.(clock := at) && Mirrors(Config(), c, regs)
      ensures Mirrors(Config(), b, regs) && Booked(b, at, Idle) == c
    {
    }

    lemma SameOrder(b: Journal.Book, c: Journal.Book, at: int, e: Event, io: Io, deed: Deed)
      requires c == b.(clock := at) && InOrder(Config(), c, at, e, io, deed)
      ensures InOrder(Config(), b, at, e, io, deed) && Booked(c, at, deed) == Booked(b, at, deed)
    {
      hide Wakes, Overdue, Starts, Extended, Released, Now, NowBuf;
    }

    /** With nothing pending the registry mirrors the book. */
    lemma SettledMirrors()
      requires Settled() && HistoryOk() && pool.Valid()
      ensures Mirrors(Config(), Book(), kernel.regs)
    {
    hide ApplyAll, Tells, Now, NowBuf, Connection.Holds, PoolOk, ListOk, SocketsOwned, LastWant;
    hide CP.ConnectionPool.Acquired, Kernel.Valid;
    }

    /** At any moment of any run, with the pending changes applied: a live plain connection is
        armed to write while a response is under way or being tried, and to read otherwise, and
        never for both. */
    lemma ArmedByState(conn: Connection)
      requires Valid() && conn in slots && conn.out.state != CLOSED && !conn.out.tls
      ensures var m := ApplyAll(kernel.regs, changelist);
              if Wants.Answering(conn.out, conn.readBuf)
              then (conn.fd, WriteFilter) in m && m[(conn.fd, WriteFilter)] == conn && (conn.fd, ReadFilter) !in m
              else (conn.fd, ReadFilter) in m && m[(conn.fd, ReadFilter)] == conn && (conn.fd, WriteFilter) !in m
    {
      hide *;
      IsRunning();
      AboutRegs(ApplyAll(kernel.regs, changelist), conn);
      StoryOf(conn);
      var st := stories[conn];
      AboutStory(st, conn.out, conn.readBuf);
      Wants.PlainChainWants(st.start, tlsAvailable, st.ws);
      ArmedFor(ApplyAll(kernel.regs, changelist), conn);
    }

    lemma IsRunning()
      requires Valid()
      ensures HistoryOk() && Base(null) && RegsOk(ApplyAll(kernel.regs, changelist))
    {
    }

    lemma AboutRegs(m: Registry, conn: Connection)
      requires Base(null) && RegsOk(m) && conn in slots && conn.out.state != CLOSED
      ensures Armed(m, conn)
    {
      AboutOne(null, conn);
      assert conn.fd != -1;
    }

    lemma AboutStory(st: Story, s: SenderFields, buf: string)
      requires Tells(st, tlsAvailable, s, buf)
      ensures st.start == Opened(st.start) && Chain(st.start, "", tlsAvailable, st.ws)
      ensures Last(st.start, st.ws) == s && LastBuf("", st.ws) == buf
    {
    }

    lemma ArmedFor(m: Registry, conn: Connection)
      requires Armed(m, conn) && conn in stories
      ensures LastWant(stories[conn].ws) == WRITE ==>
                (conn.fd, WriteFilter) in m && m[(conn.fd, WriteFilter)] == conn && (conn.fd, ReadFilter) !in m
      ensures LastWant(stories[conn].ws) == READ ==>
                (conn.fd, ReadFilter) in m && m[(conn.fd, ReadFilter)] == conn && (conn.fd, WriteFilter) !in m
    {
      hide LastWant;
    }

    // ---- What a client sees of any connection at any time ----

    /** At any moment of any run, and for every live connection: what it has put on the wire
        since it was accepted is a prefix of the responses its wakeups told, and between
        responses the client recovers exactly their bodies. */
    lemma ClientRecovers(conn: Connection, asked: seq<bool>)
      requires Valid() && conn in slots && conn.out.state != CLOSED
      requires var st := stories[conn];
               Session.CleanChain(st.start, "", tlsAvailable, st.ws) && Session.PlainChain(st.ws)
      ensures var rs := Session.Replies(stories[conn].start, "", tlsAvailable, stories[conn].ws);
              && Session.AllFramed(rs) && Session.AllAnswer(rs)
              && conn.out.wire <= Session.Messages(rs)
              && (!Started(conn.out) ==>
                    (Client.DeframeAll(conn.out.wire, asked) == Some(Session.Bodies(rs)) <==>
                        Session.AllSuit(rs, asked)))
    {
      hide Running, Chain, Session.CleanChain, Session.PlainChain, Session.Replies, Session.AllFramed;
      hide Client.DeframeAll;
      var st := stories[conn];
      Session.SessionRecovered(st.start, "", tlsAvailable, st.ws, asked);
      EmptyPrefix(Session.Messages(Session.Replies(st.start, "", tlsAvailable, st.ws)), conn.out.wire);
    }

    lemma EmptyPrefix(a: string, wire: string)
      ensures "" + a == a && wire[0..] == wire
    {
    }
  }

  /** What an accept took in. */
  datatype Intake = Intake(taken: seq<Connection>, news: map<Connection, Story>)

  /** The server from its start: a listener, the loop around it, and any number of wakeups.
      None when there is no listening descriptor. */
  method ServeFrom(hint: int, tlsAvailable: bool, timeout: int, schedule: seq<Wakeup>)
    returns (loop: EventLoop?, ghost start: Book, ghost rounds: seq<Round>)
    ensures loop == null <==> hint < 0
    ensures loop != null ==> loop.Valid() && loop.pool.Valid() && loop.listenFd == hint
    ensures loop != null ==> start.stories == map[] && start.out == {}
    ensures loop != null ==> Journaled(loop.Config(), start, schedule, rounds)
                             && loop.Book() == BookAfter(start, rounds)
    ensures loop != null ==> Balanced(loop.Book(), StrandedBy(start, rounds))
  {
    hide EventLoop.Base, EventLoop.RegsBut, EventLoop.HistoryOk, BookAfter, Journaled, ApplyAll, Connection.Inner;
    start, rounds := Book(map[], {}, 0), [];
    var kernel := new Kernel();
    var fd := kernel.Listen(hint);
    if fd < 0 { return null, start, []; }
    loop := new EventLoop(kernel, fd, tlsAvailable, timeout);
    loop.AddListener();
    loop.ListenedIsValid();
    start := loop.Book();
    rounds := loop.Run(schedule);
    SlotsAccounted(loop.Config(), start, schedule, rounds);
  }
}
