/** What the event loop does, seen from outside: the journal of its rounds. The book holds
    the stories of the live connections, the slots that are out and the clock; each round of
    the loop delivers an event and does one deed, and the deeds alone change the book. */
module Journal {
  import opened Text
  import opened States
  import opened Sending
  import opened Kernel
  import opened Connection
  import opened Responding
  import opened Wakeups

  /** An event as `kevent` returns it. */
  datatype Event = Event(udata: object?, error: bool, eof: bool)

  /** One return of `kevent`: which entry fires and how, and the outcomes of what follows. */
  datatype Wakeup = Wakeup(key: (int, Filter), error: bool, eof: bool, interrupted: bool, elapsed: nat,
                           backlog: seq<int>, io: Io)

  /** What stays the same over a run: the udata of listener and timer, and two settings. */
  datatype Setting = Setting(listener: object, timer: object, tlsAvailable: bool, timeout: int)

  datatype Book = Book(stories: map<Connection, Story>, out: set<nat>, clock: int)

  /** What an event led to. */
  datatype Deed =
    | Idle
    | Took(conn: Connection, w: Awakening)
    | Dropped(conn: Connection)
    | Accepted(taken: seq<Connection>, news: map<Connection, Story>)
    | Swept(gone: set<Connection>, until: int)

  /** One return of `kevent`: the registry it looked into, the time, the event, and the deed. */
  datatype Round = Round(regs: Registry, at: int, event: Option<Event>, deed: Deed)

  function SlotsOf(cs: set<Connection>): set<nat> {
    set c | c in cs :: c.slot
  }

  // ---- The book after a deed ----

  /** Closed, and not by a reply. */
  predicate Released(before: SenderFields, buf: string, after: SenderFields, io: Io) {
    after.state == CLOSED && !Replies(before, buf, io)
  }

  /** A turn adds to one story, or ends it when it closes the connection; an accept starts
      some; an error and the timer end some. The slot of an ended story is given back, unless
      it is a reply that closed the connection. */
  function Booked(b: Book, at: int, deed: Deed): Book {
    match deed
    case Idle => b.(clock := at)
    case Took(conn, w) =>
      if conn !in b.stories then b.(clock := at)
      else
        var st := b.stories[conn];
        Book(if w.after.state == CLOSED then b.stories - {conn} else b.stories[conn := Extended(st, w, at)],
             b.out - (if Released(Now(st), NowBuf(st), w.after, w.io) then {conn.slot} else {}), at)
    case Dropped(conn) => Book(b.stories - {conn}, b.out - {conn.slot}, at)
    case Accepted(_, news) => Book(b.stories + news, b.out + SlotsOf(news.Keys), at)
    case Swept(gone, until) => Book(b.stories - gone, b.out - SlotsOf(gone), until)
  }

  function BookAfter(b: Book, rounds: seq<Round>): Book
    decreases |rounds|
  {
    if rounds == [] then b
    else
      var r := rounds[|rounds| - 1];
      Booked(BookAfter(b, rounds[..|rounds| - 1]), r.at, r.deed)
  }

  // ---- Which deeds are in order ----

  /** The event that comes of a return of `kevent`: that of the entry named, or the failure
      of a deletion, which carries no udata; none when a signal came first. */
  function Arriving(w: Wakeup, regs: Registry): Option<Event> {
    if w.interrupted then None
    else if w.key in regs then Some(Event(regs[w.key], w.error, w.eof))
    else Some(Event(null, true, false))
  }

  function FilterOf(want: Want): Filter {
    if want == WRITE then WriteFilter else ReadFilter
  }

  /** The filter for the direction last waited for. */
  function FilterFor(st: Story): Filter {
    FilterOf(LastWant(st.ws))
  }

  /** The registry mirrors the book: an entry is the listener's, the timer's or one for the
      last want of a live connection, and each live connection has exactly one. */
  ghost predicate Mirrors(cfg: Setting, b: Book, regs: Registry) {
    && (forall key :: key in regs ==>
          regs[key] == cfg.listener || regs[key] == cfg.timer
          || (exists c :: c in b.stories && c == regs[key] && key.1 == FilterFor(b.stories[c])))
    && (forall c :: c in b.stories ==> exists key :: key in regs && regs[key] == c)
    && (forall j, k :: j in regs && k in regs && regs[j] == regs[k] ==> j == k)
  }

  /** A connection between requests, without a read for longer than the timeout. */
  predicate Overdue(cfg: Setting, st: Story, now: int) {
    Now(st).state == KEEP_ALIVE && now - st.last > cfg.timeout
  }

  /** A story at its beginning. */
  predicate Starts(st: Story, at: int) {
    st.ws == [] && st.start == Opened(st.start) && st.last == at
  }

  /** What a reply goes by: what the file system says, but that a file found may not open. */
  predicate Consulted(lookup: Lookup, served: Lookup) {
    served == lookup || (lookup.Found? && served == Missing)
  }

  /** What a deed may be, by the event and the book. An error or end of file drops the
      connection it names; the listener takes new connections in, each in a slot of its own
      that was not out; the timer ends every story overdue when it starts, and none that is
      not overdue when it ends; any other event gives one connection one wakeup. */
  ghost predicate InOrder(cfg: Setting, b: Book, at: int, e: Event, io: Io, deed: Deed) {
    match deed
    case Idle => (e.error || e.eof) && !(e.udata is Connection)
    case Dropped(conn) => (e.error || e.eof) && e.udata == conn && conn in b.stories
    case Took(conn, w) =>
      && !e.error && !e.eof && e.udata == conn && conn in b.stories && w.io == io
      && Wakes(Now(b.stories[conn]), NowBuf(b.stories[conn]), cfg.tlsAvailable, w)
      && (Replies(Now(b.stories[conn]), NowBuf(b.stories[conn]), io) ==> Consulted(io.lookup, w.served))
    case Accepted(taken, news) =>
      && !e.error && !e.eof && e.udata == cfg.listener
      && (forall c :: c in news ==> c in taken) && (forall c :: c in taken ==> c in news)
      && (forall c :: c in news ==> c !in b.stories && c.slot !in b.out && Starts(news[c], at))
      && (forall c, d :: c in news && d in news && c != d ==> c.slot != d.slot)
    case Swept(gone, until) =>
      && !e.error && !e.eof && e.udata == cfg.timer && at <= until
      && (forall c :: c in gone ==> c in b.stories && Overdue(cfg, b.stories[c], until))
      && (forall c :: c in b.stories && Overdue(cfg, b.stories[c], at) ==> c in gone)
  }

  ghost predicate Fits(cfg: Setting, b: Book, w: Wakeup, r: Round) {
    && r.at == b.clock + w.elapsed
    && Mirrors(cfg, b, r.regs)
    && r.event == Arriving(w, r.regs)
    && match r.event
       case None => r.deed == Idle
       case Some(e) => InOrder(cfg, b, r.at, e, w.io, r.deed)
  }

  /** The journal of a run: one round for each wakeup, each in order by the book so far. */
  ghost predicate Journaled(cfg: Setting, b: Book, schedule: seq<Wakeup>, rounds: seq<Round>)
    decreases |rounds|
  {
    && |schedule| == |rounds|
    && (rounds == []
        || (var n := |rounds| - 1;
            && Journaled(cfg, b, schedule[..n], rounds[..n])
            && Fits(cfg, BookAfter(b, rounds[..n]), schedule[n], rounds[n])))
  }

  lemma JournalGrows(cfg: Setting, b: Book, schedule: seq<Wakeup>, rounds: seq<Round>, w: Wakeup, r: Round)
    requires Journaled(cfg, b, schedule, rounds) && Fits(cfg, BookAfter(b, rounds), w, r)
    ensures Journaled(cfg, b, schedule + [w], rounds + [r])
    ensures BookAfter(b, rounds + [r]) == Booked(BookAfter(b, rounds), r.at, r.deed)
  {
    hide Fits, Booked;
    assert (schedule + [w])[..|rounds|] == schedule && (rounds + [r])[..|rounds|] == rounds;
  }

  // ---- Where the slots are ----

  /** The slot of a connection that its reply closes, which is not given back. */
  function StrandedIn(b: Book, deed: Deed): set<nat> {
    match deed
    case Took(conn, w) =>
      if conn in b.stories && w.after.state == CLOSED
         && !Released(Now(b.stories[conn]), NowBuf(b.stories[conn]), w.after, w.io) then {conn.slot}
      else {}
    case _ => {}
  }

  function StrandedBy(b: Book, rounds: seq<Round>): set<nat>
    decreases |rounds|
  {
    if rounds == [] then {}
    else
      var before := rounds[..|rounds| - 1];
      StrandedBy(b, before) + StrandedIn(BookAfter(b, before), rounds[|rounds| - 1].deed)
  }

  /** Each live connection has a slot of its own, and the slots out are theirs and the
      stranded ones. */
  ghost predicate Balanced(b: Book, stranded: set<nat>) {
    && (forall c, d :: c in b.stories && d in b.stories && c != d ==> c.slot != d.slot)
    && SlotsOf(b.stories.Keys) !! stranded
    && b.out == SlotsOf(b.stories.Keys) + stranded
  }

  lemma SlotsWithout(cs: set<Connection>, gone: set<Connection>)
    requires gone <= cs && forall c, d :: c in cs && d in cs && c != d ==> c.slot != d.slot
    ensures SlotsOf(cs - gone) == SlotsOf(cs) - SlotsOf(gone)
  {
  }

  lemma SlotsJoined(cs: set<Connection>, more: set<Connection>)
    ensures SlotsOf(cs + more) == SlotsOf(cs) + SlotsOf(more)
  {
  }

  /** A deed in order keeps the slots balanced. */
  lemma DeedBalanced(cfg: Setting, b: Book, at: int, e: Event, io: Io, deed: Deed, stranded: set<nat>)
    requires InOrder(cfg, b, at, e, io, deed) && Balanced(b, stranded)
    ensures Balanced(Booked(b, at, deed), stranded + StrandedIn(b, deed))
  {
    hide Wakes, Released, Overdue, Starts, Extended, Now, NowBuf;
    var cs, after := b.stories.Keys, Booked(b, at, deed).stories.Keys;
    match deed
    case Idle =>
    case Took(conn, w) =>
      SlotsWithout(cs, {conn});
      assert SlotsOf({conn}) == {conn.slot};
      assert after == if w.after.state == CLOSED then cs - {conn} else cs;
      ReleasedMeans(b, deed);
    case Dropped(conn) =>
      SlotsWithout(cs, {conn});
      assert SlotsOf({conn}) == {conn.slot} && after == cs - {conn};
    case Accepted(_, news) =>
      SlotsJoined(cs, news.Keys);
      assert after == cs + news.Keys;
    case Swept(gone, until) =>
      SlotsWithout(cs, gone);
      assert after == cs - gone;
  }

  lemma ReleasedMeans(b: Book, deed: Deed)
    requires deed.Took? && deed.conn in b.stories
    ensures var st := b.stories[deed.conn];
            Released(Now(st), NowBuf(st), deed.w.after, deed.w.io) ==> deed.w.after.state == CLOSED
  {
  }

  /** At any moment of any run: the slots out are those of the live connections and those of
      connections that a reply closed, and no slot is in both. */
  lemma {:induction false} SlotsAccounted(cfg: Setting, b: Book, schedule: seq<Wakeup>, rounds: seq<Round>)
    requires Journaled(cfg, b, schedule, rounds) && Balanced(b, {})
    ensures Balanced(BookAfter(b, rounds), StrandedBy(b, rounds))
    decreases |rounds|
  {
    hide InOrder, Mirrors, Booked, StrandedIn, Balanced;
    if rounds != [] {
      var n := |rounds| - 1;
      SlotsAccounted(cfg, b, schedule[..n], rounds[..n]);
      var c, r := BookAfter(b, rounds[..n]), rounds[n];
      if r.event == None {
        IdleBalanced(c, r.at, StrandedBy(b, rounds[..n]));
      } else {
        DeedBalanced(cfg, c, r.at, r.event.value, schedule[n].io, r.deed, StrandedBy(b, rounds[..n]));
      }
    }
  }

  lemma IdleBalanced(b: Book, at: int, stranded: set<nat>)
    requires Balanced(b, stranded)
    ensures Balanced(Booked(b, at, Idle), stranded + StrandedIn(b, Idle))
  {
  }
}
