/**
 The web client's sync state without the page: localPts, the message map, and the queue of sends
 waiting for their acks.

 A pts of 0 stands for null, undefined, or a field the JSON leaves out; the client treats all of
 them as "no number". Timestamps are not part of the model.
 */
module Client {
  import opened Counters
  import opened Backend
  import opened Sequencing
  import opened Diff
  import opened Sync
  import M = MessageService

  /** Keys of the message map: a locally made temporary id, or the server's id. */
  datatype Key = Temp(n: nat) | Server(id: nat)

  datatype Item = Item(id: Key, sender: User, receiver: User, content: string, pts: int, pending: bool)

  datatype Client = Client(user: User, localPts: int, messages: map<Key, Item>, pendingAcks: seq<Key>)

  datatype Event =
    | DoSend(n: nat, receiver: User, content: string)
    | GotAck(senderPts: int, id: nat)
    | GotMessage(pm: Message)

  function NewClient(u: User): Client {
    Client(u, 0, map[], [])
  }

  // ----- the client's operations -----------------------------------------------------------

  function Raised(localPts: int, pts: int): int {
    if pts != 0 && pts > localPts then pts else localPts
  }

  /** The number that applies to u in a message from the wire. */
  function ClientPts(pm: Message, u: User): int {
    if pm.receiver == u then pm.receiverPts else if pm.sender == u then pm.senderPts else 0
  }

  function View(pm: Message, u: User): Item {
    Item(Server(pm.id), pm.sender, pm.receiver, pm.content, ClientPts(pm, u), false)
  }

  function Store(c: Client, item: Item): Client {
    c.(localPts := Raised(c.localPts, item.pts), messages := c.messages[item.id := item])
  }

  function AfterAck(c: Client, senderPts: int, id: nat): Client {
    var d := c.(localPts := Raised(c.localPts, senderPts));
    if c.pendingAcks == [] then d
    else
      var temp, rest := c.pendingAcks[0], c.pendingAcks[1..];
      if temp !in c.messages then d.(pendingAcks := rest)
      else
        var item := c.messages[temp].(id := Server(id), pts := senderPts, pending := false);
        d.(pendingAcks := rest, messages := (c.messages - {temp})[Server(id) := item])
  }

  function AfterSend(c: Client, n: nat, receiver: User, content: string): Client {
    c.(messages := c.messages[Temp(n) := Item(Temp(n), c.user, receiver, content, 0, true)],
       pendingAcks := c.pendingAcks + [Temp(n)])
  }

  function After(c: Client, e: Event): Client {
    match e
    case DoSend(n, receiver, content) => AfterSend(c, n, receiver, content)
    case GotAck(pts, id) => AfterAck(c, pts, id)
    case GotMessage(pm) => Store(c, View(pm, c.user))
  }

  function Run(c: Client, events: seq<Event>): Client {
    if events == [] then c else After(Run(c, events[..|events| - 1]), events[|events| - 1])
  }

  /** The gap check of handleIncomingMessage. */
  predicate Gap(localPts: int, pts: int) {
    pts != 0 && pts > localPts + 1
  }

  // ----- merging is confluent --------------------------------------------------------------

  function Merge(c: Client, items: seq<Item>): Client {
    if items == [] then c else Store(Merge(c, items[..|items| - 1]), items[|items| - 1])
  }

  /** Items under one key are one item: persisted messages never change. */
  ghost predicate Functional(items: seq<Item>) {
    forall x, y :: x in items && y in items && x.id == y.id ==> x == y
  }

  /** What a merge ends with, told without the order of the items. */
  lemma {:induction false} MergeMeaning(c: Client, items: seq<Item>)
    requires Functional(items)
    ensures var d := Merge(c, items);
      && d.user == c.user && d.pendingAcks == c.pendingAcks
      && (forall k :: k in d.messages <==> k in c.messages || exists x :: x in items && x.id == k)
      && (forall x :: x in items ==> x.id in d.messages && d.messages[x.id] == x)
      && (forall k :: k in c.messages && (forall x :: x in items ==> x.id != k) ==> d.messages[k] == c.messages[k])
    ensures var p := Merge(c, items).localPts;
      && c.localPts <= p
      && (forall x :: x in items && x.pts != 0 ==> x.pts <= p)
      && (p == c.localPts || exists x :: x in items && x.pts != 0 && x.pts == p)
    decreases |items|
  {
    if items == [] {
    } else {
      var front, last := items[..|items| - 1], items[|items| - 1];
      assert items == front + [last];
      assert last in items;
      assert Functional(front);
      MergeMeaning(c, front);
    }
  }

  /** Same items, any order, any repetition: same map and same localPts. */
  lemma Confluence(c: Client, xs: seq<Item>, ys: seq<Item>)
    requires Functional(xs) && forall x :: x in xs <==> x in ys
    ensures Merge(c, xs) == Merge(c, ys)
  {
    MergeMeaning(c, xs);
    MergeMeaning(c, ys);
    var d, e := Merge(c, xs), Merge(c, ys);
    assert d.messages.Keys == e.messages.Keys;
    forall k | k in d.messages ensures d.messages[k] == e.messages[k] {
      if x :| x in xs && x.id == k { assert x in ys; }
    }
    assert d.messages == e.messages;
  }

  /** GetDiff fills the number the client selects: live or synced, a row becomes the same item. */
  lemma WireAgrees(m: Message, u: User)
    requires Concerns(m, u)
    ensures View(M.Wire(m, u), u) == View(m, u) && View(m, u).pts == Pts(m, u)
  {
  }

  function ViewAll(pms: seq<Message>, u: User): (items: seq<Item>)
    ensures |items| == |pms| && forall i :: 0 <= i < |pms| ==> items[i] == View(pms[i], u)
  {
    if pms == [] then [] else ViewAll(pms[..|pms| - 1], u) + [View(pms[|pms| - 1], u)]
  }

  /** The client has row m, as it was sent, under u's own number of it. */
  ghost predicate Holds(c: Client, m: Message, u: User) {
    && Server(m.id) in c.messages
    && c.messages[Server(m.id)]
       == Item(Server(m.id), m.sender, m.receiver, m.content, if m.receiver == u then m.receiverPts else m.senderPts, false)
  }

  /**
   A client that pages from 0 while nothing is pending for it ends with exactly the committed
   messages up to its cursor, and its localPts is that cursor. If its last page was short, it has
   every message that had been committed when that page was read.
   */
  lemma CompleteSync(s: State, u: User, walk: seq<Read>, t: State)
    requires Reachable(true, s) && Timeline(s, walk, t) && Walk(u, 0, walk)
    requires forall i: nat, c: nat, v: int :: 0 <= i < |walk| ==> !Pending(walk[i].st, u, c, v)
    ensures var rows := Collected(walk);
      var c := Merge(NewClient(u), ViewAll(M.WireAll(rows, u), u));
      && (forall m :: m in t.table && (m.receiver == u || m.sender == u) && Pts(m, u) <= FinalCursor(u, 0, walk) ==>
            Holds(c, m, u))
      && (forall k :: k in c.messages ==> exists m :: m in t.table && Concerns(m, u) && k == Server(m.id))
      && c.localPts == FinalCursor(u, 0, walk)
      && (EndsShort(walk) ==> forall m :: m in walk[|walk| - 1].st.table && (m.receiver == u || m.sender == u) ==>
            Holds(c, m, u))
  {
    var rows, final := Collected(walk), FinalCursor(u, 0, walk);
    TimelineEnds(s, walk, t);
    ReachesTrans(true, Init(), s, t);
    Always(t);
    SyncWalk(s, u, 0, walk, t);
    LastIsFinal(u, 0, walk);
    MergedHarvest(t, u, rows);
    forall m | m in t.table && Concerns(m, u) && Pts(m, u) <= final ensures m in rows {
      QuietSyncMissesNothing(s, u, 0, walk, t, m);
      RowOwner(t, m, Shown(m, u));
    }
    if EndsShort(walk) {
      ShortPageIsLast(u, 0, walk);
      LastReadReaches(s, walk, t);
      ReachesTrans(true, Init(), s, walk[|walk| - 1].st);
      Always(walk[|walk| - 1].st);
      Later(walk[|walk| - 1].st, t);
    }
  }

  /** The items are the rows, each in u's view. */
  ghost predicate Views(u: User, rows: seq<Message>, items: seq<Item>) {
    |items| == |rows| && forall i :: 0 <= i < |rows| ==> items[i] == View(rows[i], u)
  }

  /** What GetDiff sends for rows of u becomes each row's own view at the client. */
  lemma SyncedViews(u: User, rows: seq<Message>)
    requires forall m :: m in rows ==> Concerns(m, u)
    ensures Views(u, rows, ViewAll(M.WireAll(rows, u), u))
  {
    var items := ViewAll(M.WireAll(rows, u), u);
    assert forall i :: 0 <= i < |rows| ==> rows[i] in rows && items[i] == View(M.Wire(rows[i], u), u);
  }

  lemma ViewsFunctional(t: State, u: User, rows: seq<Message>, items: seq<Item>)
    requires Inv(t) && Views(u, rows, items) && forall m :: m in rows ==> m in t.table
    ensures Functional(items)
  {
    forall x, y | x in items && y in items && x.id == y.id ensures x == y {
      var i :| 0 <= i < |items| && items[i] == x;
      var j :| 0 <= j < |items| && items[j] == y;
      assert rows[i] in rows && rows[j] in rows;
      OneRowPerId(t, rows[i], rows[j]);
    }
  }

  /** Merging committed rows of u, as GetDiff sends them, stores each as itself and raises localPts to the last. */
  lemma MergedHarvest(t: State, u: User, rows: seq<Message>)
    requires Inv(t) && StrictlyOrdered(rows, u)
    requires forall m :: m in rows ==> m in t.table && Concerns(m, u) && 0 < Pts(m, u)
    ensures var c := Merge(NewClient(u), ViewAll(M.WireAll(rows, u), u));
      && (forall m :: m in rows ==> Server(m.id) in c.messages && c.messages[Server(m.id)] == View(m, u))
      && (forall k :: k in c.messages ==> exists m :: m in rows && k == Server(m.id))
      && c.localPts == Advance(u, 0, rows)
  {
    var items := ViewAll(M.WireAll(rows, u), u);
    SyncedViews(u, rows);
    ViewsFunctional(t, u, rows, items);
    MergedRows(u, rows, items);
    MergedPts(u, rows, items);
  }

  lemma MergedRows(u: User, rows: seq<Message>, items: seq<Item>)
    requires Views(u, rows, items) && Functional(items)
    ensures var c := Merge(NewClient(u), items);
      && (forall m :: m in rows ==> Server(m.id) in c.messages && c.messages[Server(m.id)] == View(m, u))
      && (forall k :: k in c.messages ==> exists m :: m in rows && k == Server(m.id))
  {
    MergeMeaning(NewClient(u), items);
    var c := Merge(NewClient(u), items);
    forall m | m in rows ensures Server(m.id) in c.messages && c.messages[Server(m.id)] == View(m, u) {
      var i :| 0 <= i < |rows| && rows[i] == m;
      assert items[i] in items;
    }
    forall k | k in c.messages ensures exists m :: m in rows && k == Server(m.id) {
      var x :| x in items && x.id == k;
      var i :| 0 <= i < |items| && items[i] == x;
      assert rows[i] in rows && k == Server(rows[i].id);
    }
  }

  lemma MergedPts(u: User, rows: seq<Message>, items: seq<Item>)
    requires Views(u, rows, items) && Functional(items) && StrictlyOrdered(rows, u)
    requires forall m :: m in rows ==> Concerns(m, u) && 0 < Pts(m, u)
    ensures Merge(NewClient(u), items).localPts == Advance(u, 0, rows)
  {
    MergeMeaning(NewClient(u), items);
    var p := Merge(NewClient(u), items).localPts;
    if rows != [] { ItemPts(u, rows, items, |rows| - 1); }
    if p != 0 {
      var x :| x in items && x.pts == p;
      var i :| 0 <= i < |items| && items[i] == x;
      ItemPts(u, rows, items, i);
    }
  }

  lemma ItemPts(u: User, rows: seq<Message>, items: seq<Item>, i: nat)
    requires i < |rows| && Views(u, rows, items) && StrictlyOrdered(rows, u)
    requires forall m :: m in rows ==> Concerns(m, u) && 0 < Pts(m, u)
    ensures items[i] in items && 0 < items[i].pts == Pts(rows[i], u) <= Advance(u, 0, rows)
  {
    assert rows[i] in rows;
  }

  lemma OneRowPerId(s: State, m: Message, n: Message)
    requires Base(s) && m in s.table && n in s.table && m.id == n.id
    ensures m == n
  {
    var i :| 0 <= i < |s.table| && s.table[i] == m;
    var j :| 0 <= j < |s.table| && s.table[j] == n;
    assert s.table[i].id == s.table[j].id;
  }

  lemma {:induction false} LastIsFinal(u: User, cursor: int, walk: seq<Read>)
    ensures FinalCursor(u, cursor, walk) == Advance(u, cursor, Collected(walk))
    decreases |walk|
  {
    if walk == [] {
    } else {
      LastIsFinal(u, Advance(u, cursor, walk[0].rows), walk[1..]);
    }
  }

  // ----- the gap check ---------------------------------------------------------------------

  /** The number an event shows to the client. */
  function EventPts(e: Event, u: User): int {
    match e
    case DoSend(_, _, _) => 0
    case GotAck(pts, _) => pts
    case GotMessage(pm) => ClientPts(pm, u)
  }

  /** No incoming message trips the gap check and no ack jumps ahead by more than one. */
  ghost predicate Gapless(c: Client, events: seq<Event>) {
    forall i :: 0 <= i < |events| ==> !Gap(Run(c, events[..i]).localPts, EventPts(events[i], c.user))
  }

  lemma {:induction false} UserStays(c: Client, events: seq<Event>)
    ensures Run(c, events).user == c.user
    decreases |events|
  {
    if events == [] {
    } else {
      UserStays(c, events[..|events| - 1]);
    }
  }

  lemma GaplessFront(c: Client, events: seq<Event>)
    requires Gapless(c, events) && events != []
    ensures Gapless(c, events[..|events| - 1])
  {
    var front := events[..|events| - 1];
    forall i | 0 <= i < |front| ensures !Gap(Run(c, front[..i]).localPts, EventPts(front[i], c.user)) {
      assert front[..i] == events[..i];
      assert !Gap(Run(c, events[..i]).localPts, EventPts(events[i], c.user));
    }
  }

  /** localPts moves only to the number the event shows. */
  lemma Moved(c: Client, e: Event)
    ensures After(c, e).localPts == Raised(c.localPts, EventPts(e, c.user))
  {
  }

  /** localPts is the highest number any event has shown. */
  lemma {:induction false} LocalPtsIsHighest(u: User, events: seq<Event>)
    ensures var p := Run(NewClient(u), events).localPts;
      && 0 <= p && (forall e :: e in events ==> EventPts(e, u) <= p)
      && (p == 0 || exists e :: e in events && EventPts(e, u) == p)
    decreases |events|
  {
    if events == [] {
    } else {
      var front, last := events[..|events| - 1], events[|events| - 1];
      LocalPtsIsHighest(u, front);
      UserStays(NewClient(u), front);
      Moved(Run(NewClient(u), front), last);
      assert events == front + [last];
      assert last in events && forall e :: e in front ==> e in events;
    }
  }

  /** One more event keeps the history gapless exactly when it trips no gap. */
  lemma GaplessAppend(c: Client, events: seq<Event>, e: Event)
    ensures Gapless(c, events + [e]) <==> Gapless(c, events) && !Gap(Run(c, events).localPts, EventPts(e, c.user))
  {
    var more := events + [e];
    assert more[..|events|] == events;
    if Gapless(c, more) {
      GaplessFront(c, more);
      assert !Gap(Run(c, more[..|events|]).localPts, EventPts(more[|events|], c.user));
    }
    if Gapless(c, events) && !Gap(Run(c, events).localPts, EventPts(e, c.user)) {
      forall i | 0 <= i < |more| ensures !Gap(Run(c, more[..i]).localPts, EventPts(more[i], c.user)) {
        if i < |events| {
          assert more[..i] == events[..i];
          assert !Gap(Run(c, events[..i]).localPts, EventPts(events[i], c.user));
        }
      }
    }
  }

  /** Without a gap the client has seen every number up to localPts. */
  lemma {:induction false} GapCheckSound(c: Client, events: seq<Event>, v: int)
    requires c.localPts == 0 && Gapless(c, events) && 1 <= v <= Run(c, events).localPts
    ensures exists i :: 0 <= i < |events| && EventPts(events[i], c.user) == v
    decreases |events|
  {
    if events == [] {
    } else {
      var n := |events| - 1;
      var front := events[..n];
      UserStays(c, front);
      Moved(Run(c, front), events[n]);
      if v <= Run(c, front).localPts {
        GaplessFront(c, events);
        GapCheckSound(c, front, v);
        var i :| 0 <= i < n && EventPts(front[i], c.user) == v;
        assert EventPts(events[i], c.user) == v;
      } else {
        assert !Gap(Run(c, events[..n]).localPts, EventPts(events[n], c.user));
        assert EventPts(events[n], c.user) == v;
      }
    }
  }

  /** The event tells the client about row m: m's own ack, or m itself, live or from GetDiff. */
  ghost predicate About(e: Event, m: Message, u: User) {
    match e
    case DoSend(_, _, _) => false
    case GotAck(pts, id) => m.sender == u && id == m.id && pts == m.senderPts
    case GotMessage(pm) => Concerns(m, u) && View(pm, u) == View(m, u)
  }

  /** The number an event about a row shows is that row's, in one of its roles. */
  lemma AboutRole(e: Event, n: Message, u: User) returns (role: Role)
    requires About(e, n, u)
    ensures UserOf(n, role) == u && PtsOf(n, role) == EventPts(e, u)
  {
    role := if e.GotAck? then Sent else Shown(n, u);
  }

  lemma SeenRow(s: State, c: Client, events: seq<Event>, v: int) returns (i: nat, n: Message, role: Role)
    requires c.localPts == 0 && Gapless(c, events) && 1 <= v <= Run(c, events).localPts
    requires forall i :: 0 <= i < |events| && !events[i].DoSend? ==> exists n :: n in s.table && About(events[i], n, c.user)
    ensures i < |events| && n in s.table && About(events[i], n, c.user)
    ensures UserOf(n, role) == c.user && PtsOf(n, role) == v
  {
    GapCheckSound(c, events, v);
    i :| 0 <= i < |events| && EventPts(events[i], c.user) == v;
    n :| n in s.table && About(events[i], n, c.user);
    role := AboutRole(events[i], n, c.user);
  }

  /**
   What the gap check is for: on a gapless run over committed messages, every row of u numbered at
   or below localPts, in either role, now or in any continuation, has been seen.
   */
  lemma GaplessSeesAll(s: State, t: State, c: Client, events: seq<Event>, m: Message, role: Role)
    requires Reachable(true, s) && Reaches(true, s, t)
    requires c.localPts == 0 && Gapless(c, events)
    requires forall i :: 0 <= i < |events| && !events[i].DoSend? ==> exists n :: n in s.table && About(events[i], n, c.user)
    requires m in t.table && UserOf(m, role) == c.user && PtsOf(m, role) <= Run(c, events).localPts
    ensures exists i :: 0 <= i < |events| && About(events[i], m, c.user)
  {
    Always(s);
    Later(s, t);
    ReachesTrans(true, Init(), s, t);
    RowOwner(t, m, role);
    var i, n, nRole := SeenRow(s, c, events, PtsOf(m, role));
    StreamUnique(t, n, nRole, m, role);
  }
}
