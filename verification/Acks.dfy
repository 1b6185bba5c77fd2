/**
 Acks carry no reference to the send they answer: the client pops its oldest pending send. This
 file says exactly when that pairs each ack with the message the server persisted.
 */
module Acks {
  import opened Counters
  import B = Backend
  import D = Delivery
  import H = Handler
  import opened Diff
  import opened Client

  type Message = B.Message

  function SendsOf(events: seq<Event>): seq<Event> {
    if events == [] then []
    else
      var last := events[|events| - 1];
      SendsOf(events[..|events| - 1]) + (if last.DoSend? then [last] else [])
  }

  function AcksOf(events: seq<Event>): seq<Event> {
    if events == [] then []
    else
      var last := events[|events| - 1];
      AcksOf(events[..|events| - 1]) + (if last.GotAck? then [last] else [])
  }

  lemma {:induction false} Kinds(events: seq<Event>)
    ensures forall i :: 0 <= i < |SendsOf(events)| ==> SendsOf(events)[i].DoSend?
    ensures forall i :: 0 <= i < |AcksOf(events)| ==> AcksOf(events)[i].GotAck?
    decreases |events|
  {
    if events == [] {
    } else {
      Kinds(events[..|events| - 1]);
    }
  }

  /** No ack arrives before the send it will be paired with, and temporary ids do not repeat. */
  ghost predicate WellPaired(events: seq<Event>) {
    events != [] ==>
      var front, last := events[..|events| - 1], events[|events| - 1];
      && WellPaired(front)
      && (last.GotAck? ==> |AcksOf(front)| < |SendsOf(front)|)
      && (last.DoSend? ==> forall e :: e in SendsOf(front) ==> e.DoSend? && e.n != last.n)
  }

  predicate AckOf(e: Event, id: nat) {
    e.GotAck? && e.id == id
  }

  predicate CopyOf(e: Event, id: nat) {
    e.GotMessage? && e.pm.id == id
  }

  /** No server id is acknowledged twice. */
  ghost predicate AckedOnce(acks: seq<Event>) {
    forall i, j :: 0 <= i < j < |acks| ==> !(acks[i].GotAck? && acks[j].GotAck? && acks[i].id == acks[j].id)
  }

  datatype News = NoNews | ByAck | ByCopy(pm: Message)

  /** The last event about the server id. */
  function LatestFor(events: seq<Event>, id: nat): News {
    if events == [] then NoNews
    else
      var last := events[|events| - 1];
      if AckOf(last, id) then ByAck
      else if CopyOf(last, id) then ByCopy(last.pm)
      else LatestFor(events[..|events| - 1], id)
  }

  /** The message arrives, live or from GetDiff, after its own ack. */
  ghost predicate CopyAfterAck(events: seq<Event>, id: nat) {
    exists i, k :: 0 <= i < k < |events| && AckOf(events[i], id) && CopyOf(events[k], id)
  }

  function PendingItem(u: User, send: Event): Item
    requires send.DoSend?
  {
    Item(Temp(send.n), u, send.receiver, send.content, 0, true)
  }

  /** The j-th send under the j-th ack's server id and number. */
  function AckedItem(u: User, send: Event, ack: Event): Item
    requires send.DoSend? && ack.GotAck?
  {
    Item(Server(ack.id), u, send.receiver, send.content, ack.senderPts, false)
  }

  /** After a acks of s sends: sends a.. are pending, in order. */
  ghost predicate Queue(c: Client, u: User, sends: seq<Event>, acks: seq<Event>) {
    && c.user == u && |acks| <= |sends|
    && (forall i :: 0 <= i < |sends| ==> sends[i].DoSend?)
    && (forall i :: 0 <= i < |acks| ==> acks[i].GotAck?)
    && |c.pendingAcks| == |sends| - |acks|
    && (forall i :: 0 <= i < |c.pendingAcks| ==> c.pendingAcks[i] == Temp(sends[|acks| + i].n))
    && (forall j :: |acks| <= j < |sends| ==>
          Temp(sends[j].n) in c.messages && c.messages[Temp(sends[j].n)] == PendingItem(u, sends[j]))
    && (forall k :: k in c.messages && k.Temp? ==> k in c.pendingAcks)
  }

  /** Send j under ack j, or the copy of the message that arrived after the ack. */
  function Landed(u: User, events: seq<Event>, send: Event, ack: Event): Item
    requires send.DoSend? && ack.GotAck?
  {
    match LatestFor(events, ack.id)
    case ByCopy(pm) => View(pm, u)
    case _ => AckedItem(u, send, ack)
  }

  ghost predicate Reconciled(c: Client, u: User, events: seq<Event>) {
    var sends, acks := SendsOf(events), AcksOf(events);
    && Queue(c, u, sends, acks)
    && (forall j :: 0 <= j < |acks| ==>
          Server(acks[j].id) in c.messages
          && c.messages[Server(acks[j].id)] == Landed(u, events, sends[j], acks[j]))
  }

  ghost predicate TempsDistinct(sends: seq<Event>) {
    forall i, j :: 0 <= i < j < |sends| && sends[i].DoSend? && sends[j].DoSend? ==> sends[i].n != sends[j].n
  }

  lemma SendQueues(c: Client, u: User, sends: seq<Event>, acks: seq<Event>, e: Event)
    requires Queue(c, u, sends, acks) && e.DoSend? && TempsDistinct(sends + [e])
    ensures Queue(After(c, e), u, sends + [e], acks)
  {
    var more := sends + [e];
    assert forall i :: 0 <= i < |sends| ==> more[i] == sends[i] && sends[i].n != more[|sends|].n;
    var d := After(c, e);
    forall k | k in d.messages && k.Temp? ensures k in d.pendingAcks {
      if k == Temp(e.n) { assert d.pendingAcks[|c.pendingAcks|] == k; } else { assert k in c.pendingAcks; }
    }
  }

  lemma AckPops(c: Client, u: User, sends: seq<Event>, acks: seq<Event>, e: Event)
    requires Queue(c, u, sends, acks) && e.GotAck? && TempsDistinct(sends) && |acks| < |sends|
    ensures Queue(After(c, e), u, sends, acks + [e])
    ensures Server(e.id) in After(c, e).messages
    ensures After(c, e).messages[Server(e.id)] == AckedItem(u, sends[|acks|], e)
  {
    var d := After(c, e);
    assert c.pendingAcks[0] == Temp(sends[|acks|].n);
    forall i | 0 <= i < |d.pendingAcks| ensures d.pendingAcks[i] == Temp(sends[|acks| + 1 + i].n) {
      assert d.pendingAcks[i] == c.pendingAcks[i + 1];
    }
    forall k | k in d.messages && k.Temp? ensures k in d.pendingAcks {
      assert k in c.pendingAcks && k != c.pendingAcks[0];
      var i :| 0 <= i < |c.pendingAcks| && c.pendingAcks[i] == k;
      assert d.pendingAcks[i - 1] == k;
    }
  }

  lemma EventQueues(c: Client, u: User, sends: seq<Event>, acks: seq<Event>, e: Event)
    requires Queue(c, u, sends, acks)
    requires TempsDistinct(sends) && (e.DoSend? ==> TempsDistinct(sends + [e]))
    requires e.GotAck? ==> |acks| < |sends|
    ensures Queue(After(c, e), u,
                  sends + (if e.DoSend? then [e] else []), acks + (if e.GotAck? then [e] else []))
  {
    assert sends + [] == sends && acks + [] == acks;
    match e
    case DoSend(_, _, _) => SendQueues(c, u, sends, acks, e);
    case GotAck(_, _) => AckPops(c, u, sends, acks, e);
    case GotMessage(_) =>
  }

  /** An event touches no server key but its own. */
  lemma OtherKeysStay(c: Client, e: Event, id: nat)
    requires !AckOf(e, id) && !CopyOf(e, id) && Server(id) in c.messages
    requires forall k :: k in c.pendingAcks ==> k.Temp?
    ensures Server(id) in After(c, e).messages && After(c, e).messages[Server(id)] == c.messages[Server(id)]
  {
    if e.GotAck? && c.pendingAcks != [] { assert c.pendingAcks[0] in c.pendingAcks; }
  }

  lemma {:induction false} TempsStayDistinct(events: seq<Event>)
    requires WellPaired(events)
    ensures TempsDistinct(SendsOf(events))
    decreases |events|
  {
    if events == [] {
    } else {
      var front, last := events[..|events| - 1], events[|events| - 1];
      TempsStayDistinct(front);
      assert forall i :: 0 <= i < |SendsOf(front)| ==> SendsOf(front)[i] in SendsOf(front);
    }
  }

  /** One more event: what each acknowledged id holds. */
  lemma EventLands(u: User, events: seq<Event>, j: nat)
    requires events != []
    requires var front := events[..|events| - 1];
      WellPaired(events) && AckedOnce(AcksOf(events)) && Reconciled(Run(NewClient(u), front), u, front)
    requires j < |AcksOf(events)| <= |SendsOf(events)|
    requires AcksOf(events)[j].GotAck? && SendsOf(events)[j].DoSend?
    ensures var (c, ack) := (Run(NewClient(u), events), AcksOf(events)[j]);
      Server(ack.id) in c.messages && c.messages[Server(ack.id)] == Landed(u, events, SendsOf(events)[j], ack)
  {
    var front, last := events[..|events| - 1], events[|events| - 1];
    var c, sends, acks := Run(NewClient(u), front), SendsOf(front), AcksOf(front);
    var ack := AcksOf(events)[j];
    if j == |acks| {
      TempsStayDistinct(front);
      AckPops(c, u, sends, acks, last);
    } else {
      assert ack == acks[j] && SendsOf(events)[j] == sends[j];
      if last.GotAck? { assert AcksOf(events)[|acks|] == last && last.id != ack.id; }
      if !CopyOf(last, ack.id) {
        assert forall k :: k in c.pendingAcks ==> k.Temp?;
        OtherKeysStay(c, last, ack.id);
      }
    }
  }

  /** The queue half needs no server ids. */
  lemma {:induction false} QueueAlways(u: User, events: seq<Event>)
    requires WellPaired(events)
    ensures Queue(Run(NewClient(u), events), u, SendsOf(events), AcksOf(events))
    decreases |events|
  {
    if events == [] {
    } else {
      var front, last := events[..|events| - 1], events[|events| - 1];
      QueueAlways(u, front);
      TempsStayDistinct(front);
      TempsStayDistinct(events);
      assert last.DoSend? ==> SendsOf(events) == SendsOf(front) + [last];
      EventQueues(Run(NewClient(u), front), u, SendsOf(front), AcksOf(front), last);
    }
  }

  /**
   FIFO reconciliation: whatever arrives in between, also copies of the user's own messages, ack j
   settles send j, and its key holds that send or the copy that came last.
   */
  lemma {:induction false} FifoReconciliation(u: User, events: seq<Event>)
    requires WellPaired(events) && AckedOnce(AcksOf(events))
    ensures Reconciled(Run(NewClient(u), events), u, events)
    decreases |events|
  {
    if events == [] {
    } else {
      var front, last := events[..|events| - 1], events[|events| - 1];
      assert AcksOf(front) <= AcksOf(events);
      FifoReconciliation(u, front);
      QueueAlways(u, events);
      forall j | 0 <= j < |AcksOf(events)|
        ensures var (c, ack) := (Run(NewClient(u), events), AcksOf(events)[j]);
          Server(ack.id) in c.messages && c.messages[Server(ack.id)] == Landed(u, events, SendsOf(events)[j], ack)
      {
        EventLands(u, events, j);
      }
    }
  }

  // ----- what came last --------------------------------------------------------------------

  ghost predicate IsLast(events: seq<Event>, id: nat, k: nat) {
    && k < |events| && (AckOf(events[k], id) || CopyOf(events[k], id))
    && (forall i :: k < i < |events| ==> !AckOf(events[i], id) && !CopyOf(events[i], id))
  }

  lemma {:induction false} LatestIsLast(events: seq<Event>, id: nat, i: nat) returns (k: nat)
    requires i < |events| && (AckOf(events[i], id) || CopyOf(events[i], id))
    ensures IsLast(events, id, k) && i <= k
    ensures LatestFor(events, id) == if events[k].GotAck? then ByAck else ByCopy(events[k].pm)
    decreases |events|
  {
    var n := |events| - 1;
    if AckOf(events[n], id) || CopyOf(events[n], id) {
      k := n;
    } else {
      k := LatestIsLast(events[..n], id, i);
      assert forall j :: 0 <= j < n ==> events[..n][j] == events[j];
    }
  }

  /** For an acknowledged id the last event is a copy exactly when one came after the ack. */
  lemma LatestIff(events: seq<Event>, id: nat, i: nat)
    requires i < |events| && AckOf(events[i], id) && AckedOnce(AcksOf(events))
    ensures LatestFor(events, id).ByCopy? <==> CopyAfterAck(events, id)
    ensures LatestFor(events, id).ByCopy? ==> GotMessage(LatestFor(events, id).pm) in events && LatestFor(events, id).pm.id == id
  {
    var last := LatestIsLast(events, id, i);
    if a, k :| 0 <= a < k < |events| && AckOf(events[a], id) && CopyOf(events[k], id) {
      if AckOf(events[last], id) { OneAck(events, id, a, last); }
    }
  }

  lemma OneAck(events: seq<Event>, id: nat, i: nat, j: nat)
    requires AckedOnce(AcksOf(events))
    requires i < |events| && j < |events| && AckOf(events[i], id) && AckOf(events[j], id)
    ensures i == j
  {
    AckAt(events, i);
    AckAt(events, j);
    if i < j { AcksGrow(events, i, j); }
    if j < i { AcksGrow(events, j, i); }
  }

  lemma {:induction false} AckFrom(events: seq<Event>, j: nat) returns (i: nat)
    requires j < |AcksOf(events)|
    ensures i < |events| && events[i] == AcksOf(events)[j]
    decreases |events|
  {
    var front := events[..|events| - 1];
    if j < |AcksOf(front)| { i := AckFrom(front, j); } else { i := |events| - 1; }
  }

  /** The message map, told by the last event about each server id. */
  ghost predicate MapMeans(c: Client, u: User, events: seq<Event>) {
    && (forall id: nat :: LatestFor(events, id).ByCopy? ==>
          Server(id) in c.messages && c.messages[Server(id)] == View(LatestFor(events, id).pm, u))
    && (forall id: nat :: Server(id) in c.messages ==> !LatestFor(events, id).NoNews?)
  }

  /** In every history a copy that came last is what the client holds, and nothing comes from nowhere. */
  lemma {:induction false} MapMeaning(u: User, events: seq<Event>)
    ensures var c := Run(NewClient(u), events); MapMeans(c, u, events) && forall k :: k in c.pendingAcks ==> k.Temp?
    decreases |events|
  {
    if events == [] {
    } else {
      var front, last := events[..|events| - 1], events[|events| - 1];
      var c := Run(NewClient(u), front);
      MapMeaning(u, front);
      UserStays(NewClient(u), front);
      forall id: nat | LatestFor(events, id).ByCopy?
        ensures Server(id) in After(c, last).messages
        ensures After(c, last).messages[Server(id)] == View(LatestFor(events, id).pm, u)
      {
        if !CopyOf(last, id) { OtherKeysStay(c, last, id); }
      }
    }
  }

  // ----- which send an ack is for ----------------------------------------------------------

  /** The frame each ack answers. */
  function Positions(verdicts: seq<H.Verdict>): seq<nat> {
    if verdicts == [] then []
    else
      var n := |verdicts| - 1;
      Positions(verdicts[..n]) + (if verdicts[n].Acked? then [n] else [])
  }

  /** Ack j answers frame j exactly when no frame up to j was skipped; otherwise it answers a later one. */
  lemma {:induction false} AckPosition(verdicts: seq<H.Verdict>, j: nat)
    requires j < |H.AckList(verdicts)|
    ensures |Positions(verdicts)| == |H.AckList(verdicts)|
    ensures var p := Positions(verdicts)[j];
      && j <= p < |verdicts| && verdicts[p] == H.Acked(H.AckList(verdicts)[j])
      && (p == j <==> forall i :: 0 <= i <= j ==> verdicts[i].Acked?)
    decreases |verdicts|
  {
    var n := |verdicts| - 1;
    var front := verdicts[..n];
    assert forall i :: 0 <= i < n ==> front[i] == verdicts[i];
    PositionsLength(front);
    if j < |H.AckList(front)| {
      AckPosition(front, j);
    } else {
      assert verdicts[n].Acked? && j == |H.AckList(front)|;
      CountAcked(front);
      if j < n {
        AllAcked(front[..j + 1]);
        PrefixCount(front, j + 1);
        assert forall i :: 0 <= i <= j ==> front[..j + 1][i] == verdicts[i];
      }
    }
  }

  lemma {:induction false} PositionsLength(verdicts: seq<H.Verdict>)
    ensures |Positions(verdicts)| == |H.AckList(verdicts)| <= |verdicts|
    decreases |verdicts|
  {
    if verdicts == [] {
    } else {
      PositionsLength(verdicts[..|verdicts| - 1]);
    }
  }

  lemma {:induction false} PrefixCount(verdicts: seq<H.Verdict>, n: nat)
    requires n <= |verdicts|
    ensures |H.AckList(verdicts[..n])| <= |H.AckList(verdicts)|
    decreases |verdicts|
  {
    if n < |verdicts| {
      PrefixCount(verdicts[..|verdicts| - 1], n);
      assert verdicts[..|verdicts| - 1][..n] == verdicts[..n];
    } else {
      assert verdicts[..n] == verdicts;
    }
  }

  lemma {:induction false} AllAcked(verdicts: seq<H.Verdict>)
    ensures (forall i :: 0 <= i < |verdicts| ==> verdicts[i].Acked?) ==> |H.AckList(verdicts)| == |verdicts|
    decreases |verdicts|
  {
    if verdicts == [] {
    } else {
      AllAcked(verdicts[..|verdicts| - 1]);
    }
  }

  lemma {:induction false} CountAcked(verdicts: seq<H.Verdict>)
    ensures |H.AckList(verdicts)| == |verdicts| ==> forall i :: 0 <= i < |verdicts| ==> verdicts[i].Acked?
    decreases |verdicts|
  {
    if verdicts == [] {
    } else {
      PositionsLength(verdicts[..|verdicts| - 1]);
      CountAcked(verdicts[..|verdicts| - 1]);
    }
  }

  // ----- end to end ------------------------------------------------------------------------

  lemma {:induction false} AckAt(events: seq<Event>, i: nat)
    requires i < |events| && events[i].GotAck?
    ensures var a := |AcksOf(events[..i])|; a < |AcksOf(events)| && AcksOf(events)[a] == events[i]
    decreases |events|
  {
    var n := |events| - 1;
    if i == n {
    } else {
      AckAt(events[..n], i);
      assert events[..n][..i] == events[..i];
    }
  }

  lemma {:induction false} AcksGrow(events: seq<Event>, i: nat, j: nat)
    requires i < j <= |events| && events[i].GotAck?
    ensures |AcksOf(events[..i])| < |AcksOf(events[..j])|
  {
    assert events[..j][..i] == events[..i];
    AckAt(events[..j], i);
  }

  /** The acks on the wire are the handler's, in order; every incoming message is a committed row of the user's. */
  ghost predicate FromServer(s: D.Sys, u: User, events: seq<Event>, list: seq<Message>) {
    && |AcksOf(events)| <= |list|
    && (forall j :: 0 <= j < |AcksOf(events)| ==> AcksOf(events)[j] == GotAck(list[j].senderPts, list[j].id))
    && (forall pm :: GotMessage(pm) in events ==>
          exists n :: n in s.back.table && Concerns(n, u) && View(pm, u) == View(n, u))
  }

  lemma BackBase(a1: bool, s: D.Sys)
    requires D.Reachable(a1, s)
    ensures B.Base(s.back)
  {
    D.Always(a1, s);
  }

  lemma ServerAcksOnce(a1: bool, s: D.Sys, k: nat, events: seq<Event>)
    requires D.Reachable(a1, s) && k < |s.conns| && FromServer(s, s.conns[k].user, events, s.conns[k].acks)
    ensures AckedOnce(AcksOf(events))
  {
    D.Always(a1, s);
    D.PersistBeforeDeliver(a1, s);
    var list := s.conns[k].acks;
    forall i, j | 0 <= i < j < |AcksOf(events)| ensures AcksOf(events)[i].id != AcksOf(events)[j].id {
      assert D.OnceIn(s.conns[k]);
    }
  }

  /** A copy of the acknowledged message m arrived after its ack and shows another number. */
  ghost predicate Renumbered(m: Message, u: User, events: seq<Event>) {
    m.receiver == u && m.receiverPts != m.senderPts && CopyAfterAck(events, m.id)
  }

  /** What lies under an acknowledged message's id: its row, with the sender number unless a copy changed it. */
  lemma LandedMessage(s: D.Sys, u: User, events: seq<Event>, list: seq<Message>, send: Event, j: nat)
    requires B.Base(s.back) && FromServer(s, u, events, list) && AckedOnce(AcksOf(events)) && j < |AcksOf(events)|
    requires list[j] in s.back.table && list[j].sender == u
    requires send.DoSend? && send.receiver == list[j].receiver && send.content == list[j].content
    ensures var (m, item) := (list[j], Landed(u, events, send, AcksOf(events)[j]));
      && item == Item(Server(m.id), u, m.receiver, m.content, item.pts, false)
      && item.pts == (if Renumbered(m, u, events) then m.receiverPts else m.senderPts)
  {
    var m := list[j];
    var i := AckFrom(events, j);
    LatestIff(events, m.id, i);
    var news := LatestFor(events, m.id);
    if news.ByCopy? {
      assert GotMessage(news.pm) in events;
      var n :| n in s.back.table && Concerns(n, u) && View(news.pm, u) == View(n, u);
      OneRowPerId(s.back, m, n);
    }
  }

  /**
   End to end. A client sends frames on one connection and reads the handler's acks and committed
   messages, its own included, in any interleaving. Every ack with no skipped frame up to it lands
   on the message the server persisted; it shows sender_pts exactly when it is not a message to
   oneself with two numbers whose copy came after the ack. With every send acked nothing is pending.
   */
  lemma EndToEnd(a1: bool, s: D.Sys, k: nat, events: seq<Event>, frames: seq<H.Frame>, verdicts: seq<H.Verdict>)
    requires D.Reachable(a1, s) && k < |s.conns| && s.conns[k].acks == H.AckList(verdicts)
    requires |frames| <= |SendsOf(events)| && H.AllHonest(s, s.conns[k].user, frames, verdicts)
    requires WellPaired(events) && FromServer(s, s.conns[k].user, events, s.conns[k].acks)
    requires forall i :: 0 <= i < |frames| && SendsOf(events)[i].DoSend? ==>
      frames[i] == H.Text(SendsOf(events)[i].receiver, SendsOf(events)[i].content)
    ensures var u := s.conns[k].user;
      var c := Run(NewClient(u), events);
      && (forall j :: 0 <= j < |AcksOf(events)| && (forall i :: 0 <= i <= j && i < |verdicts| ==> verdicts[i].Acked?) ==>
            var m := s.conns[k].acks[j];
            && m in s.back.table && Server(m.id) in c.messages
            && var item := c.messages[Server(m.id)];
               && item == Item(Server(m.id), u, m.receiver, m.content, item.pts, false)
               && (item.pts == m.senderPts <==> !Renumbered(m, u, events)))
      && (|AcksOf(events)| == |SendsOf(events)| ==> c.pendingAcks == [] && forall key :: key in c.messages ==> key.Server?)
  {
    var u := s.conns[k].user;
    var c, sends, acks := Run(NewClient(u), events), SendsOf(events), AcksOf(events);
    BackBase(a1, s);
    ServerAcksOnce(a1, s, k, events);
    FifoReconciliation(u, events);
    PositionsLength(verdicts);
    forall j | 0 <= j < |acks| && (forall i :: 0 <= i <= j && i < |verdicts| ==> verdicts[i].Acked?)
      ensures var m := s.conns[k].acks[j];
        && m in s.back.table && Server(m.id) in c.messages
        && var item := c.messages[Server(m.id)];
           && item == Item(Server(m.id), u, m.receiver, m.content, item.pts, false)
           && (item.pts == m.senderPts <==> !Renumbered(m, u, events))
    {
      AckPosition(verdicts, j);
      assert Positions(verdicts)[j] == j;
      assert H.Honest(s, u, frames[j], verdicts[j]);
      LandedMessage(s, u, events, s.conns[k].acks, sends[j], j);
    }
  }

  // ----- the one message that does not merge in either order -------------------------------

  /**
   A user's own message may arrive (from GetDiff, or live when sent to oneself) before or after its
   ack. The two orders agree exactly when the number the client selects is the sender number; for a
   message to oneself it is not.
   */
  lemma AckCommutesIff(c: Client, temp: Key, m: Message)
    requires c.pendingAcks != [] && c.pendingAcks[0] == temp && temp.Temp? && temp in c.messages
    requires c.messages[temp] == Item(temp, c.user, m.receiver, m.content, 0, true) && m.sender == c.user
    ensures var ack, incoming := GotAck(m.senderPts, m.id), GotMessage(m);
      var agree := After(After(c, ack), incoming) == After(After(c, incoming), ack);
      agree <==> m.receiver != c.user || m.receiverPts == m.senderPts
  {
    var ack, incoming := GotAck(m.senderPts, m.id), GotMessage(m);
    var x, y := After(After(c, ack), incoming), After(After(c, incoming), ack);
    assert x.messages.Keys == y.messages.Keys;
    assert forall key :: key in x.messages && key != Server(m.id) ==> x.messages[key] == y.messages[key];
    assert x.messages[Server(m.id)] == View(m, c.user);
    if m.receiver != c.user || m.receiverPts == m.senderPts {
      assert x.messages == y.messages;
    }
  }
}
