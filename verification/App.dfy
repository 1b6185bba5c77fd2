/**
 The web client as an object. Its history of sends, acks and messages is kept in a ghost field, so
 that every method can say what its fields mean for that history.
 */
module App {
  import opened Counters
  import opened Client
  import opened Acks

  datatype Frame = AckFrame(senderPts: int, id: nat) | MessageFrame(pm: Message) | UnknownFrame

  lemma RunAppend(c: Client, events: seq<Event>, e: Event)
    ensures Run(c, events + [e]) == After(Run(c, events), e)
  {
    assert (events + [e])[..|events|] == events;
  }

  ghost predicate WasShown(u: User, events: seq<Event>, v: int) {
    exists e :: e in events && EventPts(e, u) == v
  }

  /** Every number up to localPts was shown by some event. */
  ghost predicate AllShown(u: User, events: seq<Event>, localPts: int) {
    forall v :: 1 <= v <= localPts ==> WasShown(u, events, v)
  }

  /** localPts is the highest number shown so far. */
  ghost predicate IsHighest(u: User, events: seq<Event>, localPts: int) {
    (forall e :: e in events ==> EventPts(e, u) <= localPts) && (localPts == 0 || WasShown(u, events, localPts))
  }

  lemma GaplessShowsAll(u: User, events: seq<Event>)
    requires Gapless(NewClient(u), events)
    ensures AllShown(u, events, Run(NewClient(u), events).localPts)
  {
    forall v | 1 <= v <= Run(NewClient(u), events).localPts ensures WasShown(u, events, v) {
      GapCheckSound(NewClient(u), events, v);
      var i :| 0 <= i < |events| && EventPts(events[i], u) == v;
      assert events[i] in events;
    }
  }

  class TinyTelegramClient {
    const userId: User
    var localPts: int
    var messages: map<Key, Item>
    var pendingAcks: seq<Key>
    ghost var events: seq<Event>

    function C(): Client
      reads this
    {
      Client(userId, localPts, messages, pendingAcks)
    }

    /** The fields are what the history of events leaves. */
    ghost predicate Valid()
      reads this
    {
      C() == Run(NewClient(userId), events)
    }

    constructor (userId: User)
      ensures Valid() && this.userId == userId && events == []
    {
      this.userId := userId;
      localPts, messages, pendingAcks, events := 0, map[], [], [];
    }

    method UpdatePts(newPts: int)
      modifies this`localPts
      ensures localPts == if newPts > old(localPts) then newPts else old(localPts)
    {
      if newPts > localPts {
        localPts := newPts;
      }
    }

    /**
     The ack that follows a others settles send a: that send leaves the pending queue and stands
     under the server's id with the server's number; nothing else in the map changes.
     */
    method HandleAck(senderPts: int, messageId: nat)
      requires Valid()
      modifies this
      ensures Valid() && events == old(events) + [GotAck(senderPts, messageId)]
      ensures old(pendingAcks) == [] ==> messages == old(messages) && pendingAcks == []
      ensures WellPaired(events) ==>
        var a := |AcksOf(old(events))|;
        && a < |SendsOf(old(events))| && SendsOf(old(events))[a].DoSend?
        && var send := SendsOf(old(events))[a];
           && old(pendingAcks) != [] && pendingAcks == old(pendingAcks)[1..]
           && Temp(send.n) in old(messages) && Temp(send.n) !in messages && Server(messageId) in messages
           && messages[Server(messageId)]
              == Item(Server(messageId), userId, send.receiver, send.content, senderPts, false)
           && OthersKept(old(messages), messages, {Temp(send.n), Server(messageId)})
      ensures WellPaired(events) && AckedOnce(AcksOf(events)) ==> Reconciled(C(), userId, events)
    {
      ghost var e := GotAck(senderPts, messageId);
      RunAppend(NewClient(userId), events, e);
      AckSettles(userId, events, e);
      if senderPts != 0 {
        UpdatePts(senderPts);
      }
      if pendingAcks != [] {
        var tempId := pendingAcks[0];
        pendingAcks := pendingAcks[1..];
        if tempId in messages {
          var msg := messages[tempId];
          messages := messages - {tempId};
          msg := msg.(id := Server(messageId), pts := senderPts, pending := false);
          messages := messages[Server(messageId) := msg];
        }
      }
      events := events + [e];
    }

    /**
     Returns whether the gap warning is shown: exactly when this message's number leaves out one
     above all shown so far. Until that happens every number up to localPts has been shown.
     */
    method HandleIncomingMessage(pm: Message) returns (gap: bool)
      requires Valid()
      modifies this
      ensures Valid() && events == old(events) + [GotMessage(pm)] && pendingAcks == old(pendingAcks)
      ensures Server(pm.id) in messages
      ensures messages[Server(pm.id)]
           == Item(Server(pm.id), pm.sender, pm.receiver, pm.content,
                   if pm.receiver == userId then pm.receiverPts else if pm.sender == userId then pm.senderPts else 0, false)
      ensures OthersKept(old(messages), messages, {Server(pm.id)}) && MapMeans(C(), userId, events)
      ensures gap <==> exists v :: v < ClientPts(pm, userId) && Unseen(userId, old(events), v)
      ensures Gapless(NewClient(userId), events) <==> Gapless(NewClient(userId), old(events)) && !gap
      ensures Gapless(NewClient(userId), events) ==> AllShown(userId, events, localPts)
      ensures IsHighest(userId, events, localPts)
    {
      ghost var e, before := GotMessage(pm), events;
      UserStays(NewClient(userId), events);
      RunAppend(NewClient(userId), events, e);
      var pts := 0;
      if pm.receiver == userId {
        pts := pm.receiverPts;
      } else if pm.sender == userId {
        pts := pm.senderPts;
      }
      gap := pts != 0 && pts > localPts + 1;
      if pts != 0 {
        UpdatePts(pts);
      }
      messages := messages[Server(pm.id) := Item(Server(pm.id), pm.sender, pm.receiver, pm.content, pts, false)];
      events := events + [e];
      assert C() == After(old(C()), e);
      MessageMeans(userId, before, e);
      GapMeans(userId, before, pts);
      OneKeyKept(old(messages), Server(pm.id), View(pm, userId));
    }

    /** tempId is drawn from the clock and a random string; only an open socket sends. */
    method SendMessage(receiverId: User, content: string, tempId: nat, open: bool)
      requires Valid()
      modifies this
      ensures Valid() && events == old(events) + (if open then [DoSend(tempId, receiverId, content)] else [])
      ensures !open ==> C() == old(C())
      ensures open ==>
        && messages == old(messages)[Temp(tempId) := Item(Temp(tempId), userId, receiverId, content, 0, true)]
        && pendingAcks == old(pendingAcks) + [Temp(tempId)] && localPts == old(localPts)
      ensures WellPaired(events) && AckedOnce(AcksOf(events)) ==> Reconciled(C(), userId, events)
      ensures Gapless(NewClient(userId), events) <==> Gapless(NewClient(userId), old(events))
    {
      ghost var next := events + (if open then [DoSend(tempId, receiverId, content)] else []);
      HistoryMeans(userId, next);
      if !open {
        assert next == events;
        return;
      }
      RunAppend(NewClient(userId), events, DoSend(tempId, receiverId, content));
      GaplessAppend(NewClient(userId), events, DoSend(tempId, receiverId, content));
      messages := messages[Temp(tempId) := Item(Temp(tempId), userId, receiverId, content, 0, true)];
      pendingAcks := pendingAcks + [Temp(tempId)];
      events := next;
    }

    /** The history decides what the client holds, whatever frames come and in which order. */
    method OnMessage(f: Frame)
      requires Valid()
      modifies this
      ensures Valid()
      ensures f.AckFrame? ==> events == old(events) + [GotAck(f.senderPts, f.id)]
      ensures f.MessageFrame? ==> events == old(events) + [GotMessage(f.pm)]
      ensures f.UnknownFrame? ==> C() == old(C()) && events == old(events)
      ensures WellPaired(events) && AckedOnce(AcksOf(events)) ==> Reconciled(C(), userId, events)
      ensures Gapless(NewClient(userId), events) ==> AllShown(userId, events, localPts)
      ensures MapMeans(C(), userId, events)
    {
      match f {
        case AckFrame(pts, id) => HandleAck(pts, id);
        case MessageFrame(pm) => var _ := HandleIncomingMessage(pm);
        case UnknownFrame =>
      }
      HistoryMeans(userId, events);
    }
  }

  /** Outside `keys` the map is as before. */
  ghost predicate OthersKept(before: map<Key, Item>, after: map<Key, Item>, keys: set<Key>) {
    before - keys == after - keys
  }

  lemma OneKeyKept(before: map<Key, Item>, key: Key, item: Item)
    ensures OthersKept(before, before[key := item], {key})
  {
  }

  /** What the theorems about histories say of the state they leave. */
  lemma HistoryMeans(u: User, events: seq<Event>)
    ensures var c := Run(NewClient(u), events);
      && (WellPaired(events) && AckedOnce(AcksOf(events)) ==> Reconciled(c, u, events))
      && (Gapless(NewClient(u), events) ==> AllShown(u, events, c.localPts))
      && MapMeans(c, u, events)
  {
    if WellPaired(events) && AckedOnce(AcksOf(events)) { FifoReconciliation(u, events); }
    if Gapless(NewClient(u), events) { GaplessShowsAll(u, events); }
    MapMeaning(u, events);
  }

  /** A number above everything shown so far. */
  ghost predicate Unseen(u: User, events: seq<Event>, v: int) {
    1 <= v && forall e :: e in events ==> EventPts(e, u) < v
  }

  /** The gap check fires exactly when a number below the new one has not been shown, nor any above it. */
  lemma GapMeans(u: User, events: seq<Event>, pts: int)
    ensures Gap(Run(NewClient(u), events).localPts, pts) <==> exists v :: v < pts && Unseen(u, events, v)
  {
    var p := Run(NewClient(u), events).localPts;
    LocalPtsIsHighest(u, events);
    if Gap(p, pts) { assert Unseen(u, events, p + 1); }
    if v :| v < pts && Unseen(u, events, v) { assert p < v; }
  }

  lemma HighestAlways(u: User, events: seq<Event>)
    ensures IsHighest(u, events, Run(NewClient(u), events).localPts)
  {
    LocalPtsIsHighest(u, events);
  }

  /** What one message from the socket means for the history. */
  lemma MessageMeans(u: User, events: seq<Event>, e: Event)
    requires e.GotMessage?
    ensures var (c, more) := (Run(NewClient(u), events), events + [e]);
      var d := After(c, e);
      && d == Run(NewClient(u), more) && c.user == u && MapMeans(d, u, more)
      && (Gapless(NewClient(u), more) <==> Gapless(NewClient(u), events) && !Gap(c.localPts, EventPts(e, u)))
      && (Gapless(NewClient(u), more) ==> AllShown(u, more, d.localPts))
      && IsHighest(u, more, d.localPts)
  {
    RunAppend(NewClient(u), events, e);
    UserStays(NewClient(u), events);
    GaplessAppend(NewClient(u), events, e);
    HistoryMeans(u, events + [e]);
    HighestAlways(u, events + [e]);
  }

  /** The send an ack finds at the head of the queue, by counting. */
  lemma AckSettles(u: User, events: seq<Event>, e: Event)
    requires e.GotAck?
    ensures var (c, more) := (Run(NewClient(u), events), events + [e]);
      && (WellPaired(more) ==>
            var a := |AcksOf(events)|;
            && a < |SendsOf(events)| && SendsOf(events)[a].DoSend?
            && c.pendingAcks != [] && c.pendingAcks[0] == Temp(SendsOf(events)[a].n)
            && Temp(SendsOf(events)[a].n) in c.messages
            && c.messages[Temp(SendsOf(events)[a].n)] == PendingItem(u, SendsOf(events)[a]))
      && (WellPaired(more) && AckedOnce(AcksOf(more)) ==> Reconciled(After(c, e), u, more))
  {
    RunAppend(NewClient(u), events, e);
    var more := events + [e];
    assert more[..|events|] == events;
    if WellPaired(more) { QueueAlways(u, events); }
    if WellPaired(more) && AckedOnce(AcksOf(more)) { FifoReconciliation(u, more); }
  }
}
