/**
 When messages reach a receiver out of number order. The numbers are drawn when a message is
 persisted, and nothing holds a later message back until an earlier one has been enqueued, so a
 channel can accept a higher number first. A message can be overtaken in some continuation exactly
 while it is still on its way to a channel that can take both.
 */
module Overtaking {
  import opened Counters
  import B = Backend
  import opened Sequencing
  import G = Gateway
  import opened Delivery

  function Pts(s: Sys, d: nat): int
    requires d < |s.out|
  {
    s.out[d].msg.receiverPts
  }

  ghost predicate OvertakenAt(s: Sys, c: nat, g: nat, ch: nat, i: nat, j: nat) {
    && g < |s.gates| && ch < |s.gates[g].chans|
    && var q := s.gates[g].chans[ch].accepted;
       && i < j < |q| && q[i] < |s.out| && q[j] < |s.out|
       && s.out[q[j]].msg.id == c && Pts(s, q[i]) > Pts(s, q[j])
  }

  /** Message c sits in some channel behind a message with a higher receiver number. */
  ghost predicate Overtaken(s: Sys, c: nat) {
    exists g: nat, ch: nat, i: nat, j: nat :: OvertakenAt(s, c, g, ch, i, j)
  }

  // ----- where the message is --------------------------------------------------------------

  /** The handler can still take the message it holds to a delivery. */
  ghost predicate Deliverable(s: Sys, h: Handler) {
    match h
    case Awaiting(b) => b < |s.back.calls| && (s.back.calls[b].phase.Persisted? || CanStillCommit(s.back, b))
    case Acking(_) => true
    case Routing(_) => true
    case _ => false
  }

  ghost predicate InHand(s: Sys, c: nat, k: nat) {
    k < |s.conns| && HeldId(s.conns[k].handler) == c && Deliverable(s, s.conns[k].handler)
  }

  /** The channel takes n more messages, now or once its writer has taken some out. */
  predicate Room(c: G.Chan<nat>, n: nat) {
    c.writing || |c.buf| + n <= G.CAPACITY
  }

  predicate HasDoor(s: Sys, d: nat) {
    && d < |s.out| && s.out[d].status.ToSend?
    && s.out[d].gw < |s.gates| && s.out[d].status.ch < |s.gates[s.out[d].gw].chans|
  }

  function Door(s: Sys, d: nat): G.Chan<nat>
    requires HasDoor(s, d)
  {
    s.gates[s.out[d].gw].chans[s.out[d].status.ch]
  }

  /** The door is still the receiver's entry in the connection map. */
  predicate Mapped(s: Sys, d: nat)
    requires HasDoor(s, d)
  {
    var g := s.gates[s.out[d].gw];
    s.out[d].msg.receiver in g.connMap && g.connMap[s.out[d].msg.receiver] == s.out[d].status.ch
  }

  /** A higher number is already in the channel. */
  ghost predicate Behind(s: Sys, d: nat)
    requires HasDoor(s, d)
  {
    exists i: nat :: i < |Door(s, d).accepted| && HigherAt(s, d, Door(s, d).accepted[i])
  }

  predicate HigherAt(s: Sys, d: nat, e: nat) {
    d < |s.out| && e < |s.out| && Pts(s, e) > Pts(s, d)
  }

  /** e stands at the same door with a higher number. */
  predicate Rival(s: Sys, d: nat, e: nat)
    requires HasDoor(s, d)
  {
    HigherAt(s, d, e) && s.out[e].gw == s.out[d].gw && s.out[e].status == s.out[d].status
  }

  /**
   A delivery that has not looked its receiver up can be overtaken. One that holds a channel can be
   if the channel is open, and either a higher number is already in it and there is room for one
   more, or there is room for two and another delivery can still come to it.
   */
  ghost predicate CanBeOvertaken(s: Sys, d: nat) {
    d < |s.out| &&
    match s.out[d].status
    case ToLookup => true
    case ToSend(_) =>
      && HasDoor(s, d) && !Door(s, d).closed
      && (if Behind(s, d) then Room(Door(s, d), 1)
          else Room(Door(s, d), 2) && (Mapped(s, d) || exists e: nat :: Rival(s, d, e)))
    case _ => false
  }

  ghost predicate OnItsWay(s: Sys, c: nat) {
    || (exists k: nat :: InHand(s, c, k))
    || (exists d: nat :: d < |s.out| && s.out[d].msg.id == c && CanBeOvertaken(s, d))
  }

  // ----- bringing a message to a channel ---------------------------------------------------

  lemma {:induction false} PathLater(s: Sys, acts: seq<Action>, t: Sys)
    requires Inv(true, s) && Path(true, s, acts, t)
    ensures Inv(true, t) && B.Durable(s.back) <= B.Durable(t.back)
    ensures s.back.table <= t.back.table && |s.back.calls| <= |t.back.calls|
    decreases |acts|
  {
    if acts == [] {
    } else {
      StepInv(true, s, acts[0]);
      StepBack(true, s, acts[0]);
      PathLater(Next(true, s, acts[0]), acts[1..], t);
    }
  }

  lemma SysLater(s: Sys, t: Sys)
    requires Inv(true, s) && Reaches(true, s, t)
    ensures Inv(true, t) && B.Durable(s.back) <= B.Durable(t.back)
    ensures s.back.table <= t.back.table && |s.back.calls| <= |t.back.calls|
  {
    var acts :| Path(true, s, acts, t);
    PathLater(s, acts, t);
  }

  lemma Step(s: Sys, a: Action) returns (t: Sys)
    requires Inv(true, s) && Enabled(true, s, a)
    ensures t == Next(true, s, a) && Reaches(true, s, t) && Inv(true, t)
  {
    t := Next(true, s, a);
    StepReaches(true, s, a);
    StepInv(true, s, a);
  }

  /** A run of the back end is a run of the whole system. */
  lemma {:induction false} LiftService(s: Sys, acts: seq<B.Action>, back: B.State)
    requires B.Path(true, s.back, acts, back)
    ensures Reaches(true, s, s.(back := back))
    decreases |acts|
  {
    if acts == [] {
      assert Path(true, s, [], s);
    } else {
      StepReaches(true, s, Service(acts[0]));
      var next := Next(true, s, Service(acts[0]));
      LiftService(next, acts[1..], back);
      ReachesTrans(true, s, next, s.(back := back));
    }
  }

  /** The call of a waiting handler commits and its reply comes back. */
  lemma ReplyComes(s: Sys, k: nat) returns (t: Sys)
    requires Inv(true, s) && k < |s.conns| && s.conns[k].handler.Awaiting? && Deliverable(s, s.conns[k].handler)
    ensures Reaches(true, s, t) && t.gates == s.gates && t.out == s.out && |t.conns| == |s.conns| && t.conns[k].gw == s.conns[k].gw
    ensures var b := s.conns[k].handler.call;
      t.conns[k].handler.Acking? && t.conns[k].handler.pm.id == b
      && t.conns[k].handler.pm.receiver == s.back.calls[b].receiver
  {
    var b := s.conns[k].handler.call;
    var mid := s;
    if s.back.calls[b].phase.Persisted? {
      assert Path(true, s, [], s);
    } else {
      var back := CanCommit(s.back, b);
      var acts :| B.Path(true, s.back, acts, back);
      LiftService(s, acts, back);
      mid := s.(back := back);
      assert B.Party(back.calls[b], Role.Received) == B.Party(s.back.calls[b], Role.Received);
    }
    t := Next(true, mid, Reply(k, true));
    StepReaches(true, mid, Reply(k, true));
    ReachesTrans(true, s, mid, t);
  }

  /** One new delivery, local to gw and not yet started. */
  ghost predicate NewDispatch(s: Sys, t: Sys, gw: nat) {
    && |t.out| == |s.out| + 1 && s.out <= t.out
    && t.out[|s.out|].gw == gw && t.out[|s.out|].local && t.out[|s.out|].status == ToLookup
  }

  /** The ack is written and the message routed to the connection's own gateway. */
  lemma RouteHome(s: Sys, k: nat) returns (t: Sys)
    requires Inv(true, s) && k < |s.conns| && (s.conns[k].handler.Acking? || s.conns[k].handler.Routing?)
    ensures Reaches(true, s, t) && t.gates == s.gates && NewDispatch(s, t, s.conns[k].gw)
    ensures t.out[|s.out|].msg == s.conns[k].handler.pm
  {
    assert HandlerCommitted(s, s.conns[k]);
    var mid := s;
    if s.conns[k].handler.Acking? {
      mid := Step(s, WriteAck(k, true));
    } else {
      assert Path(true, s, [], s);
    }
    t := Next(true, mid, Route(k, At(s.conns[k].gw)));
    StepReaches(true, mid, Route(k, At(s.conns[k].gw)));
    ReachesTrans(true, s, mid, t);
  }

  lemma BringOut(s: Sys, c: nat, k: nat) returns (t: Sys)
    requires Inv(true, s) && InHand(s, c, k)
    ensures Reaches(true, s, t) && Inv(true, t) && t.gates == s.gates && NewDispatch(s, t, s.conns[k].gw)
    ensures t.out[|s.out|].msg.id == c
    ensures s.conns[k].handler.Awaiting? ==> t.out[|s.out|].msg.receiver == s.back.calls[c].receiver
  {
    var mid := s;
    if s.conns[k].handler.Awaiting? {
      mid := ReplyComes(s, k);
      SysLater(s, mid);
    } else {
      assert Path(true, s, [], s);
    }
    t := RouteHome(mid, k);
    ReachesTrans(true, s, mid, t);
    SysLater(s, t);
  }

  /** A new user connects to the gateway and sends u a message; its number is above all committed ones of u. */
  lemma Newcomer(s: Sys, u: User, gw: nat) returns (t: Sys)
    requires Inv(true, s) && gw < |s.gates| && u != ""
    ensures Reaches(true, s, t) && Inv(true, t) && NewDispatch(s, t, gw)
    ensures t.gates == s.gates[gw := G.Apply(s.gates[gw], G.Register(u + "x"))]
    ensures var n := t.out[|s.out|].msg;
      n.id == |s.back.calls| && n.receiver == u && forall m :: m in s.back.table && m.receiver == u ==> m.receiverPts < n.receiverPts
  {
    var c, k := |s.back.calls|, |s.conns|;
    var s1 := Step(s, Connect(u + "x", gw));
    var s2 := Step(s1, Read(k, u, "hi"));
    ReachesTrans(true, s, s1, s2);
    assert s2.conns[k].handler == Awaiting(c) && InHand(s2, c, k);
    t := BringOut(s2, c, k);
    ReachesTrans(true, s, s2, t);
    SysLater(s, t);
    var n := t.out[|s.out|].msg;
    forall m | m in s.back.table && m.receiver == u ensures m.receiverPts < n.receiverPts {
      NewIsHigher(s, t, m, n);
    }
  }

  lemma NewIsHigher(s: Sys, t: Sys, m: Message, n: Message)
    requires Inv(true, s) && Inv(true, t) && B.Durable(s.back) <= B.Durable(t.back)
    requires m in s.back.table && n in t.back.table && n.id >= |s.back.calls| && m.receiver == n.receiver
    ensures m.receiverPts < n.receiverPts
  {
    ClearOfNewCall(s.back, m, Role.Received, n.id);
    ClearOfStays(s.back, t.back, m.receiver, m.receiverPts, n.id);
    RowOwner(t.back, n, Role.Received);
  }

  // ----- overtaking ------------------------------------------------------------------------

  ghost predicate Overtakable(s: Sys, c: nat) {
    exists t :: Reaches(true, s, t) && Overtaken(t, c)
  }

  lemma OvertakableLater(s: Sys, t: Sys, c: nat)
    requires Reaches(true, s, t) && Overtakable(t, c)
    ensures Overtakable(s, c)
  {
    var u :| Reaches(true, t, u) && Overtaken(u, c);
    ReachesTrans(true, s, t, u);
  }

  /** A delivery behind a higher number, with room for one more. */
  lemma SendBehind(s: Sys, d: nat)
    requires HasDoor(s, d) && !Door(s, d).closed && |Door(s, d).buf| + 1 <= G.CAPACITY && Behind(s, d)
    ensures Overtakable(s, s.out[d].msg.id)
  {
    var g, ch, q := s.out[d].gw, s.out[d].status.ch, Door(s, d).accepted;
    var i: nat :| i < |q| && HigherAt(s, d, q[i]);
    var t := Next(true, s, SendTo(d));
    StepReaches(true, s, SendTo(d));
    assert t.gates[g].chans[ch].accepted == q + [d];
    assert (q + [d])[i] == q[i];
    assert OvertakenAt(t, s.out[d].msg.id, g, ch, i, |q|);
  }

  lemma SendBoth(s: Sys, d: nat, e: nat)
    requires HasDoor(s, d) && !Door(s, d).closed && |Door(s, d).buf| + 2 <= G.CAPACITY && Rival(s, d, e)
    ensures Overtakable(s, s.out[d].msg.id)
  {
    var t := Next(true, s, SendTo(e));
    StepReaches(true, s, SendTo(e));
    var q := Door(s, d).accepted;
    assert Door(t, d).accepted == q + [e] && (q + [e])[|q|] == e;
    assert HigherAt(t, d, e);
    SendBehind(t, d);
    OvertakableLater(s, t, s.out[d].msg.id);
  }

  /** e looks the receiver up, finds d's channel, and both send, e first. */
  lemma LookupAndSend(s: Sys, d: nat, e: nat)
    requires HasDoor(s, d) && !Door(s, d).closed && |Door(s, d).buf| + 2 <= G.CAPACITY && Mapped(s, d)
    requires HigherAt(s, d, e) && s.out[e].gw == s.out[d].gw && s.out[e].status.ToLookup?
    requires s.out[e].msg.receiver == s.out[d].msg.receiver
    ensures Overtakable(s, s.out[d].msg.id)
  {
    var t := Next(true, s, Lookup(e));
    StepReaches(true, s, Lookup(e));
    SendBoth(t, d, e);
    OvertakableLater(s, t, s.out[d].msg.id);
  }

  lemma {:induction false} MakeRoom(s: Sys, d: nat, n: nat) returns (t: Sys)
    requires HasDoor(s, d) && Room(Door(s, d), n) && n <= G.CAPACITY
    ensures Reaches(true, s, t) && t == s.(gates := t.gates) && HasDoor(t, d) && |Door(t, d).buf| + n <= G.CAPACITY
    ensures Door(t, d).accepted == Door(s, d).accepted && Door(t, d).closed == Door(s, d).closed
    ensures t.gates[s.out[d].gw].connMap == s.gates[s.out[d].gw].connMap
    decreases |Door(s, d).buf|
  {
    if |Door(s, d).buf| + n <= G.CAPACITY {
      t := s;
      assert Path(true, s, [], s);
    } else {
      var a := Drain(s.out[d].gw, s.out[d].status.ch, true);
      var next := Next(true, s, a);
      StepReaches(true, s, a);
      t := MakeRoom(next, d, n);
      ReachesTrans(true, s, next, t);
    }
  }

  /** A newcomer's message overtakes a delivery whose channel is the receiver's entry. */
  lemma NewcomerOvertakes(s: Sys, d: nat)
    requires Inv(true, s) && HasDoor(s, d) && !Door(s, d).closed && |Door(s, d).buf| + 2 <= G.CAPACITY && Mapped(s, d)
    requires s.out[d].msg.receiver != ""
    ensures Overtakable(s, s.out[d].msg.id)
  {
    var t := Newcomer(s, s.out[d].msg.receiver, s.out[d].gw);
    assert t.out[d] == s.out[d];
    assert s.out[d].msg in s.back.table;
    LookupAndSend(t, d, |s.out|);
    OvertakableLater(s, t, s.out[d].msg.id);
  }

  /** The receiver connects first, so that the delivery finds a fresh channel. */
  lemma LookupOvertaken(s: Sys, d: nat)
    requires Inv(true, s) && d < |s.out| && s.out[d].status.ToLookup? && s.out[d].msg.receiver != ""
    ensures Overtakable(s, s.out[d].msg.id)
  {
    var u, gw := s.out[d].msg.receiver, s.out[d].gw;
    var s1 := Step(s, Connect(u, gw));
    var s2 := Step(s1, Lookup(d));
    ReachesTrans(true, s, s1, s2);
    NewcomerOvertakes(s2, d);
    OvertakableLater(s, s2, s.out[d].msg.id);
  }

  lemma DoorOvertaken(s: Sys, d: nat)
    requires Inv(true, s) && CanBeOvertaken(s, d) && s.out[d].status.ToSend? && s.out[d].msg.receiver != ""
    ensures Overtakable(s, s.out[d].msg.id)
  {
    var n := if Behind(s, d) then 1 else 2;
    var t := MakeRoom(s, d, n);
    SysLater(s, t);
    if Behind(s, d) {
      var i: nat :| i < |Door(s, d).accepted| && HigherAt(s, d, Door(s, d).accepted[i]);
      assert HigherAt(t, d, Door(t, d).accepted[i]);
      SendBehind(t, d);
    } else if Mapped(s, d) {
      NewcomerOvertakes(t, d);
    } else {
      var e: nat :| Rival(s, d, e);
      SendBoth(t, d, e);
    }
    OvertakableLater(s, t, s.out[d].msg.id);
  }

  lemma OnItsWayIsOvertakable(s: Sys, c: nat)
    requires Inv(true, s) && OnItsWay(s, c)
    ensures Overtakable(s, c)
  {
    if k: nat :| InHand(s, c, k) {
      var t := BringOut(s, c, k);
      ReceiverNamed(t, |s.out|);
      LookupOvertaken(t, |s.out|);
      OvertakableLater(s, t, c);
    } else {
      var d: nat :| d < |s.out| && s.out[d].msg.id == c && CanBeOvertaken(s, d);
      ReceiverNamed(s, d);
      if s.out[d].status.ToLookup? { LookupOvertaken(s, d); } else { DoorOvertaken(s, d); }
    }
  }

  lemma ReceiverNamed(s: Sys, d: nat)
    requires Inv(true, s) && d < |s.out|
    ensures s.out[d].msg.receiver != ""
  {
    assert OneTraced(s, d);
    assert s.out[d].msg in s.conns[s.out[d].origin].acks;
  }

  // ----- and nothing else loses the order --------------------------------------------------

  /** A call that can no longer commit, and has not, stays so. */
  lemma DeadStays(s: B.State, a: B.Action, c: nat)
    requires B.Inv(s) && B.Enabled(true, s, a) && c < |s.calls|
    requires !CanStillCommit(s, c) && !s.calls[c].phase.Persisted?
    ensures var t := B.Next(true, s, a); !CanStillCommit(t, c) && !t.calls[c].phase.Persisted?
  {
    assert B.RoleOk(s, c, Role.Received) && B.RoleOk(s, c, Role.Sent);
  }

  lemma HandsKeep(s: Sys, a: Action, c: nat, k: nat)
    requires Inv(true, s) && Enabled(true, s, a) && c < |s.back.calls| && InHand(Next(true, s, a), c, k)
    ensures InHand(s, c, k)
  {
    var t := Next(true, s, a);
    StepHeld(true, s, a, k);
    assert HandlerCommitted(s, s.conns[k]);
    if t.conns[k].handler.Awaiting? && !InHand(s, c, k) {
      assert s.conns[k].handler == Awaiting(c);
      if a.Service? { DeadStays(s.back, a.a, c); }
      if a.Read? { DeadStays(s.back, B.Start(s.conns[a.k].user, a.receiver, a.content), c); }
    }
  }

  /** Closing is for good, room is not made but by the writer, and accepting takes one place. */
  lemma ChanKeeps(s: Sys, a: Action, g: nat, ch: nat)
    requires Enabled(true, s, a) && g < |s.gates| && ch < |s.gates[g].chans|
    ensures g < |Next(true, s, a).gates| && ch < |Next(true, s, a).gates[g].chans|
    ensures var (b, c) := (s.gates[g].chans[ch], Next(true, s, a).gates[g].chans[ch]);
      && (b.closed ==> c.closed) && (c.writing ==> b.writing)
      && (!b.writing ==> |b.buf| <= |c.buf|)
      && (c.accepted != b.accepted ==> c.writing == b.writing && |c.buf| == |b.buf| + 1)
  {
  }

  /** An entry of the map is never given back to an older channel. */
  lemma EntryKeeps(s: Sys, a: Action, g: nat, u: User, ch: nat)
    requires Enabled(true, s, a) && g < |s.gates| && ch < |s.gates[g].chans| && g < |Next(true, s, a).gates|
    requires u in Next(true, s, a).gates[g].connMap && Next(true, s, a).gates[g].connMap[u] == ch
    ensures u in s.gates[g].connMap && s.gates[g].connMap[u] == ch
  {
  }

  /** A running delivery's door is its own unless a lookup has just given it the mapped one. */
  lemma StatusKeeps(s: Sys, a: Action, e: nat)
    requires Enabled(true, s, a) && e < |Next(true, s, a).out| && Next(true, s, a).out[e].status.ToSend?
    ensures e < |s.out| && Next(true, s, a).out[e].msg == s.out[e].msg && Next(true, s, a).out[e].gw == s.out[e].gw
    ensures var (o, p) := (s.out[e], Next(true, s, a).out[e]);
      || o.status == p.status
      || (o.gw < |s.gates| && o.msg.receiver in s.gates[o.gw].connMap
          && s.gates[o.gw].connMap[o.msg.receiver] == p.status.ch)
  {
  }

  lemma RivalKeeps(s: Sys, a: Action, d: nat, e: nat)
    requires Inv(true, s) && Enabled(true, s, a) && HasDoor(s, d) && HasDoor(Next(true, s, a), d) && Next(true, s, a).out[d] == s.out[d]
    requires Rival(Next(true, s, a), d, e)
    ensures Rival(s, d, e) || Mapped(s, d)
  {
    StatusKeeps(s, a, e);
    assert RightDoor(s, d) && G.GateOk(s.gates[s.out[d].gw]);
  }

  lemma BehindStays(s: Sys, a: Action, d: nat)
    requires Enabled(true, s, a) && HasDoor(s, d) && HasDoor(Next(true, s, a), d) && Next(true, s, a).out[d] == s.out[d]
    requires Behind(s, d)
    ensures Behind(Next(true, s, a), d)
  {
    var t := Next(true, s, a);
    StepOut(true, s, a);
    StepChans(true, s, a, s.out[d].gw, s.out[d].status.ch);
    var q, r := Door(s, d).accepted, Door(t, d).accepted;
    var i: nat :| i < |q| && HigherAt(s, d, q[i]);
    assert t.out[q[i]].msg == s.out[q[i]].msg && r[i] == q[i];
    assert HigherAt(t, d, r[i]);
  }

  lemma MessagesStay(s: Sys, a: Action)
    requires Enabled(true, s, a)
    ensures |s.out| <= |Next(true, s, a).out| && forall d :: 0 <= d < |s.out| ==> Next(true, s, a).out[d].msg == s.out[d].msg
  {
    StepOut(true, s, a);
    forall d | 0 <= d < |s.out| ensures Next(true, s, a).out[d].msg == s.out[d].msg {
      assert Next(true, s, a).out[d].(status := s.out[d].status) == s.out[d];
    }
  }

  /** A higher number comes in ahead only from a rival. */
  lemma BehindComes(s: Sys, a: Action, d: nat)
    requires Inv(true, s) && Enabled(true, s, a) && HasDoor(s, d) && HasDoor(Next(true, s, a), d) && Next(true, s, a).out[d] == s.out[d]
    requires Behind(Next(true, s, a), d)
    ensures Behind(s, d) ||
      ((exists e: nat :: Rival(s, d, e)) && Door(Next(true, s, a), d).accepted != Door(s, d).accepted)
  {
    var t := Next(true, s, a);
    var g, ch := s.out[d].gw, s.out[d].status.ch;
    StepChans(true, s, a, g, ch);
    var q, r := Door(s, d).accepted, Door(t, d).accepted;
    var i: nat :| i < |r| && HigherAt(t, d, r[i]);
    if i < |q| {
      OlderAhead(s, a, d, i);
    } else {
      SentFrom(s, a, g, ch);
      assert Rival(s, d, a.d);
    }
  }

  lemma OlderAhead(s: Sys, a: Action, d: nat, i: nat)
    requires Inv(true, s) && Enabled(true, s, a) && HasDoor(s, d) && i < |Door(s, d).accepted|
    requires HigherAt(Next(true, s, a), d, Door(s, d).accepted[i])
    ensures Behind(s, d)
  {
    var q := Door(s, d).accepted;
    MessagesStay(s, a);
    assert SlotTaken(s, s.out[d].gw, s.out[d].status.ch, i, q[i]);
    assert HigherAt(s, d, q[i]);
  }

  /** What a channel has just accepted stood at its door. */
  lemma SentFrom(s: Sys, a: Action, g: nat, ch: nat)
    requires Enabled(true, s, a) && a.SendTo? && g < |s.gates| && ch < |s.gates[g].chans|
    requires Next(true, s, a).gates[g].chans[ch].accepted != s.gates[g].chans[ch].accepted
    ensures s.out[a.d].gw == g && s.out[a.d].status == ToSend(ch)
    ensures !s.gates[g].chans[ch].closed && Room(s.gates[g].chans[ch], 1)
    ensures Next(true, s, a).out[a.d].msg == s.out[a.d].msg
  {
  }

  /** A rival, or the receiver's entry, that can bring a higher number was there before. */
  lemma ComerKeeps(s: Sys, a: Action, d: nat)
    requires Inv(true, s) && Enabled(true, s, a) && HasDoor(s, d) && HasDoor(Next(true, s, a), d) && Next(true, s, a).out[d] == s.out[d]
    requires Mapped(Next(true, s, a), d) || exists e: nat :: Rival(Next(true, s, a), d, e)
    ensures Mapped(s, d) || exists e: nat :: Rival(s, d, e)
  {
    var t := Next(true, s, a);
    if Mapped(t, d) {
      EntryKeeps(s, a, s.out[d].gw, s.out[d].msg.receiver, s.out[d].status.ch);
    } else {
      var e: nat :| Rival(t, d, e);
      RivalKeeps(s, a, d, e);
    }
  }

  /** A delivery still at its door is the delivery it was. */
  lemma StillThere(s: Sys, a: Action, d: nat)
    requires Enabled(true, s, a) && HasDoor(s, d) && CanBeOvertaken(Next(true, s, a), d)
    ensures Next(true, s, a).out[d] == s.out[d] && HasDoor(Next(true, s, a), d)
  {
  }

  lemma DoorKeeps(s: Sys, a: Action, d: nat)
    requires Inv(true, s) && Enabled(true, s, a) && HasDoor(s, d) && CanBeOvertaken(Next(true, s, a), d)
    ensures CanBeOvertaken(s, d)
  {
    StillThere(s, a, d);
    ChanKeeps(s, a, s.out[d].gw, s.out[d].status.ch);
    if Behind(s, d) {
      BehindStays(s, a, d);
    } else if Behind(Next(true, s, a), d) {
      BehindComes(s, a, d);
    } else {
      ComerKeeps(s, a, d);
    }
  }

  lemma ChanceKeeps(s: Sys, a: Action, d: nat)
    requires Inv(true, s) && Enabled(true, s, a) && d < |s.out| && CanBeOvertaken(Next(true, s, a), d)
    ensures CanBeOvertaken(s, d)
  {
    StepOut(true, s, a);
    assert RightDoor(s, d);
    if s.out[d].status.ToSend? { DoorKeeps(s, a, d); }
  }

  /** A delivery just accepted behind a higher number could be overtaken. */
  lemma JustPassed(s: Sys, a: Action, g: nat, ch: nat, i: nat)
    requires Inv(true, s) && Enabled(true, s, a) && a.SendTo? && g < |s.gates| && ch < |s.gates[g].chans|
    requires Next(true, s, a).gates[g].chans[ch].accepted != s.gates[g].chans[ch].accepted
    requires i < |s.gates[g].chans[ch].accepted| && HigherAt(s, a.d, s.gates[g].chans[ch].accepted[i])
    ensures CanBeOvertaken(s, a.d)
  {
    SentFrom(s, a, g, ch);
    assert HigherAt(s, a.d, Door(s, a.d).accepted[i]);
    assert Behind(s, a.d);
  }

  /** The only way c comes to sit behind a higher number. */
  lemma OvertakenKeeps(s: Sys, a: Action, c: nat, g: nat, ch: nat, i: nat, j: nat)
    requires Inv(true, s) && Enabled(true, s, a) && OvertakenAt(Next(true, s, a), c, g, ch, i, j)
    ensures Overtaken(s, c) || OnItsWay(s, c)
  {
    StepChans(true, s, a, g, ch);
    MessagesStay(s, a);
    var q, r := s.gates[g].chans[ch].accepted, Next(true, s, a).gates[g].chans[ch].accepted;
    assert SlotTaken(s, g, ch, i, q[i]) && q[i] == r[i];
    if j < |q| {
      assert SlotTaken(s, g, ch, j, q[j]) && q[j] == r[j];
      assert OvertakenAt(s, c, g, ch, i, j);
    } else {
      assert r[j] == a.d;
      JustPassed(s, a, g, ch, i);
    }
  }

  ghost predicate Behaves(s: Sys, c: nat) {
    c < |s.back.calls| && !Overtaken(s, c) && !OnItsWay(s, c)
  }

  /** A new delivery was in its handler's hands. */
  lemma RoutedFromHand(s: Sys, a: Action, c: nat)
    requires Enabled(true, s, a) && |Next(true, s, a).out| > |s.out| && Next(true, s, a).out[|s.out|].msg.id == c
    ensures OnItsWay(s, c)
  {
    StepNewOut(true, s, a);
    assert InHand(s, c, a.k);
  }

  lemma StepBehaves(s: Sys, a: Action, c: nat)
    requires Inv(true, s) && Enabled(true, s, a) && Behaves(s, c)
    ensures Behaves(Next(true, s, a), c)
  {
    var t := Next(true, s, a);
    StepBack(true, s, a);
    StepOut(true, s, a);
    if g: nat, ch: nat, i: nat, j: nat :| OvertakenAt(t, c, g, ch, i, j) { OvertakenKeeps(s, a, c, g, ch, i, j); }
    if k: nat :| InHand(t, c, k) { HandsKeep(s, a, c, k); }
    if d: nat :| d < |t.out| && t.out[d].msg.id == c && CanBeOvertaken(t, d) {
      if d < |s.out| {
        ChanceKeeps(s, a, d);
      } else {
        RoutedFromHand(s, a, c);
      }
    }
  }

  lemma {:induction false} PathBehaves(s: Sys, acts: seq<Action>, t: Sys, c: nat)
    requires Inv(true, s) && Path(true, s, acts, t) && Behaves(s, c)
    ensures !Overtaken(t, c)
    decreases |acts|
  {
    if acts == [] {
    } else {
      StepInv(true, s, acts[0]);
      StepBehaves(s, acts[0], c);
      PathBehaves(Next(true, s, acts[0]), acts[1..], t, c);
    }
  }

  /**
   A message is overtaken in some continuation exactly when it has been already, or is still on its
   way: in the hands of a handler that can finish, or in a delivery that can be overtaken.
   */
  lemma OrderLostIff(s: Sys, c: nat)
    requires Reachable(true, s) && c < |s.back.calls|
    ensures (exists t :: Reaches(true, s, t) && Overtaken(t, c)) <==> Overtaken(s, c) || OnItsWay(s, c)
  {
    Delivery.Always(true, s);
    if Overtaken(s, c) {
      assert Path(true, s, [], s);
    } else if OnItsWay(s, c) {
      OnItsWayIsOvertakable(s, c);
    } else {
      forall t | Reaches(true, s, t) ensures !Overtaken(t, c) {
        var acts :| Path(true, s, acts, t);
        PathBehaves(s, acts, t, c);
      }
    }
  }

  /** Out-of-order numbers are reachable with one gateway. */
  lemma OvertakenReachable() returns (s: Sys)
    ensures Reachable(true, s) && Overtaken(s, 0)
  {
    var start := Init(1);
    InitInv(true, 1);
    var sent := Newcomer(start, "bob", 0);
    LookupOvertaken(sent, 0);
    OvertakableLater(start, sent, sent.out[0].msg.id);
    s :| Reaches(true, start, s) && Overtaken(s, 0);
  }
}
