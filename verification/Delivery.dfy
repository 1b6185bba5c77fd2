/**
 The whole messaging path as one step machine: every WebSocket handler, every peer delivery, every
 gateway's channels, and the back end underneath, all interleaved.

 A handler reads a message, waits for PersistMessage, writes the ack, looks up the receiver's
 gateway and delivers, one message at a time. A delivery to another gateway runs on its own.
 Channels hold delivery numbers, standing for the pointers Go passes around.
 */
module Delivery {
  import opened Counters
  import B = Backend
  import opened Sequencing
  import G = Gateway

  type Message = B.Message

  datatype Handler =
    | Reading
    | Awaiting(call: nat)
    | Acking(pm: Message)
    | Routing(pm: Message)
    | Delivering(d: nat)
    | Closed

  /** `acks` lists the messages whose ack was written on this connection, oldest first. */
  datatype Conn = Conn(user: User, gw: nat, handler: Handler, acks: seq<Message>)

  datatype Status = ToLookup | ToSend(ch: nat) | Enqueued(ch: nat, at: nat) | Lost | Panicked(ch: nat)

  /** `origin` and `ackNo` are history: the connection that routed it, and its place among the acks. */
  datatype Dispatch = Dispatch(msg: Message, gw: nat, origin: nat, ackNo: nat, local: bool, status: Status)

  datatype Sys = Sys(back: B.State, gates: seq<G.Gate<nat>>, conns: seq<Conn>, out: seq<Dispatch>)

  datatype Target = Nowhere | At(gw: nat)

  datatype Action =
    | Service(a: B.Action)
    | Connect(user: User, gw: nat)
    | Disconnect(k: nat)
    | Read(k: nat, receiver: User, content: string)
    | Reply(k: nat, ok: bool)
    | WriteAck(k: nat, ok: bool)
    | Route(k: nat, target: Target)
    | Lookup(d: nat)
    | SendTo(d: nat)
    | RpcFails(d: nat)
    | Resume(k: nat)
    | Drain(gw: nat, ch: nat, writeOk: bool)

  function Init(gateways: nat): Sys {
    Sys(B.Init(), seq(gateways, i => G.Gate([], map[])), [], [])
  }

  predicate Running(d: Dispatch) {
    d.status.ToLookup? || d.status.ToSend?
  }

  predicate Enabled(a1: bool, s: Sys, a: Action) {
    match a
    case Service(b) => B.Enabled(a1, s.back, b)
    case Connect(u, gw) => u != "" && gw < |s.gates|
    case Disconnect(k) => k < |s.conns| && s.conns[k].handler.Reading? && s.conns[k].gw < |s.gates|
    case Read(k, receiver, content) =>
      k < |s.conns| && s.conns[k].handler.Reading? && receiver != "" && content != ""
    case Reply(k, ok) =>
      && k < |s.conns| && s.conns[k].handler.Awaiting?
      && (ok ==> var c := s.conns[k].handler.call; c < |s.back.calls| && s.back.calls[c].phase.Persisted?)
    case WriteAck(k, _) => k < |s.conns| && s.conns[k].handler.Acking?
    case Route(k, target) =>
      k < |s.conns| && s.conns[k].handler.Routing? && |s.conns[k].acks| > 0 && (target.At? ==> target.gw < |s.gates|)
    case Lookup(d) => d < |s.out| && s.out[d].status.ToLookup? && s.out[d].gw < |s.gates|
    case SendTo(d) =>
      && d < |s.out| && s.out[d].status.ToSend? && s.out[d].gw < |s.gates|
      && s.out[d].status.ch < |s.gates[s.out[d].gw].chans|
    case RpcFails(d) => d < |s.out| && s.out[d].status.ToLookup? && !s.out[d].local
    case Resume(k) =>
      && k < |s.conns| && s.conns[k].handler.Delivering? && s.conns[k].gw < |s.gates|
      && s.conns[k].handler.d < |s.out| && !Running(s.out[s.conns[k].handler.d])
    case Drain(gw, _, _) => gw < |s.gates|
  }

  function WithHandler(s: Sys, k: nat, h: Handler): Sys
    requires k < |s.conns|
  {
    s.(conns := s.conns[k := s.conns[k].(handler := h)])
  }

  function WithStatus(s: Sys, d: nat, st: Status): Sys
    requires d < |s.out|
  {
    s.(out := s.out[d := s.out[d].(status := st)])
  }

  function OnGate(s: Sys, gw: nat, a: G.Act<nat>): Sys
    requires gw < |s.gates|
  {
    s.(gates := s.gates[gw := G.Apply(s.gates[gw], a)])
  }

  /** The deferred cleanup: it unregisters the user, whichever connection the map now holds. */
  function Cleanup(s: Sys, k: nat): Sys
    requires k < |s.conns| && s.conns[k].gw < |s.gates|
  {
    OnGate(WithHandler(s, k, Closed), s.conns[k].gw, G.Unregister(s.conns[k].user))
  }

  function AfterSendTo(a1: bool, s: Sys, d: nat): Sys
    requires Enabled(a1, s, SendTo(d))
  {
    var gw, ch := s.out[d].gw, s.out[d].status.ch;
    var chan := s.gates[gw].chans[ch];
    var st := match G.SendResult(chan)
              case Delivered => Enqueued(ch, |chan.accepted|)
              case Dropped => Lost
              case Panicked => Status.Panicked(ch);
    OnGate(WithStatus(s, d, st), gw, G.Send(ch, d))
  }

  function Next(a1: bool, s: Sys, a: Action): Sys
    requires Enabled(a1, s, a)
  {
    match a
    case Service(b) => s.(back := B.Next(a1, s.back, b))
    case Connect(u, gw) => OnGate(s.(conns := s.conns + [Conn(u, gw, Reading, [])]), gw, G.Register(u))
    case Disconnect(k) => Cleanup(s, k)
    case Read(k, receiver, content) =>
      WithHandler(s, k, Awaiting(|s.back.calls|)).(
        back := B.Next(a1, s.back, B.Start(s.conns[k].user, receiver, content)))
    case Reply(k, ok) =>
      var c := s.conns[k].handler.call;
      WithHandler(s, k, if ok then Acking(B.MessageOf(c, s.back.calls[c])) else Reading)
    case WriteAck(k, ok) =>
      var pm := s.conns[k].handler.pm;
      if ok then s.(conns := s.conns[k := s.conns[k].(handler := Routing(pm), acks := s.conns[k].acks + [pm])])
      else WithHandler(s, k, Reading)
    case Route(k, target) =>
      if target.Nowhere? then WithHandler(s, k, Reading)
      else
        var local := target.gw == s.conns[k].gw;
        var d := Dispatch(s.conns[k].handler.pm, target.gw, k, |s.conns[k].acks| - 1, local, ToLookup);
        WithHandler(s, k, if local then Delivering(|s.out|) else Reading).(out := s.out + [d])
    case Lookup(d) =>
      var g := s.gates[s.out[d].gw];
      var u := s.out[d].msg.receiver;
      WithStatus(s, d, if u in g.connMap then ToSend(g.connMap[u]) else Lost)
    case SendTo(d) => AfterSendTo(a1, s, d)
    case RpcFails(d) => WithStatus(s, d, Lost)
    case Resume(k) =>
      if s.out[s.conns[k].handler.d].status.Panicked? then Cleanup(s, k) else WithHandler(s, k, Reading)
    case Drain(gw, ch, ok) => OnGate(s, gw, G.Take(ch, ok))
  }

  ghost predicate Path(a1: bool, s: Sys, acts: seq<Action>, t: Sys)
    decreases |acts|
  {
    if acts == [] then t == s else Enabled(a1, s, acts[0]) && Path(a1, Next(a1, s, acts[0]), acts[1..], t)
  }

  ghost predicate Reaches(a1: bool, s: Sys, t: Sys) {
    exists acts :: Path(a1, s, acts, t)
  }

  ghost predicate Reachable(a1: bool, s: Sys) {
    exists n: nat :: Reaches(a1, Init(n), s)
  }

  lemma PathTrans(a1: bool, s: Sys, xs: seq<Action>, t: Sys, ys: seq<Action>, u: Sys)
    requires Path(a1, s, xs, t) && Path(a1, t, ys, u)
    ensures Path(a1, s, xs + ys, u)
    decreases |xs|
  {
    if xs == [] {
      assert xs + ys == ys;
    } else {
      PathTrans(a1, Next(a1, s, xs[0]), xs[1..], t, ys, u);
      assert (xs + ys)[0] == xs[0] && (xs + ys)[1..] == xs[1..] + ys;
    }
  }

  lemma ReachesTrans(a1: bool, s: Sys, t: Sys, u: Sys)
    requires Reaches(a1, s, t) && Reaches(a1, t, u)
    ensures Reaches(a1, s, u)
  {
    var xs :| Path(a1, s, xs, t);
    var ys :| Path(a1, t, ys, u);
    PathTrans(a1, s, xs, t, ys, u);
  }

  lemma StepReaches(a1: bool, s: Sys, a: Action)
    requires Enabled(a1, s, a)
    ensures Reaches(a1, s, Next(a1, s, a))
  {
    assert [a][1..] == [];
    assert Path(a1, s, [a], Next(a1, s, a));
  }

  // ----- the invariant ---------------------------------------------------------------------

  ghost predicate GatesOk(s: Sys) {
    forall g :: 0 <= g < |s.gates| ==> G.GateOk(s.gates[g])
  }

  ghost predicate Homes(s: Sys) {
    && (forall k :: 0 <= k < |s.conns| ==> s.conns[k].gw < |s.gates|)
    && (forall d :: 0 <= d < |s.out| ==> s.out[d].gw < |s.gates|)
  }

  /** All messages in hand are committed rows, sent by the connection's own user. */
  ghost predicate HandlerCommitted(s: Sys, c: Conn) {
    match c.handler
    case Awaiting(b) => b < |s.back.calls| && s.back.calls[b].sender == c.user && s.back.calls[b].receiver != ""
    case Acking(pm) => pm in s.back.table && pm.sender == c.user && pm.receiver != ""
    case Routing(pm) => c.acks != [] && c.acks[|c.acks| - 1] == pm
    case _ => true
  }

  ghost predicate Committed(s: Sys) {
    && (forall k :: 0 <= k < |s.conns| ==> HandlerCommitted(s, s.conns[k]))
    && (forall k, m :: 0 <= k < |s.conns| && m in s.conns[k].acks ==>
          m in s.back.table && m.sender == s.conns[k].user && m.receiver != "")
    && (forall d :: 0 <= d < |s.out| ==> s.out[d].msg in s.back.table)
  }

  /** Every accepted message is one delivery, which remembers where it was put. */
  ghost predicate SlotTaken(s: Sys, g: nat, ch: nat, at: nat, d: nat) {
    && d < |s.out| && s.out[d].gw == g && s.out[d].status == Enqueued(ch, at)
  }

  predicate HasChannel(st: Status) {
    st.ToSend? || st.Enqueued? || st.Panicked?
  }

  /** A delivery's channel was opened for its receiver; one that panicked met it closed. */
  ghost predicate RightDoor(s: Sys, d: nat)
    requires d < |s.out|
  {
    var o := s.out[d];
    HasChannel(o.status) ==>
      && o.gw < |s.gates| && o.status.ch < |s.gates[o.gw].chans|
      && s.gates[o.gw].chans[o.status.ch].user == o.msg.receiver
      && (o.status.Panicked? ==> s.gates[o.gw].chans[o.status.ch].closed)
  }

  ghost predicate Placed(s: Sys) {
    && (forall g, ch, at :: 0 <= g < |s.gates| && 0 <= ch < |s.gates[g].chans| && 0 <= at < |s.gates[g].chans[ch].accepted| ==>
          SlotTaken(s, g, ch, at, s.gates[g].chans[ch].accepted[at]))
    && (forall d :: 0 <= d < |s.out| ==> RightDoor(s, d))
  }

  function HeldId(h: Handler): int {
    match h
    case Awaiting(c) => c
    case Acking(pm) => pm.id
    case Routing(pm) => pm.id
    case _ => -1
  }

  /** A message id is in the hands of one handler, or in one delivery, never both. */
  ghost predicate Linear(s: Sys) {
    && (forall k :: 0 <= k < |s.conns| ==> HeldId(s.conns[k].handler) < |s.back.calls|)
    && (forall d :: 0 <= d < |s.out| ==> s.out[d].msg.id < |s.back.calls|)
    && (forall j, k :: 0 <= j < k < |s.conns| && HeldId(s.conns[j].handler) >= 0 ==>
          HeldId(s.conns[j].handler) != HeldId(s.conns[k].handler))
    && (forall d, k :: 0 <= d < |s.out| && 0 <= k < |s.conns| ==> s.out[d].msg.id != HeldId(s.conns[k].handler))
    && (forall d, e :: 0 <= d < e < |s.out| ==> s.out[d].msg.id != s.out[e].msg.id)
  }

  /** No id is acknowledged twice on a connection, and what its handler holds is not acknowledged yet. */
  ghost predicate OnceIn(c: Conn) {
    && (forall i, j :: 0 <= i < j < |c.acks| ==> c.acks[i].id != c.acks[j].id)
    && (c.handler.Awaiting? || c.handler.Acking? ==> forall m :: m in c.acks ==> m.id != HeldId(c.handler))
  }

  ghost predicate Once(s: Sys) {
    forall k :: 0 <= k < |s.conns| ==> OnceIn(s.conns[k])
  }

  /** m's numbers are below n's for every user they share. */
  ghost predicate Precedes(m: Message, n: Message) {
    forall r, q :: B.UserOf(m, r) == B.UserOf(n, q) ==> B.PtsOf(m, r) < B.PtsOf(n, q)
  }

  ghost predicate ClearOfCall(st: B.State, m: Message, b: nat)
    requires B.LogOk(st)
  {
    forall r :: ClearOf(st, B.UserOf(m, r), B.PtsOf(m, r), b)
  }

  ghost predicate HandlerInOrder(s: Sys, c: Conn)
    requires B.LogOk(s.back)
  {
    match c.handler
    case Awaiting(b) => forall m :: m in c.acks ==> ClearOfCall(s.back, m, b)
    case Acking(pm) => forall m :: m in c.acks ==> Precedes(m, pm)
    case _ => true
  }

  ghost predicate AcksInOrder(c: Conn) {
    forall i, j :: 0 <= i < j < |c.acks| ==> Precedes(c.acks[i], c.acks[j])
  }

  ghost predicate Ordered(s: Sys)
    requires B.LogOk(s.back)
  {
    forall k :: 0 <= k < |s.conns| ==> AcksInOrder(s.conns[k]) && HandlerInOrder(s, s.conns[k])
  }

  ghost predicate OneTraced(s: Sys, d: nat)
    requires d < |s.out|
  {
    var o := s.out[d];
    && o.origin < |s.conns| && o.ackNo < |s.conns[o.origin].acks|
    && o.msg == s.conns[o.origin].acks[o.ackNo]
    && (o.local && Running(o) ==> s.conns[o.origin].handler == Delivering(d))
    && (s.conns[o.origin].handler.Routing? ==> o.ackNo < |s.conns[o.origin].acks| - 1)
  }

  /** Deliveries of a connection follow its acks; a local one holds its handler until it ends. */
  ghost predicate Traced(s: Sys) {
    && (forall d :: 0 <= d < |s.out| ==> OneTraced(s, d))
    && (forall d, e :: 0 <= d < e < |s.out| && s.out[d].origin == s.out[e].origin ==> s.out[d].ackNo < s.out[e].ackNo)
    && (forall k, d :: 0 <= k < |s.conns| && 0 <= d < |s.out| && HoldsFor(s, k, d) ==> d <= s.conns[k].handler.d)
  }

  /** d is a delivery of connection k, whose handler is waiting for its latest one. */
  predicate HoldsFor(s: Sys, k: nat, d: nat)
    requires k < |s.conns| && d < |s.out|
  {
    s.conns[k].handler.Delivering? && s.out[d].origin == k
  }

  predicate Comrades(s: Sys, d: nat, e: nat) {
    d < |s.out| && e < |s.out| && s.out[d].local && s.out[e].local && s.out[d].origin == s.out[e].origin
  }

  /** In every channel, local deliveries of one connection sit in the order they were routed. */
  ghost predicate Queued(s: Sys) {
    forall g, ch :: 0 <= g < |s.gates| && 0 <= ch < |s.gates[g].chans| ==> QueueOk(s, s.gates[g].chans[ch].accepted)
  }

  ghost predicate QueueOk(s: Sys, q: seq<nat>) {
    forall i, j :: 0 <= i < j < |q| && Comrades(s, q[i], q[j]) ==> q[i] < q[j]
  }

  /** What every run keeps; only the order of numbers needs a covering WAIT. */
  ghost predicate Inv(a1: bool, s: Sys) {
    && B.Base(s.back)
    && GatesOk(s) && Homes(s) && Committed(s) && Placed(s) && Linear(s) && Once(s) && Traced(s) && Queued(s)
    && (a1 ==> B.Inv(s.back) && Ordered(s))
  }

  lemma InitInv(a1: bool, n: nat)
    ensures Inv(a1, Init(n))
  {
    B.InitInv();
  }

  // ----- every step keeps it ---------------------------------------------------------------

  lemma StepBack(a1: bool, s: Sys, a: Action)
    requires B.Base(s.back) && Enabled(a1, s, a)
    ensures var t := Next(a1, s, a);
      && B.Base(t.back) && B.Durable(s.back) <= B.Durable(t.back)
      && s.back.table <= t.back.table && |s.back.calls| <= |t.back.calls|
      && (forall c :: 0 <= c < |s.back.calls| ==>
            t.back.calls[c].sender == s.back.calls[c].sender && t.back.calls[c].receiver == s.back.calls[c].receiver)
      && (t.back == s.back || a.Service? || (a.Read? && |t.back.calls| == |s.back.calls| + 1
            && t.back.calls[|s.back.calls|].sender == s.conns[a.k].user
            && t.back.calls[|s.back.calls|].receiver == a.receiver))
  {
    if a.Service? || a.Read? {
      var b := if a.Service? then a.a else B.Start(s.conns[a.k].user, a.receiver, a.content);
      B.StepBase(a1, s.back, b);
      B.StepDurable(a1, s.back, b);
      B.StepRows(a1, s.back, b);
      forall c | 0 <= c < |s.back.calls|
        ensures c < |Next(a1, s, a).back.calls| && Next(a1, s, a).back.calls[c].sender == s.back.calls[c].sender
        ensures Next(a1, s, a).back.calls[c].receiver == s.back.calls[c].receiver
      {
        B.StepCall(a1, s.back, b, c);
        assert B.Party(Next(a1, s, a).back.calls[c], Role.Received) == B.Party(s.back.calls[c], Role.Received);
        assert B.Party(Next(a1, s, a).back.calls[c], Role.Sent) == B.Party(s.back.calls[c], Role.Sent);
      }
    }
  }

  /** A gate changes by at most one gate action per step. */
  lemma StepGates(a1: bool, s: Sys, a: Action)
    requires GatesOk(s) && Enabled(a1, s, a)
    ensures GatesOk(Next(a1, s, a))
  {
    var t := Next(a1, s, a);
    if a.Connect? { G.StepOk(s.gates[a.gw], G.Register(a.user)); }
    if a.Disconnect? || a.Resume? { G.StepOk(s.gates[s.conns[a.k].gw], G.Unregister(s.conns[a.k].user)); }
    if a.SendTo? { G.StepOk(s.gates[s.out[a.d].gw], G.Send(s.out[a.d].status.ch, a.d)); }
    if a.Drain? { G.StepOk(s.gates[a.gw], G.Take(a.ch, a.writeOk)); }
  }

  lemma HandlerStays(s: Sys, t: Sys, c: Conn)
    requires HandlerCommitted(s, c) && s.back.table <= t.back.table && |s.back.calls| <= |t.back.calls|
    requires forall b :: 0 <= b < |s.back.calls| ==>
      t.back.calls[b].sender == s.back.calls[b].sender && t.back.calls[b].receiver == s.back.calls[b].receiver
    ensures HandlerCommitted(t, c)
  {
  }

  lemma StepHandlerCommitted(a1: bool, s: Sys, a: Action, k: nat)
    requires B.Base(s.back) && Committed(s) && Enabled(a1, s, a) && k < |Next(a1, s, a).conns|
    ensures HandlerCommitted(Next(a1, s, a), Next(a1, s, a).conns[k])
  {
    if k < |s.conns| {
      assert HandlerCommitted(s, s.conns[k]);
      if a.Reply? && a.k == k && a.ok {
        ReplyCommitted(a1, s, a);
      } else if a.Read? && a.k == k {
        StepBack(a1, s, a);
      } else {
        StepBack(a1, s, a);
        HandlerStays(s, Next(a1, s, a), s.conns[k]);
      }
    }
  }

  lemma ReplyCommitted(a1: bool, s: Sys, a: Action)
    requires B.Base(s.back) && Committed(s) && Enabled(a1, s, a) && a.Reply? && a.ok
    ensures HandlerCommitted(Next(a1, s, a), Next(a1, s, a).conns[a.k])
  {
    assert HandlerCommitted(s, s.conns[a.k]);
    var c := s.conns[a.k].handler.call;
    assert B.MessageOf(c, s.back.calls[c]) in s.back.table;
  }

  lemma StepAckCommitted(a1: bool, s: Sys, a: Action, k: nat, m: Message)
    requires B.Base(s.back) && Committed(s) && Enabled(a1, s, a) && k < |Next(a1, s, a).conns| && m in Next(a1, s, a).conns[k].acks
    ensures m in Next(a1, s, a).back.table && m.sender == Next(a1, s, a).conns[k].user && m.receiver != ""
  {
    StepBack(a1, s, a);
    if k < |s.conns| { assert HandlerCommitted(s, s.conns[k]); }
  }

  lemma StepOutCommitted(a1: bool, s: Sys, a: Action, d: nat)
    requires B.Base(s.back) && Committed(s) && Enabled(a1, s, a) && d < |Next(a1, s, a).out|
    ensures Next(a1, s, a).out[d].msg in Next(a1, s, a).back.table
  {
    StepBack(a1, s, a);
    StepOut(a1, s, a);
    if d < |s.out| {
      assert Next(a1, s, a).out[d].msg == s.out[d].msg;
    } else {
      assert HandlerCommitted(s, s.conns[a.k]);
      assert s.conns[a.k].handler.pm in s.conns[a.k].acks;
    }
  }

  lemma StepAcksCommitted(a1: bool, s: Sys, a: Action)
    requires B.Base(s.back) && Committed(s) && Enabled(a1, s, a)
    ensures var t := Next(a1, s, a);
      forall k, m :: 0 <= k < |t.conns| && m in t.conns[k].acks ==>
        m in t.back.table && m.sender == t.conns[k].user && m.receiver != ""
  {
    var t := Next(a1, s, a);
    forall k, m | 0 <= k < |t.conns| && m in t.conns[k].acks
      ensures m in t.back.table && m.sender == t.conns[k].user && m.receiver != "" { StepAckCommitted(a1, s, a, k, m); }
  }

  lemma StepCommitted(a1: bool, s: Sys, a: Action)
    requires B.Base(s.back) && Committed(s) && Enabled(a1, s, a)
    ensures Committed(Next(a1, s, a))
  {
    var t := Next(a1, s, a);
    StepAcksCommitted(a1, s, a);
    forall k | 0 <= k < |t.conns| ensures HandlerCommitted(t, t.conns[k]) { StepHandlerCommitted(a1, s, a, k); }
    forall d | 0 <= d < |t.out| ensures t.out[d].msg in t.back.table { StepOutCommitted(a1, s, a, d); }
  }

  /** Gates never forget a channel, its user, or a message it accepted; only SendTo adds one. */
  lemma StepChans(a1: bool, s: Sys, a: Action, g: nat, ch: nat)
    requires Enabled(a1, s, a) && g < |Next(a1, s, a).gates| && ch < |Next(a1, s, a).gates[g].chans|
    ensures |Next(a1, s, a).gates| == |s.gates|
    ensures var c := Next(a1, s, a).gates[g].chans[ch];
      if ch >= |s.gates[g].chans| then c.accepted == []
      else
        var b := s.gates[g].chans[ch];
        && c.user == b.user
        && (c.accepted == b.accepted
            || (a.SendTo? && c.accepted == b.accepted + [a.d] && s.out[a.d].gw == g
                && Next(a1, s, a).out[a.d].status == Enqueued(ch, |b.accepted|)))
  {
  }

  /** A step changes at most one delivery and appends at most one. */
  lemma StepOut(a1: bool, s: Sys, a: Action)
    requires Enabled(a1, s, a)
    ensures var t := Next(a1, s, a);
      && |s.out| <= |t.out| <= |s.out| + 1
      && (forall d :: 0 <= d < |s.out| ==> t.out[d].(status := s.out[d].status) == s.out[d])
      && (forall d :: 0 <= d < |s.out| && !Running(s.out[d]) ==> t.out[d] == s.out[d])
      && (|t.out| > |s.out| ==> a.Route? && t.out[|s.out|].status == ToLookup)
  {
  }

  /** Connections stay; acks only grow, by the acknowledged message, and then the handler routes it. */
  lemma StepConns(a1: bool, s: Sys, a: Action)
    requires Enabled(a1, s, a)
    ensures var t := Next(a1, s, a);
      && |s.conns| <= |t.conns|
      && (forall k :: 0 <= k < |s.conns| ==>
            && t.conns[k].user == s.conns[k].user && t.conns[k].gw == s.conns[k].gw
            && s.conns[k].acks <= t.conns[k].acks
            && (|t.conns[k].acks| > |s.conns[k].acks| ==> a == WriteAck(k, true) && |t.conns[k].acks| == |s.conns[k].acks| + 1)
            && (t.conns[k].handler.Routing? && !s.conns[k].handler.Routing? ==> |t.conns[k].acks| > |s.conns[k].acks|))
  {
  }

  /** A delivery keeps its channel; only a lookup picks one, and it picks the receiver's own. */
  lemma StepDoorChoice(a1: bool, s: Sys, a: Action, d: nat)
    requires GatesOk(s) && Enabled(a1, s, a) && d < |s.out|
    ensures var (o, p) := (s.out[d], Next(a1, s, a).out[d]);
      HasChannel(p.status) ==>
        (HasChannel(o.status) && p.status.ch == o.status.ch)
        || (o.gw < |s.gates| && p.status.ch < |s.gates[o.gw].chans|
            && s.gates[o.gw].chans[p.status.ch].user == o.msg.receiver)
  {
    if a == Lookup(d) { assert G.GateOk(s.gates[s.out[d].gw]); }
  }

  lemma ChansStay(a1: bool, s: Sys, a: Action, g: nat, ch: nat)
    requires Enabled(a1, s, a) && g < |s.gates| && ch < |s.gates[g].chans|
    ensures var t := Next(a1, s, a);
      && g < |t.gates| && ch < |t.gates[g].chans| && t.gates[g].chans[ch].user == s.gates[g].chans[ch].user
      && (s.gates[g].chans[ch].closed ==> t.gates[g].chans[ch].closed)
  {
  }

  lemma MetClosed(a1: bool, s: Sys, a: Action, d: nat)
    requires Enabled(a1, s, a) && d < |s.out| && s.out[d].status.ToSend? && Next(a1, s, a).out[d].status.Panicked?
    ensures var (o, p) := (s.out[d], Next(a1, s, a).out[d]);
      && o.gw < |s.gates| && p.status.ch == o.status.ch < |s.gates[o.gw].chans|
      && s.gates[o.gw].chans[o.status.ch].closed
  {
  }

  lemma StepDoors(a1: bool, s: Sys, a: Action, d: nat)
    requires GatesOk(s) && Placed(s) && Enabled(a1, s, a) && d < |Next(a1, s, a).out|
    ensures RightDoor(Next(a1, s, a), d)
  {
    var t := Next(a1, s, a);
    StepOut(a1, s, a);
    if d < |s.out| {
      assert RightDoor(s, d);
      StepDoorChoice(a1, s, a, d);
      var o := t.out[d];
      assert o.gw == s.out[d].gw && o.msg == s.out[d].msg;
      if HasChannel(o.status) { ChansStay(a1, s, a, o.gw, o.status.ch); }
      if o.status.Panicked? && s.out[d].status.ToSend? { MetClosed(a1, s, a, d); }
    }
  }

  lemma StepPlaced(a1: bool, s: Sys, a: Action)
    requires GatesOk(s) && Placed(s) && Enabled(a1, s, a)
    ensures Placed(Next(a1, s, a))
  {
    var t := Next(a1, s, a);
    StepOut(a1, s, a);
    forall g, ch, at | 0 <= g < |t.gates| && 0 <= ch < |t.gates[g].chans| && 0 <= at < |t.gates[g].chans[ch].accepted|
      ensures SlotTaken(t, g, ch, at, t.gates[g].chans[ch].accepted[at])
    {
      StepChans(a1, s, a, g, ch);
      if at < |s.gates[g].chans[ch].accepted| {
        assert SlotTaken(s, g, ch, at, s.gates[g].chans[ch].accepted[at]);
      }
    }
    forall d | 0 <= d < |t.out| ensures RightDoor(t, d) { StepDoors(a1, s, a, d); }
  }

  /** What a handler holds after a step: the same id, nothing, or a call that just began. */
  lemma StepHeld(a1: bool, s: Sys, a: Action, k: nat)
    requires B.Base(s.back) && Committed(s) && Enabled(a1, s, a) && k < |Next(a1, s, a).conns|
    ensures var t := Next(a1, s, a);
      || HeldId(t.conns[k].handler) == -1
      || (k < |s.conns| && HeldId(t.conns[k].handler) == HeldId(s.conns[k].handler))
      || (a.Read? && a.k == k && HeldId(t.conns[k].handler) == |s.back.calls|)
  {
    if k < |s.conns| { assert HandlerCommitted(s, s.conns[k]); }
  }

  /** A new delivery takes over the id its handler held. */
  lemma StepNewOut(a1: bool, s: Sys, a: Action)
    requires Enabled(a1, s, a) && |Next(a1, s, a).out| > |s.out|
    ensures var t := Next(a1, s, a);
      && a.Route? && a.k < |s.conns| && s.conns[a.k].handler.Routing?
      && t.out[|s.out|].msg.id == HeldId(s.conns[a.k].handler) && t.out[|s.out|].msg.id >= 0
      && HeldId(t.conns[a.k].handler) == -1
      && t.back == s.back
  {
  }

  lemma HandlersApart(a1: bool, s: Sys, a: Action, j: nat, k: nat)
    requires B.Base(s.back) && Committed(s) && Linear(s) && Enabled(a1, s, a)
    requires j < k < |Next(a1, s, a).conns| && HeldId(Next(a1, s, a).conns[j].handler) >= 0
    ensures HeldId(Next(a1, s, a).conns[j].handler) != HeldId(Next(a1, s, a).conns[k].handler)
  {
    StepHeld(a1, s, a, j);
    StepHeld(a1, s, a, k);
  }

  lemma OutApartFromHandlers(a1: bool, s: Sys, a: Action, d: nat, k: nat)
    requires B.Base(s.back) && Committed(s) && Linear(s) && Enabled(a1, s, a)
    requires d < |Next(a1, s, a).out| && k < |Next(a1, s, a).conns|
    ensures Next(a1, s, a).out[d].msg.id != HeldId(Next(a1, s, a).conns[k].handler)
  {
    StepHeld(a1, s, a, k);
    StepOut(a1, s, a);
    if d < |s.out| { assert Next(a1, s, a).out[d].msg == s.out[d].msg; } else { StepNewOut(a1, s, a); }
  }

  lemma OutApart(a1: bool, s: Sys, a: Action, d: nat, e: nat)
    requires Linear(s) && Enabled(a1, s, a) && d < e < |Next(a1, s, a).out|
    ensures Next(a1, s, a).out[d].msg.id != Next(a1, s, a).out[e].msg.id
  {
    StepOut(a1, s, a);
    var t := Next(a1, s, a);
    assert t.out[d].msg == s.out[d].msg;
    if e < |s.out| { assert t.out[e].msg == s.out[e].msg; } else { StepNewOut(a1, s, a); }
  }

  lemma IdsBegun(a1: bool, s: Sys, a: Action)
    requires B.Base(s.back) && Committed(s) && Linear(s) && Enabled(a1, s, a)
    ensures var t := Next(a1, s, a);
      && (forall k :: 0 <= k < |t.conns| ==> HeldId(t.conns[k].handler) < |t.back.calls|)
      && (forall d :: 0 <= d < |t.out| ==> t.out[d].msg.id < |t.back.calls|)
  {
    var t := Next(a1, s, a);
    StepBack(a1, s, a);
    StepOut(a1, s, a);
    forall k | 0 <= k < |t.conns| ensures HeldId(t.conns[k].handler) < |t.back.calls| { StepHeld(a1, s, a, k); }
    forall d | 0 <= d < |t.out| ensures t.out[d].msg.id < |t.back.calls| {
      if d < |s.out| { assert t.out[d].msg == s.out[d].msg; } else { StepNewOut(a1, s, a); }
    }
  }

  lemma StepLinear(a1: bool, s: Sys, a: Action)
    requires B.Base(s.back) && Committed(s) && Linear(s) && Enabled(a1, s, a)
    ensures Linear(Next(a1, s, a))
  {
    var t := Next(a1, s, a);
    IdsBegun(a1, s, a);
    forall j, k | 0 <= j < k < |t.conns| && HeldId(t.conns[j].handler) >= 0
      ensures HeldId(t.conns[j].handler) != HeldId(t.conns[k].handler) { HandlersApart(a1, s, a, j, k); }
    forall d, k | 0 <= d < |t.out| && 0 <= k < |t.conns|
      ensures t.out[d].msg.id != HeldId(t.conns[k].handler) { OutApartFromHandlers(a1, s, a, d, k); }
    forall d, e | 0 <= d < e < |t.out| ensures t.out[d].msg.id != t.out[e].msg.id { OutApart(a1, s, a, d, e); }
  }

  lemma StepOnceIn(a1: bool, s: Sys, a: Action, k: nat)
    requires B.Base(s.back) && Committed(s) && Once(s) && Enabled(a1, s, a) && k < |Next(a1, s, a).conns|
    ensures OnceIn(Next(a1, s, a).conns[k])
  {
    if k < |s.conns| {
      assert OnceIn(s.conns[k]) && HandlerCommitted(s, s.conns[k]);
      if a.Read? && a.k == k {
        forall m | m in s.conns[k].acks ensures m.id != |s.back.calls| { assert B.RowBelongs(s.back, m); }
      } else if a.WriteAck? && a.k == k {
        assert forall i :: 0 <= i < |s.conns[k].acks| ==> s.conns[k].acks[i] in s.conns[k].acks;
      } else {
        OtherHands(a1, s, a, k);
      }
    }
  }

  /** Outside Read and WriteAck a handler keeps its acks and the id it holds, if any. */
  lemma OtherHands(a1: bool, s: Sys, a: Action, k: nat)
    requires Enabled(a1, s, a) && k < |s.conns| && !((a.Read? || a.WriteAck?) && a.k == k)
    ensures var (c, d) := (s.conns[k], Next(a1, s, a).conns[k]);
      && d.acks == c.acks
      && (d.handler.Awaiting? || d.handler.Acking? ==>
            HeldId(d.handler) == HeldId(c.handler) && (c.handler.Awaiting? || c.handler.Acking?))
  {
  }

  lemma StepOnce(a1: bool, s: Sys, a: Action)
    requires B.Base(s.back) && Committed(s) && Once(s) && Enabled(a1, s, a)
    ensures Once(Next(a1, s, a))
  {
    forall k | 0 <= k < |Next(a1, s, a).conns| ensures OnceIn(Next(a1, s, a).conns[k]) { StepOnceIn(a1, s, a, k); }
  }

  lemma StepBackInv(s: Sys, a: Action)
    requires B.Inv(s.back) && Enabled(true, s, a)
    ensures B.Inv(Next(true, s, a).back)
  {
    if a.Service? { B.StepInv(s.back, a.a); }
    if a.Read? { B.StepInv(s.back, B.Start(s.conns[a.k].user, a.receiver, a.content)); }
  }

  lemma StepOrdered(a1: bool, s: Sys, a: Action)
    requires B.Inv(s.back) && Committed(s) && Ordered(s) && Enabled(a1, s, a) && B.LogOk(Next(a1, s, a).back)
    ensures Ordered(Next(a1, s, a))
  {
    var t := Next(a1, s, a);
    forall k | 0 <= k < |t.conns| ensures AcksInOrder(t.conns[k]) && HandlerInOrder(t, t.conns[k]) {
      if k < |s.conns| { StepConnOrdered(a1, s, a, k); } else { NewConn(a1, s, a, k); }
    }
  }

  lemma NewConn(a1: bool, s: Sys, a: Action, k: nat)
    requires Enabled(a1, s, a) && |s.conns| <= k < |Next(a1, s, a).conns|
    ensures Next(a1, s, a).conns[k].acks == [] && Next(a1, s, a).conns[k].handler == Reading
  {
  }

  lemma ClearStays(a1: bool, s: Sys, a: Action, m: Message, b: nat)
    requires B.Inv(s.back) && Enabled(a1, s, a) && B.LogOk(Next(a1, s, a).back) && ClearOfCall(s.back, m, b)
    ensures ClearOfCall(Next(a1, s, a).back, m, b)
  {
    StepBack(a1, s, a);
    forall r ensures ClearOf(Next(a1, s, a).back, B.UserOf(m, r), B.PtsOf(m, r), b) {
      ClearOfStays(s.back, Next(a1, s, a).back, B.UserOf(m, r), B.PtsOf(m, r), b);
    }
  }

  /** A committed message clear of earlier ones comes after them. */
  lemma ClearThenPrecedes(st: B.State, m: Message, n: Message)
    requires B.Inv(st) && n in st.table && ClearOfCall(st, m, n.id)
    ensures Precedes(m, n)
  {
    forall r, q | B.UserOf(m, r) == B.UserOf(n, q) ensures B.PtsOf(m, r) < B.PtsOf(n, q) {
      RowOwner(st, n, q);
      assert ClearOf(st, B.UserOf(m, r), B.PtsOf(m, r), n.id);
    }
  }

  /** Everything acknowledged before a call begins is clear of that call. */
  lemma ReadInOrder(a1: bool, s: Sys, a: Action)
    requires B.Inv(s.back) && Committed(s) && Enabled(a1, s, a) && a.Read? && B.LogOk(Next(a1, s, a).back)
    ensures forall m :: m in s.conns[a.k].acks ==> ClearOfCall(Next(a1, s, a).back, m, |s.back.calls|)
  {
    forall m | m in s.conns[a.k].acks ensures ClearOfCall(Next(a1, s, a).back, m, |s.back.calls|) {
      forall r ensures ClearOf(s.back, B.UserOf(m, r), B.PtsOf(m, r), |s.back.calls|) {
        ClearOfNewCall(s.back, m, r, |s.back.calls|);
      }
      ClearStays(a1, s, a, m, |s.back.calls|);
    }
  }

  lemma ReplyInOrder(a1: bool, s: Sys, a: Action)
    requires B.Inv(s.back) && Enabled(a1, s, a) && a.Reply? && a.ok
    requires HandlerInOrder(s, s.conns[a.k])
    ensures HandlerInOrder(Next(a1, s, a), Next(a1, s, a).conns[a.k])
  {
    var c := s.conns[a.k];
    var n := B.MessageOf(c.handler.call, s.back.calls[c.handler.call]);
    assert n in s.back.table;
    forall m | m in c.acks ensures Precedes(m, n) { ClearThenPrecedes(s.back, m, n); }
  }

  lemma AckInOrder(c: Conn, pm: Message)
    requires AcksInOrder(c) && forall m :: m in c.acks ==> Precedes(m, pm)
    ensures AcksInOrder(c.(acks := c.acks + [pm], handler := Routing(pm)))
  {
    var acks := c.acks + [pm];
    forall i, j | 0 <= i < j < |acks| ensures Precedes(acks[i], acks[j]) {
      assert acks[i] == c.acks[i] && c.acks[i] in c.acks;
      if j < |c.acks| { assert acks[j] == c.acks[j]; }
    }
  }

  /** Outside its own Read, Reply and WriteAck a connection keeps its acks and stays in order. */
  lemma OtherStep(a1: bool, s: Sys, a: Action, k: nat)
    requires Enabled(a1, s, a) && k < |s.conns| && k < |Next(a1, s, a).conns|
    requires !((a.Read? || a.Reply? || a.WriteAck?) && a.k == k)
    ensures var (c, d) := (s.conns[k], Next(a1, s, a).conns[k]);
      d.acks == c.acks && (d.handler.Awaiting? || d.handler.Acking? ==> d.handler == c.handler)
  {
  }

  lemma StepConnOrdered(a1: bool, s: Sys, a: Action, k: nat)
    requires B.Inv(s.back) && Committed(s) && Ordered(s) && Enabled(a1, s, a) && B.LogOk(Next(a1, s, a).back)
    requires k < |s.conns| && k < |Next(a1, s, a).conns|
    ensures AcksInOrder(Next(a1, s, a).conns[k]) && HandlerInOrder(Next(a1, s, a), Next(a1, s, a).conns[k])
  {
    var t := Next(a1, s, a);
    var c := s.conns[k];
    assert AcksInOrder(c) && HandlerInOrder(s, c);
    if a.Read? && a.k == k {
      ReadInOrder(a1, s, a);
    } else if a.Reply? && a.k == k {
      if a.ok { ReplyInOrder(a1, s, a); }
    } else if a.WriteAck? && a.k == k {
      if a.ok { AckInOrder(c, c.handler.pm); }
    } else {
      OtherStep(a1, s, a, k);
      if c.handler.Awaiting? {
        forall m | m in c.acks ensures ClearOfCall(t.back, m, c.handler.call) { ClearStays(a1, s, a, m, c.handler.call); }
      }
    }
  }

  lemma StepOneTraced(a1: bool, s: Sys, a: Action, d: nat)
    requires Traced(s) && Committed(s) && Enabled(a1, s, a) && d < |Next(a1, s, a).out|
    ensures OneTraced(Next(a1, s, a), d)
  {
    StepOut(a1, s, a);
    StepConns(a1, s, a);
    if d < |s.out| {
      assert OneTraced(s, d);
      if Running(s.out[d]) && s.out[d].local { KeepsWaiting(a1, s, a, d); }
    } else {
      assert HandlerCommitted(s, s.conns[a.k]);
    }
  }

  /** The handler of a running local delivery waits until it is over. */
  lemma KeepsWaiting(a1: bool, s: Sys, a: Action, d: nat)
    requires Enabled(a1, s, a) && d < |s.out| && d < |Next(a1, s, a).out| && s.out[d].origin < |s.conns|
    requires s.out[d].origin < |Next(a1, s, a).conns|
    requires Running(s.out[d]) && s.conns[s.out[d].origin].handler == Delivering(d)
    ensures Next(a1, s, a).conns[s.out[d].origin].handler == Delivering(d)
  {
  }

  lemma StepAckOrder(a1: bool, s: Sys, a: Action, d: nat, e: nat)
    requires Traced(s) && Enabled(a1, s, a) && d < e < |Next(a1, s, a).out|
    requires Next(a1, s, a).out[d].origin == Next(a1, s, a).out[e].origin
    ensures Next(a1, s, a).out[d].ackNo < Next(a1, s, a).out[e].ackNo
  {
    StepOut(a1, s, a);
    var t := Next(a1, s, a);
    assert t.out[d].origin == s.out[d].origin && t.out[d].ackNo == s.out[d].ackNo && OneTraced(s, d);
    if e < |s.out| { assert t.out[e].origin == s.out[e].origin && t.out[e].ackNo == s.out[e].ackNo; }
  }

  lemma StepHoldsFor(a1: bool, s: Sys, a: Action, k: nat, d: nat)
    requires Traced(s) && Enabled(a1, s, a) && k < |Next(a1, s, a).conns| && d < |Next(a1, s, a).out| && HoldsFor(Next(a1, s, a), k, d)
    ensures d <= Next(a1, s, a).conns[k].handler.d
  {
    StepOut(a1, s, a);
    var t := Next(a1, s, a);
    if d < |s.out| {
      assert t.out[d].origin == s.out[d].origin && t.out[d].local == s.out[d].local && OneTraced(s, d);
      if t.conns[k].handler == s.conns[k].handler { assert HoldsFor(s, k, d); }
    }
  }

  lemma StepTraced(a1: bool, s: Sys, a: Action)
    requires Committed(s) && Traced(s) && Enabled(a1, s, a)
    ensures Traced(Next(a1, s, a))
  {
    var t := Next(a1, s, a);
    forall d | 0 <= d < |t.out| ensures OneTraced(t, d) { StepOneTraced(a1, s, a, d); }
    forall d, e | 0 <= d < e < |t.out| && t.out[d].origin == t.out[e].origin
      ensures t.out[d].ackNo < t.out[e].ackNo { StepAckOrder(a1, s, a, d, e); }
    forall k, d | 0 <= k < |t.conns| && 0 <= d < |t.out| && HoldsFor(t, k, d)
      ensures d <= t.conns[k].handler.d { StepHoldsFor(a1, s, a, k, d); }
  }

  lemma StepQueued(a1: bool, s: Sys, a: Action)
    requires Placed(s) && Traced(s) && Queued(s) && Enabled(a1, s, a)
    ensures Queued(Next(a1, s, a))
  {
    StepOut(a1, s, a);
    var t := Next(a1, s, a);
    forall g, ch | 0 <= g < |t.gates| && 0 <= ch < |t.gates[g].chans| ensures QueueOk(t, t.gates[g].chans[ch].accepted) {
      StepChans(a1, s, a, g, ch);
      if ch < |s.gates[g].chans| {
        var q := s.gates[g].chans[ch].accepted;
        assert QueueOk(s, q);
        forall i | 0 <= i < |q| ensures q[i] < |s.out| && !Running(s.out[q[i]]) {
          assert SlotTaken(s, g, ch, i, q[i]);
        }
        StepQueue(a1, s, a, q, t.gates[g].chans[ch].accepted);
      }
    }
  }

  lemma StepQueue(a1: bool, s: Sys, a: Action, q: seq<nat>, r: seq<nat>)
    requires Traced(s) && Enabled(a1, s, a) && QueueOk(s, q)
    requires forall i :: 0 <= i < |q| ==> q[i] < |s.out| && !Running(s.out[q[i]])
    requires r == q || (a.SendTo? && r == q + [a.d])
    ensures QueueOk(Next(a1, s, a), r)
  {
    StepOut(a1, s, a);
    var t := Next(a1, s, a);
    forall i, j | 0 <= i < j < |r| && Comrades(t, r[i], r[j]) ensures r[i] < r[j] {
      assert t.out[r[i]] == s.out[r[i]];
      if j < |q| {
        assert Comrades(s, q[i], q[j]);
      } else {
        var d := r[i];
        assert OneTraced(s, a.d);
        assert HoldsFor(s, s.out[d].origin, d);
        assert d != a.d;
      }
    }
  }

  lemma StepHomes(a1: bool, s: Sys, a: Action)
    requires Homes(s) && Enabled(a1, s, a)
    ensures Homes(Next(a1, s, a))
  {
    StepConns(a1, s, a);
    StepOut(a1, s, a);
    var t := Next(a1, s, a);
    forall d | 0 <= d < |t.out| ensures t.out[d].gw < |t.gates| {
      if d < |s.out| { assert t.out[d].gw == s.out[d].gw; }
    }
  }

  lemma StepInv(a1: bool, s: Sys, a: Action)
    requires Inv(a1, s) && Enabled(a1, s, a)
    ensures Inv(a1, Next(a1, s, a))
  {
    StepBack(a1, s, a);
    StepHomes(a1, s, a);
    StepGates(a1, s, a);
    StepCommitted(a1, s, a);
    StepPlaced(a1, s, a);
    StepLinear(a1, s, a);
    StepOnce(a1, s, a);
    if a1 {
      StepBackInv(s, a);
      StepOrdered(a1, s, a);
    }
    StepTraced(a1, s, a);
    StepQueued(a1, s, a);
  }

  lemma {:induction false} PathInv(a1: bool, s: Sys, acts: seq<Action>, t: Sys)
    requires Inv(a1, s) && Path(a1, s, acts, t)
    ensures Inv(a1, t)
    decreases |acts|
  {
    if acts == [] {
    } else {
      StepInv(a1, s, acts[0]);
      PathInv(a1, Next(a1, s, acts[0]), acts[1..], t);
    }
  }

  lemma Always(a1: bool, s: Sys)
    requires Reachable(a1, s)
    ensures Inv(a1, s)
  {
    var n: nat :| Reaches(a1, Init(n), s);
    var acts :| Path(a1, Init(n), acts, s);
    InitInv(a1, n);
    PathInv(a1, Init(n), acts, s);
  }

  // ----- what a user can rely on -----------------------------------------------------------

  /** Message m was put into channel ch of gateway g, as its at-th. */
  ghost predicate PutInto(s: Sys, m: Message, g: nat, ch: nat, at: nat) {
    && g < |s.gates| && ch < |s.gates[g].chans| && at < |s.gates[g].chans[ch].accepted|
    && s.gates[g].chans[ch].accepted[at] < |s.out|
    && s.out[s.gates[g].chans[ch].accepted[at]].msg == m
  }

  /** Persist before deliver: every ack and every enqueued message is a committed row, in its receiver's channel. */
  lemma PersistBeforeDeliver(a1: bool, s: Sys)
    requires Reachable(a1, s)
    ensures forall k, m :: 0 <= k < |s.conns| && m in s.conns[k].acks ==>
              m in s.back.table && m.sender == s.conns[k].user
    ensures forall m, g: nat, ch: nat, at: nat :: PutInto(s, m, g, ch, at) ==>
              m in s.back.table && s.gates[g].chans[ch].user == m.receiver
  {
    Always(a1, s);
    forall m, g: nat, ch: nat, at: nat | PutInto(s, m, g, ch, at)
      ensures m in s.back.table && s.gates[g].chans[ch].user == m.receiver
    {
      var d := s.gates[g].chans[ch].accepted[at];
      assert SlotTaken(s, g, ch, at, d) && RightDoor(s, d);
    }
  }

  /** Everything buffered, taken or written to a socket is a message the channel accepted. */
  lemma AllAccepted(a1: bool, s: Sys, g: nat, ch: nat, d: nat)
    requires Reachable(a1, s) && g < |s.gates| && ch < |s.gates[g].chans|
    requires var c := s.gates[g].chans[ch]; d in c.buf || d in c.taken || d in c.written
    ensures exists m, at: nat :: PutInto(s, m, g, ch, at) && s.gates[g].chans[ch].accepted[at] == d
  {
    Always(a1, s);
    var c := s.gates[g].chans[ch];
    assert G.ChanOk(c);
    assert d in c.accepted;
    var at :| 0 <= at < |c.accepted| && c.accepted[at] == d;
    assert SlotTaken(s, g, ch, at, d);
    assert PutInto(s, s.out[d].msg, g, ch, at);
  }

  /** At most once: no message id is enqueued twice, over all gateways and channels. */
  lemma AtMostOnce(a1: bool, s: Sys, m: Message, g: nat, ch: nat, at: nat, n: Message, h: nat, di: nat, bt: nat)
    requires Reachable(a1, s) && PutInto(s, m, g, ch, at) && PutInto(s, n, h, di, bt) && m.id == n.id
    ensures g == h && ch == di && at == bt
  {
    Always(a1, s);
    var d, e := s.gates[g].chans[ch].accepted[at], s.gates[h].chans[di].accepted[bt];
    assert SlotTaken(s, g, ch, at, d) && SlotTaken(s, h, di, bt, e);
    assert d == e;
  }

  /** What a send comes to: a panic on a closed channel, a loss on a full one, otherwise the message is in. */
  lemma SendToOutcome(a1: bool, s: Sys, d: nat)
    requires Enabled(a1, s, SendTo(d))
    ensures var (o, t) := (s.out[d], Next(a1, s, SendTo(d)));
      var (b, c) := (s.gates[o.gw].chans[o.status.ch], t.gates[o.gw].chans[o.status.ch]);
      && (t.out[d].status == Status.Panicked(o.status.ch) <==> b.closed)
      && (t.out[d].status == Lost <==> !b.closed && |b.buf| >= 64)
      && (t.out[d].status == Enqueued(o.status.ch, |b.accepted|) <==> !b.closed && |b.buf| < 64)
      && c.accepted == b.accepted + (if !b.closed && |b.buf| < 64 then [d] else [])
  {
  }

  lemma {:induction false} OverStays(a1: bool, s: Sys, acts: seq<Action>, t: Sys, d: nat)
    requires Path(a1, s, acts, t) && d < |s.out| && !Running(s.out[d])
    ensures d < |t.out| && t.out[d] == s.out[d]
    decreases |acts|
  {
    if acts == [] {
    } else {
      StepOut(a1, s, acts[0]);
      OverStays(a1, Next(a1, s, acts[0]), acts[1..], t, d);
    }
  }

  lemma PutIsEnqueued(a1: bool, s: Sys, d: nat, g: nat, ch: nat, at: nat)
    requires Inv(a1, s) && d < |s.out| && PutInto(s, s.out[d].msg, g, ch, at)
    ensures s.out[d].status.Enqueued?
  {
    assert SlotTaken(s, g, ch, at, s.gates[g].chans[ch].accepted[at]);
  }

  /** Nothing is retried: after a failed RPC no run ever puts the message into a channel. */
  lemma FailedRpcIsFinal(a1: bool, s: Sys, d: nat, acts: seq<Action>, t: Sys)
    requires Reachable(a1, s) && Enabled(a1, s, RpcFails(d)) && Path(a1, Next(a1, s, RpcFails(d)), acts, t)
    ensures forall g: nat, ch: nat, at: nat :: !PutInto(t, s.out[d].msg, g, ch, at)
  {
    var next := Next(a1, s, RpcFails(d));
    Always(a1, s);
    StepInv(a1, s, RpcFails(d));
    PathInv(a1, next, acts, t);
    OverStays(a1, next, acts, t, d);
    forall g: nat, ch: nat, at: nat | PutInto(t, s.out[d].msg, g, ch, at) ensures t.out[d].status.Enqueued? {
      PutIsEnqueued(a1, t, d, g, ch, at);
    }
  }

  /** Acks on one connection carry strictly increasing sender numbers. */
  lemma AcksIncrease(s: Sys, k: nat, i: nat, j: nat)
    requires Reachable(true, s) && k < |s.conns| && i < j < |s.conns[k].acks|
    ensures s.conns[k].acks[i].senderPts < s.conns[k].acks[j].senderPts
  {
    Always(true, s);
    var c := s.conns[k];
    assert AcksInOrder(c) && Precedes(c.acks[i], c.acks[j]);
    assert c.acks[i] in c.acks && c.acks[j] in c.acks;
    assert B.UserOf(c.acks[i], Role.Sent) == B.UserOf(c.acks[j], Role.Sent);
  }

  /**
   Two deliveries of one connection, whichever channels they reach, the earlier one local: it is
   over before the later begins, and its number is smaller if they have the same receiver.
   */
  lemma LocalRoutingIncreases(a1: bool, s: Sys, d: nat, e: nat)
    requires Reachable(a1, s) && d < e < |s.out| && s.out[d].local && s.out[d].origin == s.out[e].origin
    ensures !Running(s.out[d])
    ensures a1 && s.out[d].msg.receiver == s.out[e].msg.receiver ==> s.out[d].msg.receiverPts < s.out[e].msg.receiverPts
  {
    Always(a1, s);
    assert OneTraced(s, d) && OneTraced(s, e);
    var k := s.out[d].origin;
    assert s.conns[k].handler == Delivering(d) ==> HoldsFor(s, k, e);
    if a1 && s.out[d].msg.receiver == s.out[e].msg.receiver {
      assert AcksInOrder(s.conns[k]);
      assert Precedes(s.conns[k].acks[s.out[d].ackNo], s.conns[k].acks[s.out[e].ackNo]);
      assert B.UserOf(s.out[d].msg, Role.Received) == B.UserOf(s.out[e].msg, Role.Received);
    }
  }

  /** Messages one connection delivers locally sit in a channel with strictly increasing receiver numbers. */
  lemma LocalDeliveryIncreases(s: Sys, g: nat, ch: nat, i: nat, j: nat)
    requires Reachable(true, s) && g < |s.gates| && ch < |s.gates[g].chans| && i < j < |s.gates[g].chans[ch].accepted|
    requires var q := s.gates[g].chans[ch].accepted; Comrades(s, q[i], q[j])
    ensures var q := s.gates[g].chans[ch].accepted; s.out[q[i]].msg.receiverPts < s.out[q[j]].msg.receiverPts
  {
    Always(true, s);
    var q := s.gates[g].chans[ch].accepted;
    assert QueueOk(s, q);
    assert SlotTaken(s, g, ch, i, q[i]) && SlotTaken(s, g, ch, j, q[j]);
    assert RightDoor(s, q[i]) && RightDoor(s, q[j]);
    LocalRoutingIncreases(true, s, q[i], q[j]);
  }
}
