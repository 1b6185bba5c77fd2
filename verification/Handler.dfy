/**
 WebSocketHandler as it runs: one connection's sequential loop inside the whole system. Between
 any two of its own steps everybody else may take any steps.
 */
module Handler {
  import opened Counters
  import B = Backend
  import opened Delivery

  /** What ReadMessage and json.Unmarshal make of one frame. */
  datatype Frame = BadJson | Text(receiver: User, content: string)

  /** The world during one frame: others' steps before each of the handler's, and how each turns out. */
  datatype Round = Round(gaps: nat -> seq<Action>, replyArrives: bool, ackWritten: bool, presence: Target)

  /** What the handler did with a frame: acknowledged it with this message, or skipped it. */
  datatype Verdict = Acked(pm: Message) | Skipped

  datatype Session = Refused | Served(k: nat, verdicts: seq<Verdict>)

  predicate Usable(f: Frame) {
    f.Text? && f.receiver != "" && f.content != ""
  }

  /** The messages acknowledged, in frame order. */
  function AckList(verdicts: seq<Verdict>): seq<Message> {
    if verdicts == [] then []
    else
      var last := verdicts[|verdicts| - 1];
      AckList(verdicts[..|verdicts| - 1]) + (if last.Acked? then [last.pm] else [])
  }

  /** An ack carries the committed row of exactly this frame. */
  ghost predicate Honest(s: Sys, u: User, f: Frame, v: Verdict) {
    v.Acked? ==>
      && Usable(f) && v.pm in s.back.table
      && v.pm.sender == u && v.pm.receiver == f.receiver && v.pm.content == f.content
  }

  ghost predicate AllHonest(s: Sys, u: User, frames: seq<Frame>, verdicts: seq<Verdict>) {
    |verdicts| <= |frames| && forall i :: 0 <= i < |verdicts| ==> Honest(s, u, frames[i], verdicts[i])
  }

  lemma HonestStays(s: Sys, t: Sys, u: User, f: Frame, v: Verdict)
    requires Honest(s, u, f, v) && s.back.table <= t.back.table
    ensures Honest(t, u, f, v)
  {
    if v.Acked? {
      var i :| 0 <= i < |s.back.table| && s.back.table[i] == v.pm;
      assert t.back.table[i] == v.pm;
    }
  }

  lemma StillHonest(s: Sys, t: Sys, u: User, frames: seq<Frame>, verdicts: seq<Verdict>)
    requires AllHonest(s, u, frames, verdicts) && s.back.table <= t.back.table
    ensures AllHonest(t, u, frames, verdicts)
  {
    forall i | 0 <= i < |verdicts| ensures Honest(t, u, frames[i], verdicts[i]) {
      HonestStays(s, t, u, frames[i], verdicts[i]);
    }
  }

  lemma OneMoreVerdict(s: Sys, u: User, frames: seq<Frame>, verdicts: seq<Verdict>, v: Verdict)
    requires AllHonest(s, u, frames, verdicts)
    requires |verdicts| < |frames| && Honest(s, u, frames[|verdicts|], v)
    ensures AllHonest(s, u, frames, verdicts + [v])
  {
    var more := verdicts + [v];
    forall i | 0 <= i < |more| ensures Honest(s, u, frames[i], more[i]) {
      if i < |verdicts| {
        assert more[i] == verdicts[i];
      } else {
        assert more[i] == v;
      }
    }
  }

  lemma AckListGrows(verdicts: seq<Verdict>, v: Verdict)
    ensures AckList(verdicts + [v]) == AckList(verdicts) + (if v.Acked? then [v.pm] else [])
  {
    assert (verdicts + [v])[..|verdicts|] == verdicts;
  }

  /** Steps only connection k's own handler takes. */
  predicate Mine(s: Sys, a: Action, k: nat) {
    match a
    case Disconnect(j) => j == k
    case Read(j, _, _) => j == k
    case Reply(j, _) => j == k
    case WriteAck(j, _) => j == k
    case Route(j, _) => j == k
    case Resume(j) => j == k
    case Lookup(d) => d < |s.out| && s.out[d].local && s.out[d].origin == k
    case SendTo(d) => d < |s.out| && s.out[d].local && s.out[d].origin == k
    case _ => false
  }

  /** What connection k's handler can rely on while others run. */
  ghost predicate KeepsMine(s: Sys, t: Sys, k: nat) {
    && k < |s.conns| <= |t.conns| && t.conns[k] == s.conns[k]
    && |t.gates| == |s.gates|
    && s.back.table <= t.back.table
    && |s.back.calls| <= |t.back.calls|
    && (forall c :: 0 <= c < |s.back.calls| ==>
          && t.back.calls[c].sender == s.back.calls[c].sender
          && t.back.calls[c].receiver == s.back.calls[c].receiver
          && t.back.calls[c].content == s.back.calls[c].content)
    && |s.out| <= |t.out|
    && (forall d :: 0 <= d < |s.out| && s.out[d].local && s.out[d].origin == k ==> t.out[d] == s.out[d])
  }

  lemma StepKeepsMine(a1: bool, s: Sys, a: Action, k: nat)
    requires Enabled(a1, s, a) && !Mine(s, a, k) && k < |s.conns|
    ensures KeepsMine(s, Next(a1, s, a), k)
  {
    var t := Next(a1, s, a);
    StepBackParties(a1, s, a);
    StepOut(a1, s, a);
  }

  lemma StepBackParties(a1: bool, s: Sys, a: Action)
    requires Enabled(a1, s, a)
    ensures var t := Next(a1, s, a);
      && s.back.table <= t.back.table && |s.back.calls| <= |t.back.calls|
      && (forall c :: 0 <= c < |s.back.calls| ==>
          && t.back.calls[c].sender == s.back.calls[c].sender
          && t.back.calls[c].receiver == s.back.calls[c].receiver
          && t.back.calls[c].content == s.back.calls[c].content)
  {
    if a.Service? || a.Read? {
      var b := if a.Service? then a.a else B.Start(s.conns[a.k].user, a.receiver, a.content);
      B.StepRows(a1, s.back, b);
      forall c | 0 <= c < |s.back.calls|
        ensures c < |Next(a1, s, a).back.calls|
        ensures Next(a1, s, a).back.calls[c].(phase := s.back.calls[c].phase) == s.back.calls[c]
      {
        CallParties(a1, s.back, b, c);
      }
    }
  }

  lemma CallParties(a1: bool, s: B.State, a: B.Action, c: nat)
    requires B.Enabled(a1, s, a) && c < |s.calls|
    ensures c < |B.Next(a1, s, a).calls| && B.Next(a1, s, a).calls[c].(phase := s.calls[c].phase) == s.calls[c]
  {
  }

  lemma AllAcksIncrease(s: Sys, k: nat)
    requires Reachable(true, s) && k < |s.conns|
    ensures forall i, j :: 0 <= i < j < |s.conns[k].acks| ==> s.conns[k].acks[i].senderPts < s.conns[k].acks[j].senderPts
  {
    forall i, j | 0 <= i < j < |s.conns[k].acks| ensures s.conns[k].acks[i].senderPts < s.conns[k].acks[j].senderPts {
      AcksIncrease(s, k, i, j);
    }
  }

  /** The handler has returned, and its gateway's map has no entry for the user. */
  ghost predicate Gone(s: Sys, k: nat) {
    && k < |s.conns| && s.conns[k].handler.Closed?
    && s.conns[k].gw < |s.gates| && s.conns[k].user !in s.gates[s.conns[k].gw].connMap
  }

  lemma CleanupForgets(a1: bool, s: Sys, k: nat, a: Action)
    requires Reachable(a1, s) && Enabled(a1, s, a) && k < |s.conns| && s.conns[k].gw < |s.gates|
    requires a == Disconnect(k) || (a == Resume(k) && s.out[s.conns[k].handler.d].status.Panicked?)
    ensures Gone(Next(a1, s, a), k)
  {
    Delivery.Always(a1, s);
    assert G.GateOk(s.gates[s.conns[k].gw]);
  }

  // ----- what a frame does -----------------------------------------------------------------

  function Try(a1: bool, s: Sys, a: Action): Sys {
    if Enabled(a1, s, a) then Next(a1, s, a) else s
  }

  /** Steps of others, as far as each is possible when its turn comes. */
  function Others(a1: bool, s: Sys, acts: seq<Action>, k: nat): Sys {
    if acts == [] then s
    else
      var t, a := Others(a1, s, acts[..|acts| - 1], k), acts[|acts| - 1];
      if Mine(t, a, k) then t else Try(a1, t, a)
  }

  /** The state when PersistMessage's reply, or its absence, reaches the handler. */
  function AtReply(a1: bool, s: Sys, k: nat, f: Frame, r: Round): Sys
    requires f.Text?
  {
    Others(a1, Try(a1, s, Read(k, f.receiver, f.content)), r.gaps(1), k)
  }

  /** The call that the frame read in s begins is persisted when the reply is taken. */
  predicate PersistedByReply(a1: bool, s: Sys, k: nat, f: Frame, r: Round)
    requires f.Text?
  {
    var c, t := |s.back.calls|, AtReply(a1, s, k, f, r);
    c < |t.back.calls| && t.back.calls[c].phase.Persisted?
  }

  function AfterPersist(a1: bool, s: Sys, k: nat, f: Frame, r: Round): Sys
    requires f.Text?
  {
    Try(a1, AtReply(a1, s, k, f, r), Reply(k, r.replyArrives && PersistedByReply(a1, s, k, f, r)))
  }

  function Whereto(s: Sys, r: Round): Target {
    if r.presence.At? && r.presence.gw >= |s.gates| then Nowhere else r.presence
  }

  function AfterLookupAndSend(a1: bool, s: Sys, k: nat, d: nat, r: Round): Sys {
    var t := Try(a1, Others(a1, s, r.gaps(4), k), Lookup(d));
    if d < |t.out| && t.out[d].status.ToSend? then Try(a1, Others(a1, t, r.gaps(5), k), SendTo(d)) else t
  }

  function AfterDeliverHere(a1: bool, s: Sys, k: nat, d: nat, r: Round): Sys {
    Try(a1, Others(a1, AfterLookupAndSend(a1, s, k, d, r), r.gaps(6), k), Resume(k))
  }

  function AfterRoute(a1: bool, s: Sys, k: nat, r: Round): Sys {
    var target := Whereto(s, r);
    var t := Try(a1, s, Route(k, target));
    if target.At? && k < |s.conns| && target.gw == s.conns[k].gw
    then AfterDeliverHere(a1, t, k, |s.out|, r)
    else t
  }

  function AfterAckAndRoute(a1: bool, s: Sys, k: nat, r: Round): Sys {
    AfterRoute(a1, Others(a1, Try(a1, Others(a1, s, r.gaps(2), k), WriteAck(k, true)), r.gaps(3), k), k, r)
  }

  function AfterFrame(a1: bool, s: Sys, k: nat, f: Frame, r: Round): Sys {
    var ready := Others(a1, s, r.gaps(0), k);
    if !Usable(f) then ready
    else
      var t := AfterPersist(a1, ready, k, f, r);
      if !r.replyArrives || !PersistedByReply(a1, ready, k, f, r) then t
      else if !r.ackWritten then Try(a1, Others(a1, t, r.gaps(2), k), WriteAck(k, false))
      else AfterAckAndRoute(a1, t, k, r)
  }

  function AfterFrames(a1: bool, s: Sys, k: nat, frames: seq<Frame>, world: nat -> Round): Sys {
    if frames == [] then s
    else
      var n := |frames| - 1;
      AfterFrame(a1, AfterFrames(a1, s, k, frames[..n], world), k, frames[n], world(n))
  }

  /** The call number a frame's message would get. */
  function CallNo(a1: bool, s: Sys, k: nat, r: Round): nat {
    |Others(a1, s, r.gaps(0), k).back.calls|
  }

  /**
   A frame is answered exactly when it has a receiver and content, its call is persisted, and both
   replies get through; then the message is that call's.
   */
  ghost predicate Decided(a1: bool, s: Sys, k: nat, f: Frame, r: Round, v: Verdict) {
    && (v.Acked? <==>
          && f.Text? && f.receiver != "" && f.content != ""
          && r.replyArrives && r.ackWritten && PersistedByReply(a1, Others(a1, s, r.gaps(0), k), k, f, r))
    && (v.Acked? ==> v.pm.id == CallNo(a1, s, k, r))
  }

  ghost predicate DecidedAt(a1: bool, first: Sys, k: nat, frames: seq<Frame>, world: nat -> Round, i: nat, v: Verdict)
    requires i < |frames|
  {
    Decided(a1, AfterFrames(a1, first, k, frames[..i], world), k, frames[i], world(i), v)
  }

  /** Each frame was answered, with its own call's message, exactly when it had to be. */
  ghost predicate AllDecided(a1: bool, first: Sys, k: nat, frames: seq<Frame>, world: nat -> Round, verdicts: seq<Verdict>) {
    |verdicts| <= |frames| && forall i :: 0 <= i < |verdicts| ==> DecidedAt(a1, first, k, frames, world, i, verdicts[i])
  }

  lemma OneMoreDecided(a1: bool, first: Sys, k: nat, frames: seq<Frame>, world: nat -> Round, verdicts: seq<Verdict>, v: Verdict)
    requires AllDecided(a1, first, k, frames, world, verdicts) && |verdicts| < |frames|
    requires DecidedAt(a1, first, k, frames, world, |verdicts|, v)
    ensures AllDecided(a1, first, k, frames, world, verdicts + [v])
  {
  }

  lemma AfterOneMore(a1: bool, first: Sys, k: nat, frames: seq<Frame>, world: nat -> Round, n: nat)
    requires n < |frames|
    ensures AfterFrames(a1, first, k, frames[..n + 1], world)
         == AfterFrame(a1, AfterFrames(a1, first, k, frames[..n], world), k, frames[n], world(n))
  {
    assert frames[..n + 1][..n] == frames[..n];
  }

  /** Delivering pm on this connection's own gateway hit a closed channel. */
  ghost predicate PanickedOn(s: Sys, k: nat, pm: Message) {
    exists d: nat :: d < |s.out| && PanickedAt(s, k, pm, d)
  }

  predicate PanickedAt(s: Sys, k: nat, pm: Message, d: nat)
    requires d < |s.out|
  {
    && s.out[d].origin == k && s.out[d].local && s.out[d].status.Panicked? && s.out[d].msg == pm
    && s.out[d].gw < |s.gates| && s.out[d].status.ch < |s.gates[s.out[d].gw].chans|
    && s.gates[s.out[d].gw].chans[s.out[d].status.ch].closed
  }

  // ----- where an acknowledged message goes ------------------------------------------------

  /** Delivery d takes pm from connection k to gateway gw; on k's own gateway it has run to its end. */
  predicate HandedAt(s: Sys, k: nat, pm: Message, gw: nat, d: nat) {
    && k < |s.conns| && d < |s.out|
    && s.out[d].msg == pm && s.out[d].origin == k && s.out[d].gw == gw
    && (s.out[d].local <==> gw == s.conns[k].gw)
    && (s.out[d].local ==> !Running(s.out[d]))
  }

  /** No delivery has the message, and nobody holds it any more. */
  ghost predicate Retired(s: Sys, id: nat) {
    && id < |s.back.calls|
    && (forall k :: 0 <= k < |s.conns| ==> HeldId(s.conns[k].handler) != id)
    && (forall d :: 0 <= d < |s.out| ==> s.out[d].msg.id != id)
  }

  /** The message was handed on to the gateway the presence key named, or, if it named none, kept back. */
  ghost predicate Routed(s: Sys, k: nat, pm: Message, presence: Target) {
    if presence.At? && presence.gw < |s.gates| then exists d: nat :: HandedAt(s, k, pm, presence.gw, d)
    else Retired(s, pm.id)
  }

  ghost predicate AllRouted(s: Sys, k: nat, world: nat -> Round, verdicts: seq<Verdict>) {
    forall i :: 0 <= i < |verdicts| && verdicts[i].Acked? ==> Routed(s, k, verdicts[i].pm, world(i).presence)
  }

  lemma StepRetired(a1: bool, s: Sys, a: Action, id: nat)
    requires Inv(a1, s) && Enabled(a1, s, a) && Retired(s, id)
    ensures Retired(Next(a1, s, a), id)
  {
    var t := Next(a1, s, a);
    StepBack(a1, s, a);
    StepOut(a1, s, a);
    forall k | 0 <= k < |t.conns| ensures HeldId(t.conns[k].handler) != id { StepHeld(a1, s, a, k); }
    forall d | 0 <= d < |t.out| ensures t.out[d].msg.id != id {
      if d < |s.out| { assert t.out[d].(status := s.out[d].status) == s.out[d]; } else { StepNewOut(a1, s, a); }
    }
  }

  lemma StepHandedAt(a1: bool, s: Sys, a: Action, k: nat, pm: Message, gw: nat, d: nat)
    requires Enabled(a1, s, a) && HandedAt(s, k, pm, gw, d)
    ensures HandedAt(Next(a1, s, a), k, pm, gw, d)
  {
    StepOut(a1, s, a);
    StepConns(a1, s, a);
    assert Next(a1, s, a).out[d].(status := s.out[d].status) == s.out[d];
  }

  lemma SameGates(a1: bool, s: Sys, a: Action)
    requires Enabled(a1, s, a)
    ensures |Next(a1, s, a).gates| == |s.gates|
  {
  }

  lemma {:induction false} RoutedAlong(a1: bool, s: Sys, acts: seq<Action>, t: Sys, k: nat, pm: Message, presence: Target)
    requires Inv(a1, s) && Path(a1, s, acts, t) && Routed(s, k, pm, presence)
    ensures Routed(t, k, pm, presence)
    decreases |acts|
  {
    if acts == [] {
    } else {
      var next := Next(a1, s, acts[0]);
      SameGates(a1, s, acts[0]);
      if presence.At? && presence.gw < |s.gates| {
        var d: nat :| HandedAt(s, k, pm, presence.gw, d);
        StepHandedAt(a1, s, acts[0], k, pm, presence.gw, d);
      } else {
        StepRetired(a1, s, acts[0], pm.id);
      }
      StepInv(a1, s, acts[0]);
      RoutedAlong(a1, next, acts[1..], t, k, pm, presence);
    }
  }

  lemma StillRouted(a1: bool, s: Sys, t: Sys, k: nat, world: nat -> Round, verdicts: seq<Verdict>)
    requires Reachable(a1, s) && Reaches(a1, s, t) && AllRouted(s, k, world, verdicts)
    ensures AllRouted(t, k, world, verdicts)
  {
    Delivery.Always(a1, s);
    var acts :| Path(a1, s, acts, t);
    forall i | 0 <= i < |verdicts| && verdicts[i].Acked? ensures Routed(t, k, verdicts[i].pm, world(i).presence) {
      RoutedAlong(a1, s, acts, t, k, verdicts[i].pm, world(i).presence);
    }
  }

  lemma OneMoreRouted(s: Sys, k: nat, world: nat -> Round, verdicts: seq<Verdict>, v: Verdict)
    requires AllRouted(s, k, world, verdicts) && (v.Acked? ==> Routed(s, k, v.pm, world(|verdicts|).presence))
    ensures AllRouted(s, k, world, verdicts + [v])
  {
  }

  /** A message that is routed nowhere is nowhere else either. */
  lemma NowhereRetires(a1: bool, s: Sys, k: nat)
    requires Reachable(a1, s) && Enabled(a1, s, Route(k, Nowhere))
    ensures Retired(Next(a1, s, Route(k, Nowhere)), s.conns[k].handler.pm.id)
  {
    Delivery.Always(a1, s);
    assert HandlerCommitted(s, s.conns[k]);
    var id := s.conns[k].handler.pm.id;
    assert HeldId(s.conns[k].handler) == id;
  }

  // ----- a frame is a run ------------------------------------------------------------------

  lemma TryReaches(a1: bool, s: Sys, t: Sys, a: Action)
    requires Reaches(a1, s, t)
    ensures Reaches(a1, s, Try(a1, t, a))
  {
    if Enabled(a1, t, a) {
      StepReaches(a1, t, a);
      ReachesTrans(a1, s, t, Next(a1, t, a));
    }
  }

  lemma {:induction false} OthersReaches(a1: bool, s: Sys, t: Sys, acts: seq<Action>, k: nat)
    requires Reaches(a1, s, t)
    ensures Reaches(a1, s, Others(a1, t, acts, k))
    decreases |acts|
  {
    if acts == [] {
    } else {
      var front := acts[..|acts| - 1];
      OthersReaches(a1, s, t, front, k);
      TryReaches(a1, s, Others(a1, t, front, k), acts[|acts| - 1]);
    }
  }

  /** Others' steps and then one of the handler's. */
  lemma StageReaches(a1: bool, s: Sys, t: Sys, acts: seq<Action>, k: nat, a: Action)
    requires Reaches(a1, s, t)
    ensures Reaches(a1, s, Try(a1, Others(a1, t, acts, k), a))
  {
    OthersReaches(a1, s, t, acts, k);
    TryReaches(a1, s, Others(a1, t, acts, k), a);
  }

  lemma DeliverReaches(a1: bool, s: Sys, t: Sys, k: nat, d: nat, r: Round)
    requires Reaches(a1, s, t)
    ensures Reaches(a1, s, AfterDeliverHere(a1, t, k, d, r))
  {
    var looked := Try(a1, Others(a1, t, r.gaps(4), k), Lookup(d));
    StageReaches(a1, s, t, r.gaps(4), k, Lookup(d));
    StageReaches(a1, s, looked, r.gaps(5), k, SendTo(d));
    StageReaches(a1, s, AfterLookupAndSend(a1, t, k, d, r), r.gaps(6), k, Resume(k));
  }

  lemma RouteReaches(a1: bool, s: Sys, t: Sys, k: nat, r: Round)
    requires Reaches(a1, s, t)
    ensures Reaches(a1, s, AfterAckAndRoute(a1, t, k, r))
  {
    var written := Try(a1, Others(a1, t, r.gaps(2), k), WriteAck(k, true));
    var acked := Others(a1, written, r.gaps(3), k);
    StageReaches(a1, s, t, r.gaps(2), k, WriteAck(k, true));
    OthersReaches(a1, s, written, r.gaps(3), k);
    TryReaches(a1, s, acked, Route(k, Whereto(acked, r)));
    DeliverReaches(a1, s, Try(a1, acked, Route(k, Whereto(acked, r))), k, |acked.out|, r);
  }

  lemma FrameReaches(a1: bool, s: Sys, k: nat, f: Frame, r: Round)
    ensures Reaches(a1, s, AfterFrame(a1, s, k, f, r))
  {
    assert Path(a1, s, [], s);
    var ready := Others(a1, s, r.gaps(0), k);
    OthersReaches(a1, s, s, r.gaps(0), k);
    if Usable(f) {
      var begun := Try(a1, ready, Read(k, f.receiver, f.content));
      TryReaches(a1, s, ready, Read(k, f.receiver, f.content));
      StageReaches(a1, s, begun, r.gaps(1), k, Reply(k, r.replyArrives && PersistedByReply(a1, ready, k, f, r)));
      var t := AfterPersist(a1, ready, k, f, r);
      StageReaches(a1, s, t, r.gaps(2), k, WriteAck(k, false));
      RouteReaches(a1, s, t, k, r);
    }
  }

  class Node {
    const a1: bool
    var back: B.State
    var gates: seq<G.Gate<nat>>
    var conns: seq<Conn>
    var out: seq<Dispatch>

    function S(): Sys
      reads this
    {
      Sys(back, gates, conns, out)
    }

    ghost predicate Valid()
      reads this
    {
      Reachable(a1, S())
    }

    constructor (a1: bool, gateways: nat)
      ensures Valid() && this.a1 == a1 && S() == Init(gateways)
    {
      this.a1 := a1;
      var s := Init(gateways);
      back, gates, conns, out := s.back, s.gates, s.conns, s.out;
      new;
      assert Path(a1, Init(gateways), [], S());
      assert Reaches(a1, Init(gateways), S());
    }

    method Do(a: Action)
      requires Valid() && Enabled(a1, S(), a)
      modifies this
      ensures Valid() && S() == Next(a1, old(S()), a)
    {
      var t := Next(a1, S(), a);
      ghost var n: nat :| Reaches(a1, Init(n), S());
      StepReaches(a1, S(), a);
      ReachesTrans(a1, Init(n), S(), t);
      back, gates, conns, out := t.back, t.gates, t.conns, t.out;
    }

    method Interfere(acts: seq<Action>, k: nat)
      requires Valid() && k < |conns|
      modifies this
      ensures Valid() && KeepsMine(old(S()), S(), k) && S() == Others(a1, old(S()), acts, k)
    {
      for i := 0 to |acts|
        invariant Valid() && KeepsMine(old(S()), S(), k) && S() == Others(a1, old(S()), acts[..i], k)
      {
        assert acts[..i + 1][..i] == acts[..i];
        if Enabled(a1, S(), acts[i]) && !Mine(S(), acts[i], k) {
          StepKeepsMine(a1, S(), acts[i], k);
          Do(acts[i]);
        }
      }
      assert acts[..|acts|] == acts;
    }

    /** PersistMessage over the network: the call runs in the back end, and its reply may not arrive. */
    method Persist(k: nat, f: Frame, r: Round) returns (ok: bool, pm: Message)
      requires Valid() && k < |conns| && conns[k].handler.Reading? && Usable(f)
      modifies this
      ensures Valid() && S() == AfterPersist(a1, old(S()), k, f, r)
      ensures k < |conns| && |gates| == |old(gates)| && old(back.table) <= back.table
      ensures conns[k] == old(conns[k]).(handler := if ok then Acking(pm) else Reading)
      ensures ok <==> r.replyArrives && PersistedByReply(a1, old(S()), k, f, r)
      ensures ok ==>
        && pm in back.table && pm.id == |old(back.calls)|
        && pm.sender == conns[k].user && pm.receiver == f.receiver && pm.content == f.content
    {
      var c := |back.calls|;
      Do(Read(k, f.receiver, f.content));
      assert back.calls[c].sender == conns[k].user;
      Interfere(r.gaps(1), k);
      ok := r.replyArrives && back.calls[c].phase.Persisted?;
      pm := if ok then B.MessageOf(c, back.calls[c]) else B.Message(c, "", "", "", 0, 0);
      Do(Reply(k, ok));
      if ok {
        assert pm in back.table by { Delivery.Always(a1, S()); }
      }
    }

    /**
     One frame: read, persist, ack, look up, deliver. It is answered exactly when its own call is
     persisted and both replies get through; `alive` is false exactly when the delivery panicked.
     */
    method HandleFrame(k: nat, f: Frame, r: Round) returns (v: Verdict, alive: bool)
      requires Valid() && k < |conns| && conns[k].handler.Reading? && conns[k].gw < |gates|
      modifies this
      ensures Valid() && S() == AfterFrame(a1, old(S()), k, f, r)
      ensures Decided(a1, old(S()), k, f, r, v) && Honest(S(), old(conns[k].user), f, v)
      ensures k < |conns| && conns[k].user == old(conns[k].user) && conns[k].gw == old(conns[k].gw)
      ensures |gates| == |old(gates)| && old(back.table) <= back.table
      ensures conns[k].acks == old(conns[k].acks) + (if v.Acked? then [v.pm] else [])
      ensures v.Acked? ==> Routed(S(), k, v.pm, r.presence)
      ensures if alive then conns[k].handler.Reading? else Gone(S(), k) && v.Acked? && PanickedOn(S(), k, v.pm)
    {
      v, alive := Skipped, true;
      Interfere(r.gaps(0), k);
      if f.BadJson? { return; }
      if f.receiver == "" || f.content == "" { return; }
      var ok, pm := Persist(k, f, r);
      if !ok { return; }
      if !r.ackWritten {
        Interfere(r.gaps(2), k);
        Do(WriteAck(k, false));
        return;
      }
      alive := AckAndRoute(k, pm, r);
      v := Acked(pm);
    }

    /** The ack is written, and then the message goes to the receiver's gateway. */
    method AckAndRoute(k: nat, pm: Message, r: Round) returns (alive: bool)
      requires Valid() && k < |conns| && conns[k].handler == Acking(pm) && conns[k].gw < |gates|
      modifies this
      ensures Valid() && S() == AfterAckAndRoute(a1, old(S()), k, r)
      ensures k < |conns| && conns[k].user == old(conns[k].user) && conns[k].gw == old(conns[k].gw)
      ensures conns[k].acks == old(conns[k].acks) + [pm]
      ensures |gates| == |old(gates)| && old(back.table) <= back.table
      ensures Routed(S(), k, pm, r.presence)
      ensures if alive then conns[k].handler.Reading? else Gone(S(), k) && PanickedOn(S(), k, pm)
    {
      Interfere(r.gaps(2), k);
      Do(WriteAck(k, true));
      Interfere(r.gaps(3), k);
      alive := RouteNow(k, pm, r);
    }

    /** The presence key decides: nowhere, here, or another gateway. */
    method RouteNow(k: nat, pm: Message, r: Round) returns (alive: bool)
      requires Valid() && k < |conns| && conns[k].handler == Routing(pm) && conns[k].acks != [] && conns[k].gw < |gates|
      modifies this
      ensures Valid() && S() == AfterRoute(a1, old(S()), k, r)
      ensures k < |conns| && conns[k].user == old(conns[k].user) && conns[k].gw == old(conns[k].gw)
      ensures conns[k].acks == old(conns[k].acks)
      ensures |gates| == |old(gates)| && old(back.table) <= back.table
      ensures Routed(S(), k, pm, r.presence)
      ensures if alive then conns[k].handler.Reading? else Gone(S(), k) && PanickedOn(S(), k, pm)
    {
      var target := if r.presence.At? && r.presence.gw >= |gates| then Nowhere else r.presence;
      if target.Nowhere? { NowhereRetires(a1, S(), k); }
      ghost var d := |out|;
      Do(Route(k, target));
      alive := true;
      if target.At? && target.gw == conns[k].gw {
        alive := DeliverHere(k, r);
      }
      assert target.At? ==> HandedAt(S(), k, pm, target.gw, d);
    }

    /** DeliverLocal from the handler: lookup, then send, then back to the loop. */
    method DeliverHere(k: nat, r: Round) returns (alive: bool)
      requires Valid() && k < |conns| && conns[k].gw < |gates| && conns[k].handler.Delivering?
      requires var d := conns[k].handler.d;
        d < |out| && out[d].local && out[d].origin == k && out[d].status.ToLookup? && out[d].gw == conns[k].gw
      modifies this
      ensures Valid() && S() == AfterDeliverHere(a1, old(S()), k, old(conns[k].handler.d), r)
      ensures k < |conns| && conns[k].user == old(conns[k].user) && conns[k].gw == old(conns[k].gw)
      ensures conns[k].acks == old(conns[k].acks)
      ensures var d := old(conns[k].handler.d); HandedAt(S(), k, old(out[d].msg), conns[k].gw, d)
      ensures |gates| == |old(gates)| && old(back.table) <= back.table
      ensures if alive then conns[k].handler.Reading?
              else Gone(S(), k) && PanickedOn(S(), k, old(out[conns[k].handler.d].msg))
    {
      var d := conns[k].handler.d;
      LookupAndSend(k, d, r);
      Interfere(r.gaps(6), k);
      alive := !out[d].status.Panicked?;
      if !alive { CleanupForgets(a1, S(), k, Resume(k)); }
      Do(Resume(k));
      assert RightDoor(S(), d) by { Delivery.Always(a1, S()); }
      assert alive || PanickedAt(S(), k, old(out[conns[k].handler.d].msg), d);
    }

    method LookupAndSend(k: nat, d: nat, r: Round)
      requires Valid() && k < |conns| && conns[k].handler == Delivering(d)
      requires d < |out| && out[d].local && out[d].origin == k && out[d].status.ToLookup? && out[d].gw < |gates|
      modifies this
      ensures Valid() && S() == AfterLookupAndSend(a1, old(S()), k, d, r)
      ensures k < |conns| && conns[k] == old(conns[k])
      ensures |gates| == |old(gates)| && old(back.table) <= back.table
      ensures d < |out| && out[d] == old(out[d]).(status := out[d].status) && !Running(out[d])
    {
      Interfere(r.gaps(4), k);
      Do(Lookup(d));
      if out[d].status.ToSend? { SendLater(k, d, r); }
    }

    /** The send comes after the lock is released. */
    method SendLater(k: nat, d: nat, r: Round)
      requires Valid() && k < |conns| && conns[k].handler == Delivering(d)
      requires d < |out| && out[d].local && out[d].origin == k && out[d].status.ToSend?
      modifies this
      ensures Valid() && S() == Try(a1, Others(a1, old(S()), r.gaps(5), k), SendTo(d))
      ensures k < |conns| && conns[k] == old(conns[k])
      ensures |gates| == |old(gates)| && old(back.table) <= back.table
      ensures d < |out| && out[d] == old(out[d]).(status := out[d].status) && !Running(out[d])
    {
      Interfere(r.gaps(5), k);
      assert RightDoor(S(), d) by { Delivery.Always(a1, S()); }
      Do(SendTo(d));
    }

    /** The HTTP request: refused without a user id or an upgrade, served otherwise. */
    method WebSocketHandler(userID: User, upgraded: bool, gw: nat, frames: seq<Frame>, world: nat -> Round)
      returns (r: Session)
      requires Valid() && gw < |gates|
      modifies this
      ensures Valid() && (r.Refused? <==> userID == "" || !upgraded)
      ensures r.Refused? ==> S() == old(S())
      ensures r.Served? ==>
        && r.k == |old(conns)| && IsServed(a1, old(S()), S(), r.k, userID, gw, frames, world, r.verdicts)
        && conns[r.k].acks == AckList(r.verdicts)
        && (a1 ==> forall i, j :: 0 <= i < j < |conns[r.k].acks| ==>
              conns[r.k].acks[i].senderPts < conns[r.k].acks[j].senderPts)
    {
      if userID == "" || !upgraded { return Refused; }
      var k, verdicts := Serve(userID, gw, frames, world);
      if a1 { AllAcksIncrease(S(), k); }
      r := Served(k, verdicts);
    }

    /** The whole connection: register, handle frames in order until the reads end, clean up. */
    method Serve(userID: User, gw: nat, frames: seq<Frame>, world: nat -> Round)
      returns (k: nat, verdicts: seq<Verdict>)
      requires Valid() && userID != "" && gw < |gates|
      modifies this
      ensures Valid() && k == |old(conns)|
      ensures IsServed(a1, old(S()), S(), k, userID, gw, frames, world, verdicts)
      ensures conns[k].acks == AckList(verdicts)
    {
      k := |conns|;
      Do(Connect(userID, gw));
      ghost var first := S();
      verdicts := [];
      var alive := true;
      for n := 0 to |frames|
        invariant Valid() && |verdicts| <= n && (alive ==> |verdicts| == n)
        invariant Serving(a1, first, S(), k, userID, frames, world, verdicts, alive)
      {
        if !alive { break; }
        ghost var before := S();
        var v: Verdict;
        v, alive := HandleFrame(k, frames[n], world(n));
        OneMoreFrame(a1, first, before, S(), k, userID, frames, world, verdicts, v, alive);
        verdicts := verdicts + [v];
      }
      if alive {
        ghost var before := S();
        HangUp(k, world(|frames|));
        StillRouted(a1, before, S(), k, world, verdicts);
        StillHonest(before, S(), userID, frames, verdicts);
      }
    }

    /** The reads have ended: the deferred cleanup. */
    method HangUp(k: nat, r: Round)
      requires Valid() && k < |conns| && conns[k].handler.Reading? && conns[k].gw < |gates|
      modifies this
      ensures Valid() && S() == Try(a1, Others(a1, old(S()), r.gaps(0), k), Disconnect(k))
      ensures k < |conns| && conns[k].user == old(conns[k].user) && conns[k].acks == old(conns[k].acks)
      ensures Gone(S(), k) && old(back.table) <= back.table && Reaches(a1, old(S()), S())
    {
      assert Path(a1, S(), [], S());
      StageReaches(a1, S(), S(), r.gaps(0), k, Disconnect(k));
      Interfere(r.gaps(0), k);
      CleanupForgets(a1, S(), k, Disconnect(k));
      Do(Disconnect(k));
    }
  }

  /** The loop so far: every verdict given, and the connection still reading or ended by a panic. */
  ghost predicate Serving(a1: bool, first: Sys, s: Sys, k: nat, u: User, frames: seq<Frame>, world: nat -> Round,
                          verdicts: seq<Verdict>, alive: bool) {
    && |verdicts| <= |frames| && s == AfterFrames(a1, first, k, frames[..|verdicts|], world)
    && k < |s.conns| && s.conns[k].user == u && s.conns[k].gw < |s.gates| && s.conns[k].acks == AckList(verdicts)
    && AllHonest(s, u, frames, verdicts) && AllDecided(a1, first, k, frames, world, verdicts)
    && AllRouted(s, k, world, verdicts)
    && (if alive then s.conns[k].handler.Reading?
        else verdicts != [] && verdicts[|verdicts| - 1].Acked? && Gone(s, k)
             && PanickedOn(s, k, verdicts[|verdicts| - 1].pm))
  }

  lemma OneMoreFrame(a1: bool, first: Sys, s: Sys, t: Sys, k: nat, u: User, frames: seq<Frame>, world: nat -> Round,
                     verdicts: seq<Verdict>, v: Verdict, alive: bool)
    requires Reachable(a1, s) && Serving(a1, first, s, k, u, frames, world, verdicts, true) && |verdicts| < |frames|
    requires var n := |verdicts|; t == AfterFrame(a1, s, k, frames[n], world(n)) && Decided(a1, s, k, frames[n], world(n), v)
    requires Honest(t, u, frames[|verdicts|], v) && s.back.table <= t.back.table
    requires k < |t.conns| && t.conns[k].user == u && t.conns[k].gw < |t.gates|
    requires t.conns[k].acks == s.conns[k].acks + (if v.Acked? then [v.pm] else [])
    requires v.Acked? ==> Routed(t, k, v.pm, world(|verdicts|).presence)
    requires if alive then t.conns[k].handler.Reading? else Gone(t, k) && v.Acked? && PanickedOn(t, k, v.pm)
    ensures Serving(a1, first, t, k, u, frames, world, verdicts + [v], alive)
  {
    var n := |verdicts|;
    StillHonest(s, t, u, frames, verdicts);
    OneMoreVerdict(t, u, frames, verdicts, v);
    OneMoreDecided(a1, first, k, frames, world, verdicts, v);
    AckListGrows(verdicts, v);
    FrameReaches(a1, s, k, frames[n], world(n));
    StillRouted(a1, s, t, k, world, verdicts);
    OneMoreRouted(t, k, world, verdicts, v);
    AfterOneMore(a1, first, k, frames, world, n);
  }

  /**
   A connection served from s to t: each frame was decided as it had to be, acknowledged with its own
   committed row, and that row handed on where the presence key said; the frames ran one after the other, and only a panic cut them short; and at
   the end the gateway has no entry for the user.
   */
  ghost predicate IsServed(a1: bool, s: Sys, t: Sys, k: nat, u: User, gw: nat,
                           frames: seq<Frame>, world: nat -> Round, verdicts: seq<Verdict>) {
    && Enabled(a1, s, Connect(u, gw)) && |verdicts| <= |frames|
    && var first := Next(a1, s, Connect(u, gw));
       var last := AfterFrames(a1, first, k, frames[..|verdicts|], world);
       && k < |t.conns| && t.conns[k].user == u && Gone(t, k)
       && AllDecided(a1, first, k, frames, world, verdicts) && AllHonest(t, u, frames, verdicts)
       && AllRouted(t, k, world, verdicts)
       && (if |verdicts| < |frames|
           then t == last && verdicts != [] && verdicts[|verdicts| - 1].Acked? && PanickedOn(t, k, verdicts[|verdicts| - 1].pm)
           else t == last || t == Try(a1, Others(a1, last, world(|frames|).gaps(0), k), Disconnect(k)))
  }
}
