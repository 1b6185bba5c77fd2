/**
 Several connections of one user at one gateway. The connection map has one entry per user: a newer
 connection displaces an older one, and any of them, when it ends, closes whatever the map holds.
 This file carries the fate of a gateway's channels over to the connections of the whole system.
 */
module Tabs {
  import opened Counters
  import B = Backend
  import G = Gateway
  import opened Delivery

  /** What a step of the system does to gateway gw. */
  function GateStep(s: Sys, a: Action, gw: nat): seq<G.Act<nat>> {
    match a
    case Connect(u, h) => if h == gw then [G.Register(u)] else []
    case Disconnect(k) =>
      if k < |s.conns| && s.conns[k].gw == gw then [G.Unregister(s.conns[k].user)] else []
    case Resume(k) =>
      if k < |s.conns| && s.conns[k].gw == gw && PanickedHandler(s, k) then [G.Unregister(s.conns[k].user)] else []
    case SendTo(d) =>
      if d < |s.out| && s.out[d].gw == gw && s.out[d].status.ToSend? then [G.Send(s.out[d].status.ch, d)] else []
    case Drain(h, ch, ok) => if h == gw then [G.Take(ch, ok)] else []
    case _ => []
  }

  predicate PanickedHandler(s: Sys, k: nat)
    requires k < |s.conns|
  {
    var h := s.conns[k].handler;
    h.Delivering? && h.d < |s.out| && s.out[h.d].status.Panicked?
  }

  /** What a run of the system does to gateway gw, in order. */
  ghost function GateRun(a1: bool, s: Sys, acts: seq<Action>, gw: nat): seq<G.Act<nat>>
    decreases |acts|
  {
    if acts == [] || !Enabled(a1, s, acts[0]) then []
    else GateStep(s, acts[0], gw) + GateRun(a1, Next(a1, s, acts[0]), acts[1..], gw)
  }

  lemma StepOnGate(a1: bool, s: Sys, a: Action, gw: nat)
    requires Enabled(a1, s, a) && gw < |s.gates|
    ensures |Next(a1, s, a).gates| == |s.gates|
    ensures var steps := GateStep(s, a, gw);
      && |steps| <= 1
      && Next(a1, s, a).gates[gw] == if steps == [] then s.gates[gw] else G.Apply(s.gates[gw], steps[0])
  {
  }

  /** A gateway inside a run of the system is a gateway running on its own. */
  lemma {:induction false} GateRefines(a1: bool, s: Sys, acts: seq<Action>, t: Sys, gw: nat)
    requires Path(a1, s, acts, t) && gw < |s.gates|
    ensures |t.gates| == |s.gates| && t.gates[gw] == G.Exec(s.gates[gw], GateRun(a1, s, acts, gw))
    decreases |acts|
  {
    if acts == [] {
    } else {
      var next, steps := Next(a1, s, acts[0]), GateStep(s, acts[0], gw);
      StepOnGate(a1, s, acts[0], gw);
      GateRefines(a1, next, acts[1..], t, gw);
      var rest := GateRun(a1, next, acts[1..], gw);
      if steps == [] {
        assert steps + rest == rest;
      } else {
        assert (steps + rest)[0] == steps[0] && (steps + rest)[1..] == rest;
      }
    }
  }

  /**
   The channel opened by a connection of u at gw, over any run that follows: it is where messages
   for u go exactly while no other connection of u opens at gw and none, itself included, ends
   there; and it is closed exactly when one ends before another opens.
   */
  lemma ConnectionFate(a1: bool, s: Sys, u: User, gw: nat, acts: seq<Action>, t: Sys)
    requires Reachable(a1, s) && Enabled(a1, s, Connect(u, gw)) && Path(a1, Next(a1, s, Connect(u, gw)), acts, t)
    ensures var ch := |s.gates[gw].chans|;
      var steps := GateRun(a1, Next(a1, s, Connect(u, gw)), acts, gw);
      && gw < |t.gates| && ch < |t.gates[gw].chans|
      && ((u in t.gates[gw].connMap && t.gates[gw].connMap[u] == ch) <==>
            forall i :: 0 <= i < |steps| ==> !G.Touches(steps[i], u))
      && (t.gates[gw].chans[ch].closed <==> G.ClosedFirst(steps, u))
  {
    Always(a1, s);
    var next := Next(a1, s, Connect(u, gw));
    GateRefines(a1, next, acts, t, gw);
    assert next.gates[gw] == G.Apply(s.gates[gw], G.Register(u));
    G.ReachableUntilTouched(s.gates[gw], u, GateRun(a1, next, acts, gw));
  }

  lemma Extend(a1: bool, s: Sys, a: Action) returns (t: Sys)
    requires Reachable(a1, s) && Enabled(a1, s, a)
    ensures t == Next(a1, s, a) && Reachable(a1, t)
  {
    var n: nat :| Reaches(a1, Init(n), s);
    t := Next(a1, s, a);
    StepReaches(a1, s, a);
    ReachesTrans(a1, Init(n), s, t);
  }

  /** Two tabs of bob; the first is closed. The second reads on, and nothing can reach it any more. */
  lemma OrphanedTab(a1: bool) returns (s: Sys)
    ensures Reachable(a1, s) && |s.conns| == 2 && |s.gates| == 1
    ensures s.conns[1].user == "bob" && s.conns[1].gw == 0 && s.conns[1].handler == Reading
    ensures |s.gates[0].chans| == 2 && s.gates[0].chans[1].closed && "bob" !in s.gates[0].connMap
  {
    s := Init(1);
    assert Path(a1, s, [], s);
    assert Reaches(a1, Init(1), s);
    s := Extend(a1, s, Connect("bob", 0));
    s := Extend(a1, s, Connect("bob", 0));
    s := Extend(a1, s, Disconnect(0));
  }
}
